/**
  Mailbox naming and label-ID filtering: the pure helpers the label and
  message handlers use to build protocol updates.
 */
module Mailbox {
  import opened Types

  const FolderPrefix: string := "Folders"
  const LabelPrefix: string := "Labels"

  /** The prefix segment a label type puts in front of the label's path, if any. */
  function PrefixOf(t: LabelType): (prefix: seq<string>)
    ensures |prefix| <= 1
  {
    match t
    case Folder => [FolderPrefix]
    case UserLabel => [LabelPrefix]
    case _ => []
  }

  /**
    The mailbox name of a label: folders live under "Folders", user labels
    under "Labels", every other type (system, contact group, unknown) keeps
    its path as it is.
   */
  function MailboxName(l: Label): (name: seq<string>)
    ensures |name| == |l.path| + (if l.labelType.Folder? || l.labelType.UserLabel? then 1 else 0)
    ensures name[|name| - |l.path|..] == l.path
    ensures l.labelType.Folder? ==> name[0] == FolderPrefix
    ensures l.labelType.UserLabel? ==> name[0] == LabelPrefix
  {
    match l.labelType
    case Folder => [FolderPrefix] + l.path
    case UserLabel => [LabelPrefix] + l.path
    case ContactGroup => l.path
    case System => l.path
    case OtherType(_) => l.path
  }

  /** Recovers the path from a mailbox name, given the label type that produced it. */
  function PathOf(name: seq<string>, t: LabelType): (path: seq<string>)
    requires |name| >= |PrefixOf(t)|
    ensures |path| == |name| - |PrefixOf(t)|
  {
    name[|PrefixOf(t)|..]
  }

  /** The name is the type's prefix followed by the path, and the path can be read back. */
  lemma MailboxNameRoundTrip(l: Label)
    ensures MailboxName(l) == PrefixOf(l.labelType) + l.path
    ensures PathOf(MailboxName(l), l.labelType) == l.path
  {
  }

  /** Two labels of the same type get the same mailbox name only when their paths agree. */
  lemma MailboxNameInjective(a: Label, b: Label)
    requires a.labelType == b.labelType
    ensures MailboxName(a) == MailboxName(b) <==> a.path == b.path
  {
    if MailboxName(a) == MailboxName(b) {
      MailboxNameRoundTrip(a);
      MailboxNameRoundTrip(b);
    }
  }

  /** A folder and a user label never share a mailbox name. */
  lemma FolderAndLabelNamesDiffer(f: Label, l: Label)
    requires f.labelType.Folder? && l.labelType.UserLabel?
    ensures MailboxName(f) != MailboxName(l)
  {
    assert MailboxName(f)[0] != MailboxName(l)[0];
  }

  /**
    The label IDs of a message that the protocol side is interested in, in
    their original order; IDs the filter rejects are dropped silently.
   */
  function FilterLabels(ids: seq<string>, want: string -> bool): (kept: seq<string>)
    ensures |kept| <= |ids|
    ensures forall x :: x in kept <==> x in ids && want(x)
  {
    if ids == [] then []
    else (if want(ids[0]) then [ids[0]] else []) + FilterLabels(ids[1..], want)
  }

  /** Filtering distributes over concatenation, so the relative order of kept IDs is preserved. */
  lemma {:induction false} FilterLabelsAppend(a: seq<string>, b: seq<string>, want: string -> bool)
    ensures FilterLabels(a + b, want) == FilterLabels(a, want) + FilterLabels(b, want)
  {
    if a == [] {
      assert a + b == b;
    } else {
      assert (a + b)[1..] == a[1..] + b;
      FilterLabelsAppend(a[1..], b, want);
    }
  }

  /** When every ID is wanted, the filter keeps the list as it is. */
  lemma {:induction false} FilterLabelsKeepsAll(ids: seq<string>, want: string -> bool)
    requires forall x :: x in ids ==> want(x)
    ensures FilterLabels(ids, want) == ids
  {
    if ids != [] {
      FilterLabelsKeepsAll(ids[1..], want);
    }
  }
}
