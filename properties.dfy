/**
  What the reconciliation promises, proved about the functions of module
  Reconcile: the order in which a batch is applied and how it stops, the
  effect of every handler on the tables, the registry, the queues and the
  notification stream, and how many copies of a broadcast a queue receives.
 */
module Properties {
  import opened Types
  import opened Mailbox
  import opened Reconcile

  // ================================================================ batches

  /** Moves a run's failure position by `n`, for a run that follows `n` earlier sub-events. */
  function Shift<Q(==)>(r: RunResult<Q>, n: nat): RunResult<Q> {
    RunResult(r.state, if r.failed.Some? then Some(Failed(r.failed.value.index + n, r.failed.value.cause)) else None)
  }

  /**
    Running `a + b` is running `a`, then, only if `a` succeeded, running `b`
    from where `a` left off.
   */
  lemma {:induction false} RunAppend<Q>(s: Snapshot<Q>, o: Oracles, a: seq<Event<Q>>, b: seq<Event<Q>>)
    ensures Run(s, o, a + b) ==
            (if Run(s, o, a).failed.Some? then Run(s, o, a)
             else Shift(Run(Run(s, o, a).state, o, b), |a|))
    decreases |b|
  {
    if b == [] {
      assert a + b == a;
    } else {
      var b' := b[..|b| - 1];
      assert (a + b)[..|a + b| - 1] == a + b';
      assert (a + b)[|a + b| - 1] == b[|b| - 1];
      RunAppend(s, o, a, b');
    }
  }

  /** A run that has not failed so far takes one more step as `Step` says. */
  lemma RunSnoc<Q>(s: Snapshot<Q>, o: Oracles, es: seq<Event<Q>>, e: Event<Q>)
    requires Run(s, o, es).failed == None
    ensures var r := Step(Run(s, o, es).state, o, e);
            Run(s, o, es + [e]) == RunResult(r.state, if r.err.Some? then Some(Failed(|es|, r.err.value)) else None)
  {
    assert (es + [e])[..|es|] == es;
  }

  /** Once a sub-event fails, nothing after it is attempted: the result is that of the prefix. */
  lemma RunStopsAtFailure<Q>(s: Snapshot<Q>, o: Oracles, a: seq<Event<Q>>, b: seq<Event<Q>>)
    requires Run(s, o, a).failed.Some?
    ensures Run(s, o, a + b) == Run(s, o, a)
  {
    RunAppend(s, o, a, b);
  }

  /**
    A failed run failed at the first failing sub-event: every sub-event before
    it succeeded, and the final state is what that failing handler left, so the
    changes made before it are kept.
   */
  lemma {:induction false} RunFirstFailure<Q>(s: Snapshot<Q>, o: Oracles, es: seq<Event<Q>>)
    requires Run(s, o, es).failed.Some?
    ensures var f := Run(s, o, es).failed.value;
            && f.index < |es|
            && Run(s, o, es[..f.index]).failed == None
            && Step(Run(s, o, es[..f.index]).state, o, es[f.index]) == StepResult(Run(s, o, es).state, Some(f.cause))
    decreases |es|
  {
    var n := |es| - 1;
    var before := Run(s, o, es[..n]);
    if before.failed.Some? {
      RunFirstFailure(s, o, es[..n]);
      var i := before.failed.value.index;
      assert es[..n][..i] == es[..i];
      assert es[..n][i] == es[i];
    }
  }

  /** A run that succeeds succeeded at every sub-event, in list order. */
  lemma {:induction false} RunSuccessIsStepwise<Q>(s: Snapshot<Q>, o: Oracles, es: seq<Event<Q>>, i: nat)
    requires Run(s, o, es).failed == None
    requires i < |es|
    ensures Run(s, o, es[..i]).failed == None
    ensures Step(Run(s, o, es[..i]).state, o, es[i]).err == None
    decreases |es|
  {
    var n := |es| - 1;
    if i < n {
      assert es[..n][..i] == es[..i];
      assert es[..n][i] == es[i];
      RunSuccessIsStepwise(s, o, es[..n], i);
    }
  }

  /** The position, within the flattened batch, of a category's first sub-event. */
  function Offset(b: EventBatch, c: Category): nat {
    var u := if b.user.Some? then 1 else 0;
    match c
    case UserCategory => 0
    case AddressCategory => u
    case LabelCategory => u + |b.addresses|
    case MessageCategory => u + |b.addresses| + |b.labels|
  }

  /**
    The batch handler is one run over the user change, the address list, the
    label list and the message list, in that order: it ends in the same state,
    and it fails exactly when that run fails, at the same sub-event. So the
    first failing category stops every later one, and the user change never
    fails.
   */
  lemma BatchIsOneRun<Q>(s: Snapshot<Q>, o: Oracles, b: EventBatch, handles: seq<Q>)
    requires |handles| == |b.addresses|
    ensures var br := ApplyBatch(s, o, b, handles);
            var r := Run(s, o, Flatten(b, handles));
            && br.state == r.state
            && (br.failed == None <==> r.failed == None)
            && (br.failed.Some? ==>
                  && br.failed.value.category != UserCategory
                  && r.failed == Some(Failed(Offset(b, br.failed.value.category) + br.failed.value.index,
                                             br.failed.value.cause)))
  {
    var a := AddressEvents(b.addresses, handles);
    var l := LabelEvents<Q>(b.labels);
    var m := MessageEvents<Q>(b.messages);
    var s1 := if b.user.Some? then ApplyUser(s, b.user.value) else s;
    assert Flatten(b, handles) == UserEvents(b) + (a + l + m);
    RunAfterUser(s, o, b, a + l + m);
    RunThree(s1, o, a, l, m);
    var ra := Run(s1, o, a);
    var rl := Run(ra.state, o, l);
    var rm := Run(rl.state, o, m);
    BatchFromParts(b, |UserEvents<Q>(b)|, ra, rl, rm, Run(s1, o, a + l + m), Run(s, o, Flatten(b, handles)),
                   ApplyBatch(s, o, b, handles));
  }

  /** The user change of a batch as a list of at most one sub-event. */
  function UserEvents<Q>(b: EventBatch): (es: seq<Event<Q>>)
    ensures |es| == if b.user.Some? then 1 else 0
  {
    if b.user.Some? then [UserEv(b.user.value)] else []
  }

  /** The user change never fails, so a run after it is shifted by its length. */
  lemma RunAfterUser<Q>(s: Snapshot<Q>, o: Oracles, b: EventBatch, es: seq<Event<Q>>)
    ensures var s1 := if b.user.Some? then ApplyUser(s, b.user.value) else s;
            Run(s, o, UserEvents(b) + es) == Shift(Run(s1, o, es), |UserEvents<Q>(b)|)
  {
    var u := UserEvents<Q>(b);
    if b.user.Some? {
      assert u[..0] == [];
      RunAppend(s, o, u, es);
    } else {
      assert u + es == es;
    }
  }

  /**
    The bookkeeping behind BatchIsOneRun, on plain results: `ra`, `rl` and
    `rm` are the three category runs, `rest` the run over their
    concatenation, `r` that run after the `k` user sub-events.
   */
  lemma BatchFromParts<Q>(b: EventBatch, k: nat, ra: RunResult<Q>, rl: RunResult<Q>, rm: RunResult<Q>,
                          rest: RunResult<Q>, r: RunResult<Q>, br: BatchResult<Q>)
    requires k == (if b.user.Some? then 1 else 0)
    requires r == Shift(rest, k)
    requires ra.failed.Some? ==>
               rest == ra && br == BatchResult(ra.state, InCategory(AddressCategory, ra.failed))
    requires ra.failed == None && rl.failed.Some? ==>
               rest == Shift(rl, |b.addresses|) && br == BatchResult(rl.state, InCategory(LabelCategory, rl.failed))
    requires ra.failed == None && rl.failed == None ==>
               rest == Shift(rm, |b.addresses| + |b.labels|) && br == BatchResult(rm.state, InCategory(MessageCategory, rm.failed))
    ensures && br.state == r.state
            && (br.failed == None <==> r.failed == None)
            && (br.failed.Some? ==>
                  && br.failed.value.category != UserCategory
                  && r.failed == Some(Failed(Offset(b, br.failed.value.category) + br.failed.value.index,
                                             br.failed.value.cause)))
  {
  }

  /** A run over three lists, split where each list ends. */
  lemma RunThree<Q>(s: Snapshot<Q>, o: Oracles, a: seq<Event<Q>>, l: seq<Event<Q>>, m: seq<Event<Q>>)
    ensures var ra := Run(s, o, a);
            var r := Run(s, o, a + l + m);
            && (ra.failed.Some? ==> r == ra)
            && (ra.failed == None ==>
                  var rl := Run(ra.state, o, l);
                  && (rl.failed.Some? ==> r == Shift(rl, |a|))
                  && (rl.failed == None ==> r == Shift(Run(rl.state, o, m), |a| + |l|)))
  {
    assert a + l + m == a + (l + m);
    RunAppend(s, o, a, l + m);
    var ra := Run(s, o, a);
    if ra.failed == None {
      RunAppend(ra.state, o, l, m);
      var rl := Run(ra.state, o, l);
      if rl.failed == None {
        ShiftTwice(Run(rl.state, o, m), |l|, |a|);
      }
    }
  }

  lemma ShiftTwice<Q>(r: RunResult<Q>, k: nat, n: nat)
    ensures Shift(Shift(r, k), n) == Shift(r, k + n)
  {
  }

  // ================================================================ action tags

  /** A sub-event whose action tag is none of the four known ones. */
  predicate Skipped<Q>(e: Event<Q>) {
    match e
    case UserEv(_) => false
    case AddressEv(ev, _) => ev.action.EventOther?
    case LabelEv(ev) => ev.action.EventOther?
    case MessageEv(ev) => ev.action.EventOther?
  }

  /** The sub-events with a known action tag, in their original order. */
  function KnownActions<Q>(es: seq<Event<Q>>): (r: seq<Event<Q>>)
    ensures |r| <= |es|
  {
    if es == [] then []
    else KnownActions(es[..|es| - 1]) + (if Skipped(es[|es| - 1]) then [] else [es[|es| - 1]])
  }

  /**
    Sub-events with an unknown action tag are skipped: a run ends in the same
    state, and fails for the same reason, as the run without them.
   */
  lemma {:induction false} RunIgnoresUnknownActions<Q>(s: Snapshot<Q>, o: Oracles, es: seq<Event<Q>>)
    ensures Run(s, o, es).state == Run(s, o, KnownActions(es)).state
    ensures Run(s, o, es).failed.Some? <==> Run(s, o, KnownActions(es)).failed.Some?
    ensures Run(s, o, es).failed.Some? ==>
              Run(s, o, es).failed.value.cause == Run(s, o, KnownActions(es)).failed.value.cause
    decreases |es|
  {
    if es != [] {
      var n := |es| - 1;
      var k := KnownActions(es[..n]);
      RunIgnoresUnknownActions(s, o, es[..n]);
      if Skipped(es[n]) {
        assert KnownActions(es) == k + [] == k;
      } else {
        assert KnownActions(es) == k + [es[n]];
        assert (k + [es[n]])[..|k + [es[n]]| - 1] == k;
      }
    }
  }

  /** The sub-event with an UpdateFlags tag read as Update. */
  function FlagsAsUpdate<Q>(e: Event<Q>): Event<Q> {
    match e
    case UserEv(_) => e
    case AddressEv(ev, h) => if ev.action.EventUpdateFlags? then AddressEv(ev.(action := EventUpdate), h) else e
    case LabelEv(ev) => if ev.action.EventUpdateFlags? then LabelEv(ev.(action := EventUpdate)) else e
    case MessageEv(ev) => if ev.action.EventUpdateFlags? then MessageEv(ev.(action := EventUpdate)) else e
  }

  function AllFlagsAsUpdate<Q>(es: seq<Event<Q>>): (r: seq<Event<Q>>)
    ensures |r| == |es|
  {
    if es == [] then [] else AllFlagsAsUpdate(es[..|es| - 1]) + [FlagsAsUpdate(es[|es| - 1])]
  }

  /** Every handler treats UpdateFlags exactly as Update, so a whole run does too. */
  lemma {:induction false} RunUpdateFlagsIsUpdate<Q>(s: Snapshot<Q>, o: Oracles, es: seq<Event<Q>>)
    ensures Run(s, o, AllFlagsAsUpdate(es)) == Run(s, o, es)
    decreases |es|
  {
    if es != [] {
      var n := |es| - 1;
      var r := AllFlagsAsUpdate(es);
      assert r[..n] == AllFlagsAsUpdate(es[..n]);
      RunUpdateFlagsIsUpdate(s, o, es[..n]);
      var mid := Run(s, o, es[..n]).state;
      assert Step(mid, o, FlagsAsUpdate(es[n])) == Step(mid, o, es[n]);
    }
  }

  // ================================================================ invariants

  /** Every handler keeps the queue states in step with the registry. */
  lemma StepPreservesValid<Q>(s: Snapshot<Q>, o: Oracles, e: Event<Q>)
    requires Valid(s)
    ensures Valid(Step(s, o, e).state)
  {
    match e
    case UserEv(_) =>
    case AddressEv(ev, h) => AddressStepPreservesValid(s, o, ev, h);
    case LabelEv(ev) =>
    case MessageEv(ev) =>
  }

  lemma AddressStepPreservesValid<Q>(s: Snapshot<Q>, o: Oracles, ev: AddressEvent, h: Q)
    requires Valid(s)
    ensures Valid(Step(s, o, AddressEv(ev, h)).state)
  {
    if ev.action.EventCreate? && ev.address.id !in s.addrs {
      var s1 := s.(addrs := s.addrs[ev.address.id := ev.address]);
      var created := UserAddressCreated(s.user.id, ev.address.id, ev.address.email);
      if s.mode == Split {
        assert Valid(OpenOwnQueue(s1, o, ev.address.id, created, h).state);
      } else {
        assert Valid(JoinPrimaryQueue(s1, o, ev.address.id, created).state);
      }
    }
  }

  lemma {:induction false} RunPreservesValid<Q>(s: Snapshot<Q>, o: Oracles, es: seq<Event<Q>>)
    requires Valid(s)
    ensures Valid(Run(s, o, es).state)
    decreases |es|
  {
    if es != [] {
      var n := |es| - 1;
      RunPreservesValid(s, o, es[..n]);
      StepPreservesValid(Run(s, o, es[..n]).state, o, es[n]);
    }
  }

  /** How many notifications a sub-event publishes when it succeeds. */
  function Published<Q>(e: Event<Q>): nat {
    if e.MessageEv? || Skipped(e) then 0 else 1
  }

  /**
    The notification stream is append-only: a handler that succeeds appends
    exactly one notification for a user, address or label change and none for
    a message change; a failed one appends at most one (an address created in
    Split mode whose label sync then failed).
   */
  lemma StepNotifications<Q>(s: Snapshot<Q>, o: Oracles, e: Event<Q>)
    ensures var r := Step(s, o, e);
            && s.notes <= r.state.notes
            && |r.state.notes| <= |s.notes| + 1
            && (r.err == None ==> |r.state.notes| == |s.notes| + Published(e))
  {
    match e
    case UserEv(_) =>
    case AddressEv(ev, h) =>
      match ev.action {
        case EventCreate => CreateAddressNotifications(s, o, ev, h);
        case EventUpdate =>
        case EventUpdateFlags =>
        case EventDelete =>
        case EventOther(_) =>
      }
    case LabelEv(ev) => LabelNotifications(s, o, ev);
    case MessageEv(ev) => MessageNotifications(s, o, ev);
  }

  lemma LabelNotifications<Q>(s: Snapshot<Q>, o: Oracles, ev: LabelEvent)
    ensures var r := Step(s, o, LabelEv(ev));
            && s.notes <= r.state.notes
            && |r.state.notes| <= |s.notes| + 1
            && (r.err == None ==> |r.state.notes| == |s.notes| + (if ev.action.EventOther? then 0 else 1))
  {
    match ev.action {
      case EventCreate =>
      case EventUpdate =>
      case EventUpdateFlags =>
      case EventDelete =>
      case EventOther(_) =>
    }
  }

  lemma MessageNotifications<Q>(s: Snapshot<Q>, o: Oracles, ev: MessageEvent)
    ensures var r := Step(s, o, MessageEv(ev));
            r.state.notes == s.notes
  {
    match ev.action {
      case EventCreate =>
      case EventUpdate =>
      case EventUpdateFlags =>
      case EventDelete =>
      case EventOther(_) =>
    }
  }

  /** An address creation publishes its one notification before the step that may fail. */
  lemma CreateAddressNotifications<Q>(s: Snapshot<Q>, o: Oracles, ev: AddressEvent, h: Q)
    ensures var r := CreateAddress(s, o, ev, h);
            && s.notes <= r.state.notes
            && |r.state.notes| <= |s.notes| + 1
            && (r.err == None ==> |r.state.notes| == |s.notes| + 1)
  {
    if ev.address.id !in s.addrs {
      var s1 := s.(addrs := s.addrs[ev.address.id := ev.address]);
      var created := UserAddressCreated(s.user.id, ev.address.id, ev.address.email);
      if s.mode == Combined {
        assert JoinPrimaryQueue(s1, o, ev.address.id, created).state.notes <= s1.notes + [created];
      } else {
        assert OpenOwnQueue(s1, o, ev.address.id, created, h).state.notes == s1.notes + [created];
      }
    }
  }

  lemma {:induction false} RunNotificationsAppendOnly<Q>(s: Snapshot<Q>, o: Oracles, es: seq<Event<Q>>)
    ensures s.notes <= Run(s, o, es).state.notes
    ensures |Run(s, o, es).state.notes| <= |s.notes| + |es|
    decreases |es|
  {
    if es != [] {
      var n := |es| - 1;
      RunNotificationsAppendOnly(s, o, es[..n]);
      StepNotifications(Run(s, o, es[..n]).state, o, es[n]);
    }
  }

  // ================================================================ queue topology

  /** The handle an address event carries is not yet a queue of the state it is applied to. */
  predicate HandleFresh<Q(==)>(s: Snapshot<Q>, e: Event<Q>) {
    e.AddressEv? ==> e.newQueue !in s.queues
  }

  /** Every address event of a list carries a handle that is new where the run applies it. */
  predicate FreshHandles<Q(==)>(s: Snapshot<Q>, o: Oracles, es: seq<Event<Q>>) {
    forall i :: 0 <= i < |es| ==> HandleFresh(Run(s, o, es[..i]).state, es[i])
  }

  lemma FreshHandlesExtend<Q>(s: Snapshot<Q>, o: Oracles, es: seq<Event<Q>>, e: Event<Q>)
    requires FreshHandles(s, o, es)
    requires HandleFresh(Run(s, o, es).state, e)
    ensures FreshHandles(s, o, es + [e])
  {
    forall i | 0 <= i < |es| + 1
      ensures HandleFresh(Run(s, o, (es + [e])[..i]).state, (es + [e])[i])
    {
      if i < |es| {
        assert (es + [e])[..i] == es[..i];
      } else {
        assert (es + [e])[..i] == es;
      }
    }
  }

  /** After a failure the run stands still, so later handles need only be new to where it stopped. */
  lemma {:induction false} FreshHandlesPastFailure<Q>(s: Snapshot<Q>, o: Oracles, a: seq<Event<Q>>, b: seq<Event<Q>>)
    requires FreshHandles(s, o, a)
    requires Run(s, o, a).failed.Some?
    requires forall k :: 0 <= k < |b| ==> HandleFresh(Run(s, o, a).state, b[k])
    ensures FreshHandles(s, o, a + b)
    decreases |b|
  {
    if b == [] {
      assert a + b == a;
    } else {
      var n := |b| - 1;
      FreshHandlesPastFailure(s, o, a, b[..n]);
      RunStopsAtFailure(s, o, a, b[..n]);
      FreshHandlesExtend(s, o, a + b[..n], b[n]);
      assert a + b[..n] + [b[n]] == a + b;
    }
  }

  lemma StepKeepsMode<Q>(s: Snapshot<Q>, o: Oracles, e: Event<Q>)
    ensures Step(s, o, e).state.mode == s.mode
  {
  }

  lemma {:induction false} RunKeepsMode<Q>(s: Snapshot<Q>, o: Oracles, es: seq<Event<Q>>)
    ensures Run(s, o, es).state.mode == s.mode
    decreases |es|
  {
    if es != [] {
      var n := |es| - 1;
      RunKeepsMode(s, o, es[..n]);
      var before := Run(s, o, es[..n]);
      if before.failed == None {
        StepKeepsMode(before.state, o, es[n]);
      }
    }
  }

  /** Every address in the table has a registry entry. */
  predicate Registered<Q(==)>(s: Snapshot<Q>) {
    s.addrs.Keys <= s.registry.Keys
  }

  /**
    A handler that succeeds keeps every known address registered. (A failed
    address creation may leave the new address without an entry.)
   */
  lemma StepKeepsAddressesRegistered<Q>(s: Snapshot<Q>, o: Oracles, e: Event<Q>)
    requires Registered(s)
    requires Step(s, o, e).err == None
    ensures Registered(Step(s, o, e).state)
  {
    if e.AddressEv? && e.addressEvent.action.EventCreate? && e.addressEvent.address.id !in s.addrs {
      var ev := e.addressEvent;
      var s1 := s.(addrs := s.addrs[ev.address.id := ev.address]);
      var created := UserAddressCreated(s.user.id, ev.address.id, ev.address.email);
      if s.mode == Combined {
        assert ev.address.id in JoinPrimaryQueue(s1, o, ev.address.id, created).state.registry;
      } else {
        assert ev.address.id in OpenOwnQueue(s1, o, ev.address.id, created, e.newQueue).state.registry;
      }
    }
  }

  /** A run that succeeds keeps every known address registered. */
  lemma {:induction false} RunKeepsAddressesRegistered<Q>(s: Snapshot<Q>, o: Oracles, es: seq<Event<Q>>)
    requires Registered(s)
    requires Run(s, o, es).failed == None
    ensures Registered(Run(s, o, es).state)
    decreases |es|
  {
    if es != [] {
      var n := |es| - 1;
      RunKeepsAddressesRegistered(s, o, es[..n]);
      StepKeepsAddressesRegistered(Run(s, o, es[..n]).state, o, es[n]);
    }
  }

  /**
    In Split mode a handler given a new handle keeps every address on a queue
    of its own.
   */
  lemma StepKeepsSplitQueuesUnshared<Q>(s: Snapshot<Q>, o: Oracles, e: Event<Q>)
    requires Valid(s) && s.mode == Split && Injective(s.registry)
    requires HandleFresh(s, e)
    ensures Injective(Step(s, o, e).state.registry)
  {
    if e.AddressEv? && e.addressEvent.action.EventCreate? && e.addressEvent.address.id !in s.addrs {
      var id := e.addressEvent.address.id;
      var h := e.newQueue;
      var reg := Step(s, o, e).state.registry;
      assert reg == s.registry[id := h];
      forall k1, k2 | k1 in reg && k2 in reg && k1 != k2
        ensures reg[k1] != reg[k2]
      {
        if k1 == id {
          assert s.registry[k2] in s.registry.Values;
        } else if k2 == id {
          assert s.registry[k1] in s.registry.Values;
        }
      }
    }
  }

  /**
    In Split mode a run whose address events carry new handles keeps every
    address on a queue of its own.
   */
  lemma {:induction false} RunKeepsSplitQueuesUnshared<Q>(s: Snapshot<Q>, o: Oracles, es: seq<Event<Q>>)
    requires Valid(s) && s.mode == Split && Injective(s.registry)
    requires FreshHandles(s, o, es)
    ensures Injective(Run(s, o, es).state.registry)
    decreases |es|
  {
    if es != [] {
      var n := |es| - 1;
      forall i | 0 <= i < n
        ensures HandleFresh(Run(s, o, es[..n][..i]).state, es[..n][i])
      {
        assert es[..n][..i] == es[..i];
      }
      RunKeepsSplitQueuesUnshared(s, o, es[..n]);
      var before := Run(s, o, es[..n]);
      if before.failed == None {
        RunPreservesValid(s, o, es[..n]);
        RunKeepsMode(s, o, es[..n]);
        StepKeepsSplitQueuesUnshared(before.state, o, es[n]);
      }
    }
  }

  /**
    A failing handler changes nothing, except an address creation that fails
    after the address was inserted: no primary address, a primary without a
    queue, or a failed label sync.
   */
  lemma FailureLeavesStateUnchanged<Q>(s: Snapshot<Q>, o: Oracles, e: Event<Q>)
    requires Step(s, o, e).err.Some?
    ensures var r := Step(s, o, e);
            r.state == s ||
            (e.AddressEv? && e.addressEvent.action.EventCreate? &&
             (r.err.value.NoPrimaryAddress? || r.err.value.NilQueue? || r.err.value.SyncFailed?))
    ensures Step(s, o, e).err.value.AlreadyExists? || Step(s, o, e).err.value.DoesNotExist? ==>
              Step(s, o, e).state == s
  {
  }

  // ================================================================ broadcasts

  /** A registry in which no two addresses share a queue (the Split-mode topology). */
  predicate Injective<Q(==)>(reg: map<string, Q>) {
    forall k1, k2 :: k1 in reg && k2 in reg && k1 != k2 ==> reg[k1] != reg[k2]
  }

  /** In the Split-mode topology a broadcast reaches each queue exactly once. */
  lemma AliasesWhenInjective<Q>(reg: map<string, Q>, k: string)
    requires Injective(reg)
    requires k in reg
    ensures Aliases(reg, reg.Keys, reg[k]) == 1
  {
    var ks := set j | j in reg.Keys && j in reg && reg[j] == reg[k];
    assert ks == {k};
  }

  /**
    In the Combined-mode topology, where every address shares one queue, a
    broadcast reaches that queue once per address.
   */
  lemma AliasesWhenShared<Q>(reg: map<string, Q>, q: Q)
    requires forall k :: k in reg ==> reg[k] == q
    ensures Aliases(reg, reg.Keys, q) == |reg|
  {
    var ks := set j | j in reg.Keys && j in reg && reg[j] == q;
    assert ks == reg.Keys;
  }

  /** Adding one more key to the counted ones adds one copy to its own queue only. */
  lemma AliasesAddKey<Q>(reg: map<string, Q>, keys: set<string>, k: string, q: Q)
    requires k in reg && k !in keys
    ensures Aliases(reg, keys + {k}, q) == Aliases(reg, keys, q) + (if reg[k] == q then 1 else 0)
  {
    var before := set j | j in keys && j in reg && reg[j] == q;
    var after := set j | j in keys + {k} && j in reg && reg[j] == q;
    if reg[k] == q {
      assert after == before + {k};
    } else {
      assert after == before;
    }
  }

  /** One more push of `u` after `n` copies is the same as `n + 1` copies. */
  lemma PushOneMoreCopy(qs: QueueState, u: Update, n: nat)
    ensures Push(PushAll(qs, Copies(u, n)), u) == PushAll(qs, Copies(u, n + 1))
  {
    if !qs.closed {
      assert qs.updates + Copies(u, n) + [u] == qs.updates + (Copies(u, n) + [u]);
    }
  }

  /** The number of copies of a broadcast each registered queue receives. */
  lemma BroadcastDelivery<Q>(s: Snapshot<Q>, u: Update, q: Q)
    requires q in s.queues && !s.queues[q].closed
    ensures var after := Broadcast(s, u).queues[q];
            && after.updates[..|s.queues[q].updates|] == s.queues[q].updates
            && |after.updates| == |s.queues[q].updates| + Aliases(s.registry, s.registry.Keys, q)
            && forall i :: |s.queues[q].updates| <= i < |after.updates| ==> after.updates[i] == u
  {
  }

  /**
    Two addresses sharing one open queue (Combined mode): a label creation
    leaves two MailboxCreated copies in that queue, one per address.
   */
  lemma SharedQueueGetsOneCopyPerAddress<Q>(s: Snapshot<Q>, ev: LabelEvent, a: string, b: string, q: Q)
    requires Valid(s)
    requires a != b && s.registry == map[a := q, b := q]
    requires ev.labelInfo.id !in s.labels
    requires q in s.queues && !s.queues[q].closed
    ensures var m := MailboxCreated(ev.id, MailboxName(ev.labelInfo));
            CreateLabel(s, ev).state.queues[q].updates == s.queues[q].updates + [m, m]
  {
    assert s.registry[a] == q;
    var m := MailboxCreated(ev.id, MailboxName(ev.labelInfo));
    AliasesWhenShared(s.registry, q);
    assert |s.registry| == 2;
    assert Copies(m, 2) == [m, m];
  }

  /**
    A label creation on a new ID stores the label, gives every registered
    queue one MailboxCreated per registry key leading to it, named as the
    label type demands, and publishes one UserLabelCreated.
   */
  lemma LabelCreated<Q>(s: Snapshot<Q>, ev: LabelEvent)
    requires ev.labelInfo.id !in s.labels
    ensures var r := CreateLabel(s, ev);
            var l := ev.labelInfo;
            && r.err == None
            && r.state.labels == s.labels[l.id := l]
            && r.state.addrs == s.addrs && r.state.registry == s.registry
            && r.state.queues.Keys == s.queues.Keys
            && (forall q :: q in s.queues ==>
                  r.state.queues[q] == PushAll(s.queues[q], Copies(MailboxCreated(ev.id, MailboxName(l)),
                                                                   Aliases(s.registry, s.registry.Keys, q))))
            && r.state.notes == s.notes + [UserLabelCreated(s.user.id, l.id, l.name)]
  {
  }

  /**
    A label update on a known ID replaces the label, gives every registered
    queue one MailboxUpdated per registry key leading to it, named as the new
    label's type demands, and publishes one UserLabelUpdated.
   */
  lemma LabelUpdated<Q>(s: Snapshot<Q>, ev: LabelEvent)
    requires ev.labelInfo.id in s.labels
    ensures var r := UpdateLabel(s, ev);
            var l := ev.labelInfo;
            && r.err == None
            && r.state.labels == s.labels[l.id := l]
            && r.state.addrs == s.addrs && r.state.registry == s.registry
            && r.state.queues == BroadcastQueues(s.queues, s.registry, MailboxUpdated(ev.id, MailboxName(l)))
            && r.state.notes == s.notes + [UserLabelUpdated(s.user.id, l.id, l.name)]
  {
  }

  /** Creating a label whose ID is taken, or updating or deleting an absent one, changes nothing. */
  lemma LabelErrorsChangeNothing<Q>(s: Snapshot<Q>, ev: LabelEvent)
    ensures ev.labelInfo.id in s.labels ==> CreateLabel(s, ev) == StepResult(s, Some(AlreadyExists(ev.id)))
    ensures ev.labelInfo.id !in s.labels ==> UpdateLabel(s, ev) == StepResult(s, Some(DoesNotExist(ev.id)))
    ensures ev.id !in s.labels ==> DeleteLabel(s, ev) == StepResult(s, Some(DoesNotExist(ev.id)))
  {
  }

  /**
    A label deletion removes the label, broadcasts MailboxDeleted per key and
    names the label in its notification by the name it had before removal.
   */
  lemma LabelDeleted<Q>(s: Snapshot<Q>, ev: LabelEvent)
    requires ev.id in s.labels
    ensures var r := DeleteLabel(s, ev);
            && r.err == None
            && ev.id !in r.state.labels && r.state.labels == s.labels - {ev.id}
            && r.state.queues == BroadcastQueues(s.queues, s.registry, MailboxDeleted(ev.id))
            && r.state.notes == s.notes + [UserLabelDeleted(s.user.id, ev.id, s.labels[ev.id].name)]
  {
  }

  // ================================================================ addresses

  /**
    A Split-mode creation binds the address to the new queue, which no other
    address reaches and which holds exactly the pushed label snapshot; every
    queue that already existed keeps its state.
   */
  lemma SplitCreateGetsOwnQueue<Q>(s: Snapshot<Q>, o: Oracles, ev: AddressEvent, q: Q, us: seq<Update>)
    requires Valid(s) && s.mode == Split
    requires ev.address.id !in s.addrs
    requires q !in s.queues
    requires o.labelSync(ev.address.id) == Some(us)
    ensures var r := CreateAddress(s, o, ev, q);
            var id := ev.address.id;
            && r.err == None
            && r.state.addrs == s.addrs[id := ev.address]
            && r.state.registry == s.registry[id := q]
            && (forall k :: k in r.state.registry && k != id ==> r.state.registry[k] != q)
            && r.state.queues[q] == QueueState(us, false)
            && (forall x :: x in s.queues && x in r.state.queues ==> r.state.queues[x] == s.queues[x])
            && r.state.notes == s.notes + [UserAddressCreated(s.user.id, id, ev.address.email)]
  {
    var id := ev.address.id;
    var r := CreateAddress(s, o, ev, q);
    forall k | k in r.state.registry && k != id
      ensures r.state.registry[k] != q
    {
      assert s.registry[k] in s.registry.Values;
    }
  }

  /**
    A Combined-mode creation makes the new address's entry the very queue of
    the primary address; no queue's state changes.
   */
  lemma CombinedCreateSharesPrimaryQueue<Q>(s: Snapshot<Q>, o: Oracles, ev: AddressEvent, p: string)
    requires Valid(s) && s.mode == Combined
    requires ev.address.id !in s.addrs
    requires o.primary(s.addrs[ev.address.id := ev.address]) == Some(p)
    requires p in s.registry
    ensures var r := CreateAddress(s, o, ev, s.registry[p]);
            && r.err == None
            && r.state.addrs == s.addrs[ev.address.id := ev.address]
            && r.state.registry == s.registry[ev.address.id := s.registry[p]]
            && r.state.registry[ev.address.id] == r.state.registry[p]
            && r.state.queues == s.queues
            && r.state.notes == s.notes + [UserAddressCreated(s.user.id, ev.address.id, ev.address.email)]
  {
    assert s.registry[p] in s.registry.Values;
  }

  /** Creating an address whose ID exists is refused and changes nothing at all. */
  lemma DuplicateAddressChangesNothing<Q>(s: Snapshot<Q>, o: Oracles, ev: AddressEvent, q: Q)
    requires ev.address.id in s.addrs
    ensures CreateAddress(s, o, ev, q) == StepResult(s, Some(AlreadyExists(ev.id)))
  {
  }

  /**
    Updating an absent address is refused and changes nothing; otherwise the
    entry is replaced and one UserAddressUpdated is published.
   */
  lemma AddressUpdated<Q>(s: Snapshot<Q>, ev: AddressEvent)
    ensures var r := UpdateAddress(s, ev);
            && (ev.address.id !in s.addrs ==> r == StepResult(s, Some(DoesNotExist(ev.address.id))))
            && (ev.address.id in s.addrs ==>
                  && r.err == None
                  && r.state == s.(addrs := s.addrs[ev.address.id := ev.address],
                                   notes := s.notes + [UserAddressUpdated(s.user.id, ev.address.id, ev.address.email)]))
  {
  }

  /**
    A Split-mode deletion removes the address and its registry entry, and the
    queue it had ends closed and empty while every other queue keeps its
    state; the notification carries the email read before removal.
   */
  lemma SplitDeleteClosesQueue<Q>(s: Snapshot<Q>, ev: AddressEvent)
    requires s.mode == Split
    requires ev.id in s.addrs && ev.id in s.registry
    ensures var r := DeleteAddress(s, ev);
            var q := s.registry[ev.id];
            && r.err == None
            && r.state.addrs == s.addrs - {ev.id}
            && r.state.registry == s.registry - {ev.id}
            && r.state.queues == s.queues[q := QueueState([], true)]
            && r.state.queues[q] == QueueState([], true)
            && r.state.notes == s.notes + [UserAddressDeleted(s.user.id, ev.id, s.addrs[ev.id].email)]
  {
  }

  /**
    A Combined-mode deletion of a known address succeeds whether or not the
    address has a registry entry, and leaves the registry and every queue as
    they were: an entry it had survives, so the registry's keys can outgrow
    the address table.
   */
  lemma CombinedDeleteKeepsRegistryEntry<Q>(s: Snapshot<Q>, ev: AddressEvent)
    requires s.mode == Combined
    requires ev.id in s.addrs
    ensures var r := DeleteAddress(s, ev);
            && r.err == None
            && r.state.addrs == s.addrs - {ev.id}
            && r.state.registry == s.registry && r.state.queues == s.queues
            && r.state.notes == s.notes + [UserAddressDeleted(s.user.id, ev.id, s.addrs[ev.id].email)]
  {
  }

  /** Deleting an absent address is refused and changes nothing. */
  lemma DeleteAbsentAddressChangesNothing<Q>(s: Snapshot<Q>, ev: AddressEvent)
    requires ev.id !in s.addrs
    ensures DeleteAddress(s, ev) == StepResult(s, Some(DoesNotExist(ev.id)))
  {
  }

  // ================================================================ messages

  /**
    A message creation whose fetch fails returns FetchFailed and changes
    nothing; one whose keyring or build fails changes nothing either; a
    successful one appends one MessagesCreated to the queue of the fetched
    message's address and to no other queue, and touches no table.
   */
  lemma MessageCreatedRouting<Q>(s: Snapshot<Q>, o: Oracles, ev: MessageEvent)
    requires Valid(s)
    ensures var r := CreateMessage(s, o, ev);
            && (o.fetch(ev.message.id).None? ==> r == StepResult(s, Some(FetchFailed(ev.message.id))))
            && (r.err.Some? ==> r.state == s)
            && (r.err == None ==>
                  var full := o.fetch(ev.message.id).value;
                  var q := s.registry[full.addressID];
                  && full.addressID in s.registry
                  && o.build(full).Some?
                  && r.state == s.(queues := s.queues[q := Push(s.queues[q], MessagesCreated(o.build(full).value))]))
  {
  }

  /**
    A message update routes one MessageMailboxesUpdated, carrying only the
    wanted label IDs and the seen and starred flags, to the queue of the
    message's address, and touches nothing else.
   */
  lemma MessageUpdatedRouting<Q>(s: Snapshot<Q>, o: Oracles, ev: MessageEvent)
    requires Valid(s)
    requires ev.message.addressID in s.registry
    ensures var r := UpdateMessage(s, o, ev);
            var q := s.registry[ev.message.addressID];
            var u := MailboxesUpdate(o, ev);
            && r.err == None
            && r.state == s.(queues := s.queues[q := Push(s.queues[q], u)])
            && u.messageID == ev.id && u.seen == ev.message.seen && u.starred == ev.message.starred
            && (forall id :: id in u.mailboxIDs <==> id in ev.message.labelIDs && o.wantLabel(id))
  {
  }

  /** A message deletion broadcasts MessagesDeleted per registry key and touches no table. */
  lemma MessageDeletedBroadcast<Q>(s: Snapshot<Q>, ev: MessageEvent)
    ensures var r := DeleteMessage(s, ev);
            && r.err == None
            && r.state.addrs == s.addrs && r.state.labels == s.labels
            && r.state.registry == s.registry && r.state.notes == s.notes
            && r.state.queues == BroadcastQueues(s.queues, s.registry, MessagesDeleted(ev.id))
  {
  }

  /** No message sub-event changes the user, the address table, the label table or the registry. */
  lemma MessagesTouchOnlyQueues<Q>(s: Snapshot<Q>, o: Oracles, ev: MessageEvent)
    ensures var r := Step(s, o, MessageEv(ev)).state;
            r.user == s.user && r.addrs == s.addrs && r.labels == s.labels &&
            r.registry == s.registry && r.notes == s.notes && r.mode == s.mode
  {
  }
}
