/**
  The reconciliation of one remote event batch into session state, as pure
  functions over a value snapshot of that state. The snapshot is generic in
  the type `Q` of queue handles: the registry maps an address ID to a handle,
  and several IDs may map to the same handle (a shared queue). The session
  class of module Events is proved to act exactly as these functions say.
 */
module Reconcile {
  import opened Types
  import opened Mailbox

  /** The observable state of one update queue: what it holds and whether it was closed. */
  datatype QueueState = QueueState(updates: seq<Update>, closed: bool)

  /**
    Everything a batch can change: the user profile, the address and label
    tables, the queue registry with the state of every queue it reaches, and
    the notification stream. `mode` is configuration, read but never written.
   */
  datatype Snapshot<Q(==)> = Snapshot(
    user: User,
    mode: AddressMode,
    addrs: map<string, Address>,
    labels: map<string, Label>,
    registry: map<string, Q>,
    queues: map<Q, QueueState>,
    notes: seq<Notification>)

  /**
    Every queue the registry reaches has a recorded state. `queues` also keeps
    the queues no entry reaches any more, such as the one a Split-mode
    deletion closed.
   */
  predicate Valid<Q(==)>(s: Snapshot<Q>) {
    s.registry.Values <= s.queues.Keys
  }

  /** The result of one handler: the new state, and the error it returned, if any. */
  datatype StepResult<Q(==)> = StepResult(state: Snapshot<Q>, err: Option<Error>)

  function StateOf<Q(==)>(s: Snapshot<Q>, q: Q): QueueState {
    if q in s.queues then s.queues[q] else QueueState([], false)
  }

  function Lookup(m: map<string, Address>, id: string): Option<Address> {
    if id in m then Some(m[id]) else None
  }

  // ---------------------------------------------------------------- queues

  /** Enqueueing on an open queue appends; a closed queue drops what it is given. */
  function Push(qs: QueueState, u: Update): QueueState {
    if qs.closed then qs else qs.(updates := qs.updates + [u])
  }

  function PushAll(qs: QueueState, us: seq<Update>): QueueState {
    if qs.closed then qs else qs.(updates := qs.updates + us)
  }

  /** `n` copies of the same update. */
  function Copies(u: Update, n: nat): (r: seq<Update>)
    ensures |r| == n
    ensures forall i :: 0 <= i < |r| ==> r[i] == u
  {
    if n == 0 then [] else Copies(u, n - 1) + [u]
  }

  /** How many of the registry keys in `keys` lead to queue `q`. */
  function Aliases<Q(==)>(reg: map<string, Q>, keys: set<string>, q: Q): nat {
    |set k | k in keys && k in reg && reg[k] == q|
  }

  /**
    A broadcast walks the registry's entries and enqueues once per entry, so a
    queue receives one copy per key that leads to it.
   */
  function BroadcastQueues<Q(==)>(queues: map<Q, QueueState>, reg: map<string, Q>, u: Update): map<Q, QueueState> {
    map q | q in queues :: PushAll(queues[q], Copies(u, Aliases(reg, reg.Keys, q)))
  }

  function Broadcast<Q(==)>(s: Snapshot<Q>, u: Update): Snapshot<Q> {
    s.(queues := BroadcastQueues(s.queues, s.registry, u))
  }

  /** Enqueue on the queue registered for one address; an absent entry is a nil queue. */
  function Route<Q(==)>(s: Snapshot<Q>, addressID: string, u: Update): StepResult<Q> {
    if addressID !in s.registry then StepResult(s, Some(NilQueue(addressID)))
    else
      var q := s.registry[addressID];
      StepResult(s.(queues := s.queues[q := Push(StateOf(s, q), u)]), None)
  }

  /** Point registry entry `id` at queue `q`, whose state becomes `qs`. */
  function Bind<Q(==)>(s: Snapshot<Q>, id: string, q: Q, qs: QueueState): Snapshot<Q> {
    s.(registry := s.registry[id := q], queues := s.queues[q := qs])
  }

  /** Close and empty the queue of entry `id`, then remove the entry. */
  function Unbind<Q(==)>(s: Snapshot<Q>, id: string): Snapshot<Q>
    requires id in s.registry
  {
    var q := s.registry[id];
    s.(registry := s.registry - {id}, queues := s.queues[q := QueueState([], true)])
  }

  function Notify<Q(==)>(s: Snapshot<Q>, n: Notification): Snapshot<Q> {
    s.(notes := s.notes + [n])
  }

  // ---------------------------------------------------------------- user

  /** The profile is replaced and one UserChanged is published. */
  function ApplyUser<Q(==)>(s: Snapshot<Q>, u: User): Snapshot<Q> {
    Notify(s.(user := u), UserChanged(u.id))
  }

  // ---------------------------------------------------------------- addresses

  /**
    Address creation. A duplicate ID is refused before anything changes. The
    address is inserted first; in Combined mode the new entry then shares the
    primary address's queue, in Split mode it gets the queue `newQueue`. The
    notification follows, and in Split mode the label snapshot is pushed into
    the new queue last. The later failures keep what was already done.
   */
  function CreateAddress<Q(==)>(s: Snapshot<Q>, o: Oracles, ev: AddressEvent, newQueue: Q): StepResult<Q> {
    var id := ev.address.id;
    if id in s.addrs then StepResult(s, Some(AlreadyExists(ev.id)))
    else
      var s1 := s.(addrs := s.addrs[id := ev.address]);
      var created := UserAddressCreated(s.user.id, id, ev.address.email);
      match s.mode
      case Combined => JoinPrimaryQueue(s1, o, id, created)
      case Split => OpenOwnQueue(s1, o, id, created, newQueue)
  }

  /**
    Combined mode: the new address (already in the table) shares the queue
    of the primary address, which it finds in its current state.
   */
  function JoinPrimaryQueue<Q(==)>(s: Snapshot<Q>, o: Oracles, id: string, created: Notification): StepResult<Q> {
    match o.primary(s.addrs)
    case None => StepResult(s, Some(NoPrimaryAddress))
    case Some(p) =>
      if p !in s.registry then StepResult(s, Some(NilQueue(p)))
      else
        var shared := s.registry[p];
        StepResult(Notify(Bind(s, id, shared, StateOf(s, shared)), created), None)
  }

  /**
    Split mode: the new address (already in the table) gets a new empty
    queue, is announced, and then receives the label snapshot.
   */
  function OpenOwnQueue<Q(==)>(s: Snapshot<Q>, o: Oracles, id: string, created: Notification, newQueue: Q): StepResult<Q> {
    var s2 := Notify(Bind(s, id, newQueue, QueueState([], false)), created);
    match o.labelSync(id)
    case None => StepResult(s2, Some(SyncFailed(id)))
    case Some(us) => StepResult(s2.(queues := s2.queues[newQueue := QueueState(us, false)]), None)
  }

  /** Address update: the stored address is replaced; the registry is not touched. */
  function UpdateAddress<Q(==)>(s: Snapshot<Q>, ev: AddressEvent): StepResult<Q> {
    var id := ev.address.id;
    if id !in s.addrs then StepResult(s, Some(DoesNotExist(id)))
    else
      StepResult(Notify(s.(addrs := s.addrs[id := ev.address]),
                        UserAddressUpdated(s.user.id, id, ev.address.email)), None)
  }

  /**
    Address deletion. The email is read before the entry is removed. Only in
    Split mode is the address's queue closed and its registry entry removed.
   */
  function DeleteAddress<Q(==)>(s: Snapshot<Q>, ev: AddressEvent): StepResult<Q> {
    var id := ev.id;
    if id !in s.addrs then StepResult(s, Some(DoesNotExist(id)))
    else if s.mode == Split && id !in s.registry then StepResult(s, Some(NilQueue(id)))
    else
      var email := s.addrs[id].email;
      var s1 := if s.mode == Split then Unbind(s, id) else s;
      StepResult(Notify(s1.(addrs := s1.addrs - {id}), UserAddressDeleted(s.user.id, id, email)), None)
  }

  // ---------------------------------------------------------------- labels

  function CreateLabel<Q(==)>(s: Snapshot<Q>, ev: LabelEvent): StepResult<Q> {
    var l := ev.labelInfo;
    if l.id in s.labels then StepResult(s, Some(AlreadyExists(ev.id)))
    else
      var s1 := Broadcast(s.(labels := s.labels[l.id := l]), MailboxCreated(ev.id, MailboxName(l)));
      StepResult(Notify(s1, UserLabelCreated(s.user.id, l.id, l.name)), None)
  }

  function UpdateLabel<Q(==)>(s: Snapshot<Q>, ev: LabelEvent): StepResult<Q> {
    var l := ev.labelInfo;
    if l.id !in s.labels then StepResult(s, Some(DoesNotExist(ev.id)))
    else
      var s1 := Broadcast(s.(labels := s.labels[l.id := l]), MailboxUpdated(ev.id, MailboxName(l)));
      StepResult(Notify(s1, UserLabelUpdated(s.user.id, l.id, l.name)), None)
  }

  /** Label deletion; the notification carries the name read before removal. */
  function DeleteLabel<Q(==)>(s: Snapshot<Q>, ev: LabelEvent): StepResult<Q> {
    if ev.id !in s.labels then StepResult(s, Some(DoesNotExist(ev.id)))
    else
      var name := s.labels[ev.id].name;
      var s1 := Broadcast(s.(labels := s.labels - {ev.id}), MailboxDeleted(ev.id));
      StepResult(Notify(s1, UserLabelDeleted(s.user.id, ev.id, name)), None)
  }

  // ---------------------------------------------------------------- messages

  /**
    Message creation: fetch, unlock the keyring of the event's address, build,
    then enqueue on the queue of the address the fetched message names.
   */
  function CreateMessage<Q(==)>(s: Snapshot<Q>, o: Oracles, ev: MessageEvent): StepResult<Q> {
    match o.fetch(ev.message.id)
    case None => StepResult(s, Some(FetchFailed(ev.message.id)))
    case Some(full) =>
      if !o.keyring(s.user, Lookup(s.addrs, ev.message.addressID)) then
        StepResult(s, Some(KeyringFailed(ev.message.addressID)))
      else
        match o.build(full)
        case None => StepResult(s, Some(BuildFailed(full.id)))
        case Some(built) => Route(s, full.addressID, MessagesCreated(built))
  }

  /** The new mailbox set and flags of a message, routed to its address's queue. */
  function MailboxesUpdate(o: Oracles, ev: MessageEvent): Update {
    MessageMailboxesUpdated(ev.id, FilterLabels(ev.message.labelIDs, o.wantLabel),
                            ev.message.seen, ev.message.starred)
  }

  function UpdateMessage<Q(==)>(s: Snapshot<Q>, o: Oracles, ev: MessageEvent): StepResult<Q> {
    Route(s, ev.message.addressID, MailboxesUpdate(o, ev))
  }

  /** Message deletion is broadcast to every registry entry. */
  function DeleteMessage<Q(==)>(s: Snapshot<Q>, ev: MessageEvent): StepResult<Q> {
    StepResult(Broadcast(s, MessagesDeleted(ev.id)), None)
  }

  // ---------------------------------------------------------------- dispatch

  /**
    One sub-event of a batch. An address event carries the handle the session
    allocates if the event creates a queue (a Split-mode creation).
   */
  datatype Event<Q> =
    | UserEv(user: User)
    | AddressEv(addressEvent: AddressEvent, newQueue: Q)
    | LabelEv(labelEvent: LabelEvent)
    | MessageEv(messageEvent: MessageEvent)

  /** One sub-event; UpdateFlags is handled as Update and unknown actions are skipped. */
  function Step<Q(==)>(s: Snapshot<Q>, o: Oracles, e: Event<Q>): StepResult<Q> {
    match e
    case UserEv(u) => StepResult(ApplyUser(s, u), None)
    case AddressEv(ev, newQueue) =>
      (match ev.action
       case EventCreate => CreateAddress(s, o, ev, newQueue)
       case EventUpdate => UpdateAddress(s, ev)
       case EventUpdateFlags => UpdateAddress(s, ev)
       case EventDelete => DeleteAddress(s, ev)
       case EventOther(_) => StepResult(s, None))
    case LabelEv(ev) =>
      (match ev.action
       case EventCreate => CreateLabel(s, ev)
       case EventUpdate => UpdateLabel(s, ev)
       case EventUpdateFlags => UpdateLabel(s, ev)
       case EventDelete => DeleteLabel(s, ev)
       case EventOther(_) => StepResult(s, None))
    case MessageEv(ev) =>
      (match ev.action
       case EventCreate => CreateMessage(s, o, ev)
       case EventUpdate => UpdateMessage(s, o, ev)
       case EventUpdateFlags => UpdateMessage(s, o, ev)
       case EventDelete => DeleteMessage(s, ev)
       case EventOther(_) => StepResult(s, None))
  }

  /** Which sub-event failed (its position in the list) and why. */
  datatype Failed = Failed(index: nat, cause: Error)

  datatype RunResult<Q(==)> = RunResult(state: Snapshot<Q>, failed: Option<Failed>)

  /**
    A list of sub-events applied in order; the first error stops the list and
    everything done before it stays done.
   */
  function Run<Q(==)>(s: Snapshot<Q>, o: Oracles, es: seq<Event<Q>>): RunResult<Q>
    decreases |es|
  {
    if es == [] then RunResult(s, None)
    else
      var before := Run(s, o, es[..|es| - 1]);
      if before.failed.Some? then before
      else
        var last := Step(before.state, o, es[|es| - 1]);
        RunResult(last.state, if last.err.Some? then Some(Failed(|es| - 1, last.err.value)) else None)
  }

  function AddressEvents<Q>(evs: seq<AddressEvent>, handles: seq<Q>): (es: seq<Event<Q>>)
    requires |handles| == |evs|
    ensures |es| == |evs|
  {
    seq(|evs|, i requires 0 <= i < |evs| => AddressEv(evs[i], handles[i]))
  }

  function LabelEvents<Q>(evs: seq<LabelEvent>): (es: seq<Event<Q>>)
    ensures |es| == |evs|
  {
    seq(|evs|, i requires 0 <= i < |evs| => LabelEv(evs[i]))
  }

  function MessageEvents<Q>(evs: seq<MessageEvent>): (es: seq<Event<Q>>)
    ensures |es| == |evs|
  {
    seq(|evs|, i requires 0 <= i < |evs| => MessageEv(evs[i]))
  }

  datatype Category = UserCategory | AddressCategory | LabelCategory | MessageCategory

  /** A failed batch names the category, the position within it and the cause. */
  datatype BatchFailure = BatchFailure(category: Category, index: nat, cause: Error)

  datatype BatchResult<Q(==)> = BatchResult(state: Snapshot<Q>, failed: Option<BatchFailure>)

  function InCategory(c: Category, f: Option<Failed>): Option<BatchFailure> {
    if f.Some? then Some(BatchFailure(c, f.value.index, f.value.cause)) else None
  }

  /**
    The batch handler: the user change, then the address, label and message
    lists, each category only when every earlier one succeeded.
   */
  function ApplyBatch<Q(==)>(s: Snapshot<Q>, o: Oracles, b: EventBatch, handles: seq<Q>): BatchResult<Q>
    requires |handles| == |b.addresses|
  {
    var s1 := if b.user.Some? then ApplyUser(s, b.user.value) else s;
    var ra := Run(s1, o, AddressEvents(b.addresses, handles));
    if ra.failed.Some? then BatchResult(ra.state, InCategory(AddressCategory, ra.failed))
    else
      var rl := Run(ra.state, o, LabelEvents(b.labels));
      if rl.failed.Some? then BatchResult(rl.state, InCategory(LabelCategory, rl.failed))
      else
        var rm := Run(rl.state, o, MessageEvents(b.messages));
        BatchResult(rm.state, InCategory(MessageCategory, rm.failed))
  }

  /** The whole batch as one list of sub-events, categories in the order they are handled. */
  function Flatten<Q>(b: EventBatch, handles: seq<Q>): seq<Event<Q>>
    requires |handles| == |b.addresses|
  {
    (if b.user.Some? then [UserEv(b.user.value)] else [])
    + AddressEvents(b.addresses, handles) + LabelEvents(b.labels) + MessageEvents(b.messages)
  }
}
