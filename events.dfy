/**
  The session object that applies remote event batches in place: its maps
  are fields that the handlers reassign, its update queues are objects that
  several registry entries may share, and every handler is proved to change
  the session exactly as the matching function of module Reconcile says.
 */
module Events {
  import opened Types
  import opened Mailbox
  import opened Reconcile
  import Properties

  /** An address's update queue: an ordered list of updates and a closed flag. */
  class Queue {
    var updates: seq<Update>
    var closed: bool

    constructor ()
      ensures updates == [] && !closed
    {
      updates := [];
      closed := false;
    }

    /** Appends `u`, unless the queue was closed, in which case `u` is dropped. */
    method Enqueue(u: Update)
      modifies this
      ensures QueueState(updates, closed) == Push(old(QueueState(updates, closed)), u)
    {
      if !closed {
        updates := updates + [u];
      }
    }

    /** Closes the queue and discards what was still queued. */
    method CloseAndDiscardQueued()
      modifies this
      ensures updates == [] && closed
    {
      updates := [];
      closed := true;
    }
  }

  /** The state of every queue in `qs`. */
  ghost function Contents(qs: set<Queue>): map<Queue?, QueueState>
    reads qs
  {
    map q: Queue? | q in qs :: QueueState(q.updates, q.closed)
  }

  /**
    Pushes the label snapshot fetched for a new address into its queue, one
    update at a time, in the snapshot's order.
   */
  method SyncLabels(q: Queue, snapshot: seq<Update>)
    modifies q
    ensures QueueState(q.updates, q.closed) == PushAll(old(QueueState(q.updates, q.closed)), snapshot)
  {
    for i := 0 to |snapshot|
      invariant QueueState(q.updates, q.closed) == PushAll(old(QueueState(q.updates, q.closed)), snapshot[..i])
    {
      assert snapshot[..i + 1] == snapshot[..i] + [snapshot[i]];
      q.Enqueue(snapshot[i]);
    }
    assert snapshot[..|snapshot|] == snapshot;
  }

  /** Queue states that each received their broadcast copies are the broadcast's result. */
  lemma BroadcastContents(now: map<Queue?, QueueState>, before: map<Queue?, QueueState>,
                          reg: map<string, Queue>, u: Update)
    requires now.Keys == before.Keys
    requires forall x :: x in now ==> now[x] == PushAll(before[x], Copies(u, Aliases<Queue?>(reg, reg.Keys, x)))
    ensures now == BroadcastQueues(before, reg, u)
  {
  }

  lemma AddressEventsSnoc(evs: seq<AddressEvent>, handles: seq<Queue?>, i: nat, h: Queue?)
    requires i < |evs| == |handles|
    ensures AddressEvents(evs[..i + 1], handles[i := h][..i + 1]) == AddressEvents(evs[..i], handles[..i]) + [AddressEv(evs[i], h)]
  {
  }

  /**
    An address list that failed at position `i`, whose later events carry
    no handle, ends where the prefix through `i` ended.
   */
  lemma AddressRunStops(s0: Snapshot<Queue?>, o: Oracles, evs: seq<AddressEvent>, handles: seq<Queue?>, i: nat)
    requires i < |evs| == |handles|
    requires forall j :: i < j < |evs| ==> handles[j] == null
    requires Run(s0, o, AddressEvents(evs[..i + 1], handles[..i + 1])).failed.Some?
    requires null !in Run(s0, o, AddressEvents(evs[..i + 1], handles[..i + 1])).state.queues
    requires Properties.FreshHandles(s0, o, AddressEvents(evs[..i + 1], handles[..i + 1]))
    ensures Run(s0, o, AddressEvents(evs, handles)) == Run(s0, o, AddressEvents(evs[..i + 1], handles[..i + 1]))
    ensures Properties.FreshHandles(s0, o, AddressEvents(evs, handles))
  {
    var done := AddressEvents(evs[..i + 1], handles[..i + 1]);
    var rest := AddressEvents(evs[i + 1..], handles[i + 1..]);
    assert AddressEvents(evs, handles) == done + rest;
    Properties.RunStopsAtFailure(s0, o, done, rest);
    Properties.FreshHandlesPastFailure(s0, o, done, rest);
  }

  /** The account state of one user session. */
  class Session {
    var apiUser: User
    /** The vault's address mode, read at every use and never written here. */
    var mode: AddressMode
    var apiAddrs: map<string, Address>
    var apiLabels: map<string, Label>
    /** The queue registry: address ID to that address's update queue. */
    var updateCh: map<string, Queue>
    /** The notification stream. */
    var eventCh: seq<Notification>
    /** Every queue the session created, including those no entry reaches any more. */
    ghost var known: set<Queue>

    ghost predicate Valid()
      reads this
    {
      updateCh.Values <= known
    }

    ghost function Abstract(): Snapshot<Queue?>
      reads this, known
    {
      Snapshot(apiUser, mode, apiAddrs, apiLabels, updateCh, Contents(known), eventCh)
    }

    constructor (user: User, addressMode: AddressMode)
      ensures Valid() && known == {}
      ensures Abstract() == Snapshot(user, addressMode, map[], map[], map[], map[], [])
    {
      apiUser := user;
      mode := addressMode;
      apiAddrs := map[];
      apiLabels := map[];
      updateCh := map[];
      eventCh := [];
      known := {};
    }

    // ------------------------------------------------------------ batch

    /**
      Applies a batch: the user change, then the address, label and message
      lists, stopping at the first failure. `handles` records the queue each
      address event allocated (null when it allocated none): each one new,
      and no two the same.
     */
    method HandleAPIEvent(b: EventBatch, o: Oracles) returns (failed: Option<BatchFailure>, ghost handles: seq<Queue?>)
      requires Valid()
      modifies this, known
      ensures Valid()
      ensures |handles| == |b.addresses|
      ensures forall i :: 0 <= i < |handles| && handles[i] != null ==> fresh(handles[i]) && handles[i] in known
      ensures forall i, j :: 0 <= i < j < |handles| && handles[i] != null ==> handles[i] != handles[j]
      ensures forall q :: q in known ==> q in old(known) || fresh(q)
      ensures BatchResult(Abstract(), failed) == ApplyBatch(old(Abstract()), o, b, handles)
    {
      if b.user.Some? {
        HandleUserEvent(b.user.value);
      }
      handles := seq(|b.addresses|, _ => null);
      if |b.addresses| > 0 {
        var f;
        f, handles := HandleAddressEvents(b.addresses, o);
        if f.Some? {
          return InCategory(AddressCategory, f), handles;
        }
      }
      if |b.labels| > 0 {
        var f := HandleLabelEvents(b.labels, o);
        if f.Some? {
          return InCategory(LabelCategory, f), handles;
        }
      }
      if |b.messages| > 0 {
        var f := HandleMessageEvents(b.messages, o);
        if f.Some? {
          return InCategory(MessageCategory, f), handles;
        }
      }
      failed := None;
    }

    method HandleUserEvent(u: User)
      requires Valid()
      modifies this
      ensures Valid() && known == old(known)
      ensures Abstract() == ApplyUser(old(Abstract()), u)
    {
      apiUser := u;
      eventCh := eventCh + [UserChanged(apiUser.id)];
    }

    // ------------------------------------------------------------ addresses

    /**
      Applies the address list. Every handle it records is a queue created
      here, new where it is applied, so the run satisfies the premise of the
      topology lemmas of module Properties.
     */
    method HandleAddressEvents(evs: seq<AddressEvent>, o: Oracles) returns (failed: Option<Failed>, ghost handles: seq<Queue?>)
      requires Valid()
      modifies this, known
      ensures Valid()
      ensures |handles| == |evs|
      ensures forall i :: 0 <= i < |handles| && handles[i] != null ==> fresh(handles[i]) && handles[i] in known
      ensures forall i, j :: 0 <= i < j < |handles| && handles[i] != null ==> handles[i] != handles[j]
      ensures forall q :: q in known ==> q in old(known) || fresh(q)
      ensures Properties.FreshHandles(old(Abstract()), o, AddressEvents(evs, handles))
      ensures RunResult(Abstract(), failed) == Run(old(Abstract()), o, AddressEvents(evs, handles))
    {
      ghost var s0 := Abstract();
      handles := seq(|evs|, _ => null);
      var i := 0;
      while i < |evs|
        invariant 0 <= i <= |evs| && |handles| == |evs|
        invariant Valid()
        invariant forall q :: q in known ==> q in old(known) || fresh(q)
        invariant forall j :: 0 <= j < i && handles[j] != null ==> fresh(handles[j]) && handles[j] in known
        invariant forall j, k :: 0 <= j < k < i && handles[j] != null ==> handles[j] != handles[k]
        invariant forall j :: i <= j < |evs| ==> handles[j] == null
        invariant Properties.FreshHandles(s0, o, AddressEvents(evs[..i], handles[..i]))
        invariant RunResult(Abstract(), None) == Run(s0, o, AddressEvents(evs[..i], handles[..i]))
      {
        ghost var prefix := AddressEvents(evs[..i], handles[..i]);
        var err;
        ghost var h;
        err, h := HandleAddressEvent(evs[i], o);
        Properties.RunSnoc(s0, o, prefix, AddressEv(evs[i], h));
        Properties.FreshHandlesExtend(s0, o, prefix, AddressEv(evs[i], h));
        AddressEventsSnoc(evs, handles, i, h);
        handles := handles[i := h];
        if err.Some? {
          failed := Some(Failed(i, err.value));
          assert null !in Contents(known);
          AddressRunStops(s0, o, evs, handles, i);
          return;
        }
        i := i + 1;
      }
      assert evs[..i] == evs && handles[..i] == handles;
      failed := None;
    }

    /**
      One address event, dispatched on its action; UpdateFlags is handled as
      Update and an unknown action is skipped. `newQueue` is the queue it
      created, if any, which no earlier state knew.
     */
    method HandleAddressEvent(ev: AddressEvent, o: Oracles) returns (err: Option<Error>, ghost newQueue: Queue?)
      requires Valid()
      modifies this, known
      ensures Valid()
      ensures newQueue == null ==> known == old(known)
      ensures newQueue != null ==> fresh(newQueue) && known == old(known) + {newQueue}
      ensures Properties.HandleFresh(old(Abstract()), AddressEv(ev, newQueue))
      ensures StepResult(Abstract(), err) == Step(old(Abstract()), o, AddressEv(ev, newQueue))
    {
      err, newQueue := None, null;
      match ev.action {
        case EventCreate =>
          err, newQueue := HandleCreateAddressEvent(ev, o);
        case EventUpdate =>
          err := HandleUpdateAddressEvent(ev);
        case EventUpdateFlags =>
          err := HandleUpdateAddressEvent(ev);
        case EventDelete =>
          err := HandleDeleteAddressEvent(ev);
        case EventOther(_) =>
      }
    }

    /**
      Creates an address: refused if its ID exists; otherwise inserted, then
      bound to the primary address's queue (Combined) or to a new queue
      (Split).
     */
    method HandleCreateAddressEvent(ev: AddressEvent, o: Oracles) returns (err: Option<Error>, ghost newQueue: Queue?)
      requires Valid()
      modifies this
      ensures Valid()
      ensures newQueue == null ==> known == old(known)
      ensures newQueue != null ==> fresh(newQueue) && known == old(known) + {newQueue}
      ensures StepResult(Abstract(), err) == CreateAddress(old(Abstract()), o, ev, newQueue)
    {
      var id := ev.address.id;
      if id in apiAddrs {
        return Some(AlreadyExists(ev.id)), null;
      }
      apiAddrs := apiAddrs[id := ev.address];
      var created := UserAddressCreated(apiUser.id, id, ev.address.email);
      if mode == Combined {
        err := JoinPrimaryQueue(id, created, o);
        newQueue := null;
      } else {
        err, newQueue := OpenOwnQueue(id, created, o);
      }
    }

    method JoinPrimaryQueue(id: string, created: Notification, o: Oracles) returns (err: Option<Error>)
      requires Valid()
      modifies this
      ensures Valid() && known == old(known)
      ensures StepResult(Abstract(), err) == Reconcile.JoinPrimaryQueue(old(Abstract()), o, id, created)
    {
      var primary := o.primary(apiAddrs);
      if primary.None? {
        return Some(NoPrimaryAddress);
      }
      var p := primary.value;
      if p !in updateCh {
        return Some(NilQueue(p));
      }
      var shared := updateCh[p];
      assert shared in known;
      updateCh := updateCh[id := shared];
      eventCh := eventCh + [created];
      err := None;
    }

    method OpenOwnQueue(id: string, created: Notification, o: Oracles) returns (err: Option<Error>, ghost newQueue: Queue)
      requires Valid()
      modifies this
      ensures Valid()
      ensures fresh(newQueue) && known == old(known) + {newQueue}
      ensures StepResult(Abstract(), err) == Reconcile.OpenOwnQueue(old(Abstract()), o, id, created, newQueue)
    {
      ghost var s := Abstract();
      var q := new Queue();
      newQueue := q;
      known := known + {q};
      updateCh := updateCh[id := q];
      eventCh := eventCh + [created];
      ghost var s2 := Notify(Bind(s, id, q, QueueState([], false)), created);
      assert Contents(known) == s.queues[q := QueueState([], false)];
      assert Abstract() == s2;
      var snapshot := o.labelSync(id);
      if snapshot.None? {
        return Some(SyncFailed(id)), newQueue;
      }
      SyncRegistered(q, snapshot.value);
      assert [] + snapshot.value == snapshot.value;
      err := None;
    }

    /** Label sync into one of the session's queues changes the queues' contents only there. */
    method SyncRegistered(q: Queue, snapshot: seq<Update>)
      requires q in known
      modifies q
      ensures Contents(known) == old(Contents(known))[q := PushAll(old(QueueState(q.updates, q.closed)), snapshot)]
    {
      SyncLabels(q, snapshot);
    }

    method HandleUpdateAddressEvent(ev: AddressEvent) returns (err: Option<Error>)
      requires Valid()
      modifies this
      ensures Valid() && known == old(known)
      ensures StepResult(Abstract(), err) == UpdateAddress(old(Abstract()), ev)
    {
      var id := ev.address.id;
      if id !in apiAddrs {
        return Some(DoesNotExist(id));
      }
      apiAddrs := apiAddrs[id := ev.address];
      eventCh := eventCh + [UserAddressUpdated(apiUser.id, id, ev.address.email)];
      err := None;
    }

    /**
      Deletes an address: refused if absent; in Split mode its queue is
      closed and emptied and its registry entry removed; the notification
      carries the email read before the removal.
     */
    method HandleDeleteAddressEvent(ev: AddressEvent) returns (err: Option<Error>)
      requires Valid()
      modifies this, updateCh.Values
      ensures Valid() && known == old(known)
      ensures old(mode) == Split && err == None ==>
                ev.id in old(updateCh) && old(updateCh)[ev.id].updates == [] && old(updateCh)[ev.id].closed
      ensures StepResult(Abstract(), err) == DeleteAddress(old(Abstract()), ev)
    {
      ghost var s := Abstract();
      var id := ev.id;
      if id !in apiAddrs {
        return Some(DoesNotExist(id));
      }
      var addr := apiAddrs[id];
      if mode == Split {
        if id !in updateCh {
          return Some(NilQueue(id));
        }
        var q := updateCh[id];
        q.CloseAndDiscardQueued();
        updateCh := updateCh - {id};
        assert Contents(known) == s.queues[q := QueueState([], true)];
      }
      apiAddrs := apiAddrs - {id};
      eventCh := eventCh + [UserAddressDeleted(apiUser.id, id, addr.email)];
      err := None;
    }
  
    // ------------------------------------------------------------ labels

    method HandleLabelEvents(evs: seq<LabelEvent>, o: Oracles) returns (failed: Option<Failed>)
      requires Valid()
      modifies this, known
      ensures updateCh == old(updateCh) && known == old(known)
      ensures RunResult(Abstract(), failed) == Run(old(Abstract()), o, LabelEvents(evs))
    {
      ghost var s0 := Abstract();
      var i := 0;
      while i < |evs|
        invariant 0 <= i <= |evs|
        invariant updateCh == old(updateCh) && known == old(known)
        invariant RunResult(Abstract(), None) == Run(s0, o, LabelEvents(evs[..i]))
      {
        ghost var prefix := LabelEvents<Queue?>(evs[..i]);
        var err := HandleLabelEvent(evs[i], o);
        Properties.RunSnoc(s0, o, prefix, LabelEv(evs[i]));
        assert LabelEvents<Queue?>(evs[..i + 1]) == prefix + [LabelEv(evs[i])];
        if err.Some? {
          failed := Some(Failed(i, err.value));
          assert LabelEvents<Queue?>(evs) == LabelEvents(evs[..i + 1]) + LabelEvents(evs[i + 1..]);
          Properties.RunStopsAtFailure(s0, o, LabelEvents(evs[..i + 1]), LabelEvents(evs[i + 1..]));
          return;
        }
        i := i + 1;
      }
      assert evs[..i] == evs;
      failed := None;
    }

    /**
      One label event, dispatched on its action; UpdateFlags is handled as
      Update. Label handlers consult no oracle, so `o` is any.
     */
    method HandleLabelEvent(ev: LabelEvent, ghost o: Oracles) returns (err: Option<Error>)
      requires Valid()
      modifies this, known
      ensures updateCh == old(updateCh) && known == old(known)
      ensures StepResult(Abstract(), err) == Step(old(Abstract()), o, LabelEv(ev))
    {
      err := None;
      match ev.action {
        case EventCreate =>
          err := HandleCreateLabelEvent(ev);
        case EventUpdate =>
          err := HandleUpdateLabelEvent(ev);
        case EventUpdateFlags =>
          err := HandleUpdateLabelEvent(ev);
        case EventDelete =>
          err := HandleDeleteLabelEvent(ev);
        case EventOther(_) =>
      }
    }

    /**
      Enqueues `u` once per registry entry, in whatever order the entries are
      visited; a queue shared by several entries receives several copies, and
      a queue no entry reaches receives none.
     */
    method Broadcast(u: Update)
      requires Valid()
      modifies known
      ensures Contents(known) == BroadcastQueues(old(Contents(known)), updateCh, u)
    {
      ghost var before := Contents(known);
      EnqueueEveryKey(before, u);
      ghost var now := Contents(known);
      assert now.Keys == before.Keys;
      BroadcastContents(now, before, updateCh, u);
    }

    /** The broadcast loop: every queue ends with one copy of `u` per registry key leading to it. */
    method EnqueueEveryKey(ghost before: map<Queue?, QueueState>, u: Update)
      requires Valid()
      requires forall x :: x in known ==> x in before && before[x] == QueueState(x.updates, x.closed)
      modifies known
      ensures forall x :: x in known ==>
                QueueState(x.updates, x.closed) == PushAll(before[x], Copies(u, Aliases<Queue?>(updateCh, updateCh.Keys, x)))
    {
      var todo := updateCh.Keys;
      ghost var done: set<string> := {};
      while todo != {}
        invariant updateCh == old(updateCh) && known == old(known)
        invariant todo + done == updateCh.Keys && todo !! done
        invariant forall x :: x in known ==>
                    QueueState(x.updates, x.closed) == PushAll(before[x], Copies(u, Aliases<Queue?>(updateCh, done, x)))
        decreases todo
      {
        var k :| k in todo;
        EnqueueOneKey(before, done, k, u);
        todo := todo - {k};
        done := done + {k};
      }
      assert done == updateCh.Keys;
    }

    /** One broadcast step: the queue of key `k` gets one more copy, every other queue stays. */
    method EnqueueOneKey(ghost before: map<Queue?, QueueState>, ghost done: set<string>, k: string, u: Update)
      requires Valid()
      requires k in updateCh && k !in done
      requires forall x :: x in known ==> x in before
      modifies updateCh[k]
      requires forall x :: x in known ==>
                 QueueState(x.updates, x.closed) == PushAll(before[x], Copies(u, Aliases<Queue?>(updateCh, done, x)))
      ensures forall x :: x in known ==>
                QueueState(x.updates, x.closed) == PushAll(before[x], Copies(u, Aliases<Queue?>(updateCh, done + {k}, x)))
    {
      var q := updateCh[k];
      Properties.AliasesAddKey<Queue?>(updateCh, done, k, q);
      Properties.PushOneMoreCopy(before[q], u, Aliases<Queue?>(updateCh, done, q));
      forall x | x in known && x != q
        ensures Aliases<Queue?>(updateCh, done + {k}, x) == Aliases<Queue?>(updateCh, done, x)
      {
        Properties.AliasesAddKey<Queue?>(updateCh, done, k, x);
      }
      q.Enqueue(u);
    }

    /** Replaces the label table, then broadcasts `u`: the first two steps of every label handler. */
    method StoreLabelsAndBroadcast(labels: map<string, Label>, u: Update)
      requires Valid()
      modifies this, known
      ensures updateCh == old(updateCh) && known == old(known)
      ensures Abstract() == Reconcile.Broadcast(old(Abstract()).(labels := labels), u)
    {
      apiLabels := labels;
      Broadcast(u);
    }

    method HandleCreateLabelEvent(ev: LabelEvent) returns (err: Option<Error>)
      requires Valid()
      modifies this, known
      ensures updateCh == old(updateCh) && known == old(known)
      ensures StepResult(Abstract(), err) == CreateLabel(old(Abstract()), ev)
    {
      var l := ev.labelInfo;
      if l.id in apiLabels {
        return Some(AlreadyExists(ev.id));
      }
      StoreLabelsAndBroadcast(apiLabels[l.id := l], MailboxCreated(ev.id, MailboxName(l)));
      eventCh := eventCh + [UserLabelCreated(apiUser.id, l.id, l.name)];
      err := None;
    }

    method HandleUpdateLabelEvent(ev: LabelEvent) returns (err: Option<Error>)
      requires Valid()
      modifies this, known
      ensures updateCh == old(updateCh) && known == old(known)
      ensures StepResult(Abstract(), err) == UpdateLabel(old(Abstract()), ev)
    {
      var l := ev.labelInfo;
      if l.id !in apiLabels {
        return Some(DoesNotExist(ev.id));
      }
      StoreLabelsAndBroadcast(apiLabels[l.id := l], MailboxUpdated(ev.id, MailboxName(l)));
      eventCh := eventCh + [UserLabelUpdated(apiUser.id, l.id, l.name)];
      err := None;
    }

    method HandleDeleteLabelEvent(ev: LabelEvent) returns (err: Option<Error>)
      requires Valid()
      modifies this, known
      ensures updateCh == old(updateCh) && known == old(known)
      ensures StepResult(Abstract(), err) == DeleteLabel(old(Abstract()), ev)
    {
      if ev.id !in apiLabels {
        return Some(DoesNotExist(ev.id));
      }
      var l := apiLabels[ev.id];
      StoreLabelsAndBroadcast(apiLabels - {ev.id}, MailboxDeleted(ev.id));
      eventCh := eventCh + [UserLabelDeleted(apiUser.id, ev.id, l.name)];
      err := None;
    }

    // ------------------------------------------------------------ messages

    method HandleMessageEvents(evs: seq<MessageEvent>, o: Oracles) returns (failed: Option<Failed>)
      requires Valid()
      modifies known
      ensures RunResult(Abstract(), failed) == Run(old(Abstract()), o, MessageEvents(evs))
    {
      ghost var s0 := Abstract();
      var i := 0;
      while i < |evs|
        invariant 0 <= i <= |evs|
        invariant RunResult(Abstract(), None) == Run(s0, o, MessageEvents(evs[..i]))
      {
        ghost var prefix := MessageEvents<Queue?>(evs[..i]);
        var err := HandleMessageEvent(evs[i], o);
        Properties.RunSnoc(s0, o, prefix, MessageEv(evs[i]));
        assert MessageEvents<Queue?>(evs[..i + 1]) == prefix + [MessageEv(evs[i])];
        if err.Some? {
          failed := Some(Failed(i, err.value));
          assert MessageEvents<Queue?>(evs) == MessageEvents(evs[..i + 1]) + MessageEvents(evs[i + 1..]);
          Properties.RunStopsAtFailure(s0, o, MessageEvents(evs[..i + 1]), MessageEvents(evs[i + 1..]));
          return;
        }
        i := i + 1;
      }
      assert evs[..i] == evs;
      failed := None;
    }

    /** One message event, dispatched on its action; UpdateFlags is handled as Update. */
    method HandleMessageEvent(ev: MessageEvent, o: Oracles) returns (err: Option<Error>)
      requires Valid()
      modifies known
      ensures StepResult(Abstract(), err) == Step(old(Abstract()), o, MessageEv(ev))
    {
      err := None;
      match ev.action {
        case EventCreate =>
          err := HandleCreateMessageEvent(ev, o);
        case EventUpdate =>
          err := HandleUpdateMessageEvent(ev, o);
        case EventUpdateFlags =>
          err := HandleUpdateMessageEvent(ev, o);
        case EventDelete =>
          err := HandleDeleteMessageEvent(ev);
        case EventOther(_) =>
      }
    }

    /** Enqueues `u` on the queue registered for `addressID`; a missing entry is a nil queue. */
    method EnqueueTo(addressID: string, u: Update) returns (err: Option<Error>)
      requires Valid()
      modifies known
      ensures StepResult(Abstract(), err) == Route(old(Abstract()), addressID, u)
    {
      if addressID !in updateCh {
        return Some(NilQueue(addressID));
      }
      var q := updateCh[addressID];
      q.Enqueue(u);
      err := None;
    }

    /**
      Creates a message: the fetch, the keyring unlock and the build must all
      succeed before anything is enqueued, and then only on the queue of the
      fetched message's address.
     */
    method HandleCreateMessageEvent(ev: MessageEvent, o: Oracles) returns (err: Option<Error>)
      requires Valid()
      modifies known
      ensures StepResult(Abstract(), err) == CreateMessage(old(Abstract()), o, ev)
    {
      var fetched := o.fetch(ev.message.id);
      if fetched.None? {
        return Some(FetchFailed(ev.message.id));
      }
      var full := fetched.value;
      if !o.keyring(apiUser, Lookup(apiAddrs, ev.message.addressID)) {
        return Some(KeyringFailed(ev.message.addressID));
      }
      var built := o.build(full);
      if built.None? {
        return Some(BuildFailed(full.id));
      }
      err := EnqueueTo(full.addressID, MessagesCreated(built.value));
    }

    method HandleUpdateMessageEvent(ev: MessageEvent, o: Oracles) returns (err: Option<Error>)
      requires Valid()
      modifies known
      ensures StepResult(Abstract(), err) == UpdateMessage(old(Abstract()), o, ev)
    {
      var update := MessageMailboxesUpdated(ev.id, FilterLabels(ev.message.labelIDs, o.wantLabel),
                                            ev.message.seen, ev.message.starred);
      err := EnqueueTo(ev.message.addressID, update);
    }

    method HandleDeleteMessageEvent(ev: MessageEvent) returns (err: Option<Error>)
      requires Valid()
      modifies known
      ensures StepResult(Abstract(), err) == DeleteMessage(old(Abstract()), ev)
    {
      Broadcast(MessagesDeleted(ev.id));
      err := None;
    }
  }
}
