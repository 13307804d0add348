# Event reconciliation of a Proton Mail Bridge user session

This project models how one user session of Proton Mail Bridge applies a
remote event batch to its in-memory account state, and proves what that
does. The state has five parts:

- the user profile;
- the address table, which maps an address ID to an address;
- the label table, which maps a label ID to a label;
- the queue registry, which maps an address ID to an update queue;
- the notification stream.

A batch holds an optional user change and three lists: address events,
label events and message events. They are handled in that order, and the
first failure stops everything after it. What was already done stays done.

The address mode decides how addresses share queues:

- In Combined mode, a new address shares the queue object of the primary
  address.
- In Split mode, every address gets its own queue.

Label changes and message deletions are broadcast over the registry.
Message creations and updates are routed to the queue of one address.

The project has five files:

- `types.dfy` (module `Types`): the entities, events, updates,
  notifications, errors, and the `Oracles` record. `Oracles` stands for the
  collaborators whose code is not modelled.
- `mailbox.dfy` (module `Mailbox`): the mailbox name of a label and the
  label-ID filter. Both are pure.
- `reconcile.dfy` (module `Reconcile`): a value-level definition of every
  handler over a `Snapshot`.
  - `Snapshot` is generic in the queue handle type, so that several
    registry keys can hold the same handle.
  - `Run` folds a list of sub-events and stops at the first error.
  - `ApplyBatch` is the batch handler, nested the way the source nests it.
- `properties.dfy` (module `Properties`): lemmas about those definitions.
- `events.dfy` (module `Events`): the imperative session.
  - `Queue` is a class, so Combined-mode aliasing is reference sharing.
  - `Session` holds the tables, the registry and the stream as fields that
    its methods reassign. A ghost set records every queue the session has
    created, so a queue that a Split-mode deletion closed and unregistered
    still appears, closed and empty, in the snapshot.
  - Every handler method is proved to change `Abstract()`, the session's
    snapshot, exactly as the matching `Reconcile` function says.
  - The broadcast is a loop over the registry keys, and the per-category
    handlers are loops over the event lists.

The code enqueues a broadcast once per registry entry, not once per queue
(`internal/user/events.go:242`, `269`, `294`, `381`). So in Combined mode a
queue shared by n addresses receives n copies of every label change and
message deletion. One might expect a shared queue to receive a broadcast
once; the code enqueues once per registry entry, and so does this model: see
`Events.Session.Broadcast`, `Properties.AliasesWhenShared` and
`Properties.SharedQueueGetsOneCopyPerAddress`.

## Model

| member | source | states |
|---|---|---|
| Events.Session.HandleAPIEvent | internal/user/events.go:37-63 | The session ends in the state `ApplyBatch` gives. The user change comes first, then the address, label and message lists. Each category runs only if every earlier one succeeded, and the failure reported is the failing category's. Every handle recorded for an address event is a queue created during the call, and no two are the same. |
| Events.Session.HandleUserEvent | internal/user/events.go:66-81 | The profile is replaced, and one UserChanged carrying the new user's ID is appended. Nothing else changes. |
| Events.Session.HandleAddressEvents | internal/user/events.go:85-106 | The session ends as `Run` over the address list says. Events run in list order, and the first error stops the list at that index. Every recorded handle is a queue created during the call, no two are the same, and each is new where the run applies it, which is the premise of `Properties.RunKeepsSplitQueuesUnshared`. |
| Events.Session.HandleAddressEvent | internal/user/events.go:87-102 | One address event acts as `Step` says: UpdateFlags is handled as Update and an unknown tag is skipped. The handle it reports is new to the session. |
| Events.Session.HandleCreateAddressEvent | internal/user/events.go:108-154 | A duplicate ID is refused with no change. Otherwise the address is inserted, then Combined-mode sharing or Split-mode allocation follows, as `CreateAddress` says. A Split-mode queue is fresh. |
| Events.Session.JoinPrimaryQueue | internal/user/events.go:121-129 | Combined mode. With no primary address, or a primary with no queue, the call fails and the inserted address stays. Otherwise the new registry entry is the primary's queue object, every queue keeps its contents, and UserAddressCreated is appended. |
| Events.Session.OpenOwnQueue | internal/user/events.go:130-131 | Split mode. The new entry is a fresh, empty, open queue, and UserAddressCreated is appended. If the label fetch fails, SyncFailed is returned and the queue stays empty. Otherwise the queue holds exactly the label snapshot. |
| Events.SyncLabels | internal/user/events.go:145-150 | Pushing the label snapshot leaves the queue as the old contents followed by the snapshot, in order. A closed queue is unchanged. |
| Events.Session.HandleUpdateAddressEvent | internal/user/events.go:156-177 | An absent address is refused with no change. Otherwise the entry is replaced and UserAddressUpdated is appended. The registry and the queues are untouched. |
| Events.Session.HandleDeleteAddressEvent | internal/user/events.go:179-203 | An absent address is refused with no change. In Split mode the queue the address had ends closed and empty, that queue stays in the snapshot in that state, and the registry entry is removed; in Combined mode the registry is left as it is. The entry is removed, and UserAddressDeleted carries the email read before the removal. |
| Events.Session.HandleLabelEvents | internal/user/events.go:206-227 | The session ends as `Run` over the label list says, with the same order and stop rules as the address list. The registry object is unchanged. |
| Events.Session.HandleLabelEvent | internal/user/events.go:208-225 | One label event acts as `Step` says: UpdateFlags is handled as Update and an unknown tag is skipped. The registry is unchanged. |
| Events.Session.Broadcast | internal/user/events.go:242-244 | After the loop over the registry keys, every queue of the session holds its old contents followed by one copy of the update per registry key that leads to it; a queue no key reaches is unchanged. |
| Events.Session.HandleCreateLabelEvent | internal/user/events.go:229-254 | A taken ID is refused with no change. Otherwise the label is stored, MailboxCreated with the label's mailbox name is broadcast, and UserLabelCreated is appended. |
| Events.Session.HandleUpdateLabelEvent | internal/user/events.go:256-281 | An absent ID is refused with no change. Otherwise the label is replaced, MailboxUpdated is broadcast, and UserLabelUpdated is appended. |
| Events.Session.HandleDeleteLabelEvent | internal/user/events.go:283-306 | An absent ID is refused with no change. Otherwise the label is removed, MailboxDeleted is broadcast, and UserLabelDeleted carries the name read before the removal. |
| Events.Session.HandleMessageEvents | internal/user/events.go:309-330 | The session ends as `Run` over the message list says, with the same order and stop rules as the address list. |
| Events.Session.HandleMessageEvent | internal/user/events.go:311-328 | One message event acts as `Step` says: UpdateFlags is handled as Update and an unknown tag is skipped. |
| Events.Session.EnqueueTo | internal/user/events.go:350 | A missing registry entry is a NilQueue error with no change. Otherwise only the entry's queue receives the update. |
| Events.Session.HandleCreateMessageEvent | internal/user/events.go:332-355 | A failed fetch, keyring unlock or build returns its error and changes nothing. Otherwise MessagesCreated is routed to the queue of the fetched message's address. |
| Events.Session.HandleUpdateMessageEvent | internal/user/events.go:357-375 | MessageMailboxesUpdated, with the filtered label IDs and the seen and starred flags, is routed to the queue of the message's address. |
| Events.Session.HandleDeleteMessageEvent | internal/user/events.go:377-391 | MessagesDeleted is broadcast once per registry key, and the call never fails. |
| Mailbox.MailboxName | internal/user/events.go:393-412 | A folder's name is the folder prefix followed by the path, and a user label's is the label prefix followed by the path. Every other type keeps the path. So the name is one segment longer than the path or as long, and the path is always its suffix. |
| Mailbox.MailboxNameRoundTrip | internal/user/events.go:393-412 | The name is the type's prefix followed by the path, and the path can be recovered from the name. |
| Mailbox.MailboxNameInjective | internal/user/events.go:393-412 | Two labels of the same type get the same mailbox name exactly when their paths are equal. |
| Mailbox.FolderAndLabelNamesDiffer | internal/user/events.go:397-401 | A folder and a user label never get the same mailbox name. |
| Mailbox.FilterLabels | internal/user/events.go:366 | An ID is kept if and only if it is in the input and the filter wants it, and the result is no longer than the input. |
| Mailbox.FilterLabelsAppend | internal/user/events.go:366 | Filtering distributes over concatenation, so kept IDs keep their relative order. |
| Mailbox.FilterLabelsKeepsAll | internal/user/events.go:366 | When every ID is wanted, the list comes back unchanged. |
| Properties.RunAppend | internal/user/events.go:86-105 | Running a + b is running a, and then, only if a succeeded, running b from a's final state. A failure index in b is shifted by the length of a. |
| Properties.RunStopsAtFailure | internal/user/events.go:86-105 | Once a prefix fails, the events after it are never attempted. |
| Properties.RunFirstFailure | internal/user/events.go:86-105 | A failed run failed at its first failing event. Every earlier event succeeded, and the final state is what the failing handler left, so earlier changes are kept. |
| Properties.RunSuccessIsStepwise | internal/user/events.go:86-105 | A successful run succeeded at every event, in list order. |
| Properties.BatchIsOneRun | internal/user/events.go:37-63 | A batch is one run over user, addresses, labels, messages, in that order. It reaches the same state and fails exactly when that run fails, at the same event. The user change never fails. |
| Properties.RunIgnoresUnknownActions | internal/user/events.go:87-102 | Events with an unknown action tag are skipped: the run without them reaches the same state and the same failure cause. |
| Properties.RunUpdateFlagsIsUpdate | internal/user/events.go:93-96 | Reading every UpdateFlags as Update changes no run result. |
| Properties.StepPreservesValid | internal/user/events.go:108-203 | Every handler keeps a recorded state for every queue the registry reaches. |
| Properties.RunPreservesValid | internal/user/events.go:37-63 | Whole runs preserve that invariant. |
| Properties.StepNotifications | internal/user/events.go:66-306 | A handler only appends to the notification stream, and appends at most one notification. On success it appends exactly one for a user, address or label change, and none for a message change. |
| Properties.CreateAddressNotifications | internal/user/events.go:139-143 | Address creation appends at most one notification, and exactly one when it succeeds. |
| Properties.RunNotificationsAppendOnly | internal/user/events.go:37-63 | Over a run, the old stream is a prefix of the new one, which grows by at most one per event. |
| Properties.FailureLeavesStateUnchanged | internal/user/events.go:115-391 | A failing handler changes nothing, except an address creation that fails after the insert. A refused duplicate or absent ID always leaves the state as it was. |
| Properties.StepKeepsAddressesRegistered | internal/user/events.go:115-199 | A handler that succeeds keeps every address in the table with a registry entry. |
| Properties.RunKeepsAddressesRegistered | internal/user/events.go:85-106 | A run that succeeds keeps every address in the table with a registry entry. |
| Properties.StepKeepsSplitQueuesUnshared | internal/user/events.go:130-131 | Split mode. A handler given a new handle keeps every address on a queue of its own. |
| Properties.RunKeepsSplitQueuesUnshared | internal/user/events.go:85-106 | Split mode. A run whose address events carry new handles keeps every address on a queue of its own. |
| Properties.AliasesWhenInjective | internal/user/events.go:131 | When no two addresses share a queue (the Split-mode topology), a broadcast reaches each queue once. |
| Properties.AliasesWhenShared | internal/user/events.go:128 | When every address shares one queue, a broadcast reaches it once per address. |
| Properties.AliasesAddKey | internal/user/events.go:242-244 | Each further registry key visited adds one copy to its own queue and none to any other. |
| Properties.BroadcastDelivery | internal/user/events.go:242-244 | After a broadcast, an open queue holds its old contents unchanged, followed by exactly one copy of the update per key that leads to it. |
| Properties.SharedQueueGetsOneCopyPerAddress | internal/user/events.go:242-244 | Two addresses share one open queue. After a label creation that queue holds two MailboxCreated copies. |
| Properties.LabelCreated | internal/user/events.go:236-250 | A new label is stored. Every queue receives MailboxCreated with the label's mailbox name once per aliasing key. The address table and the registry are unchanged, and one UserLabelCreated is appended. |
| Properties.LabelUpdated | internal/user/events.go:262-276 | An update of a known label replaces it. Every queue receives MailboxUpdated with the new mailbox name once per aliasing key. The address table and the registry are unchanged, and one UserLabelUpdated is appended. |
| Properties.LabelErrorsChangeNothing | internal/user/events.go:236-290 | Creating a taken label ID, or updating or deleting an absent one, returns the error and leaves the state as it was. |
| Properties.LabelDeleted | internal/user/events.go:287-302 | A deletion removes the label, broadcasts MailboxDeleted, and names the label by the name it had before removal. |
| Properties.SplitCreateGetsOwnQueue | internal/user/events.go:119-150 | Split mode. The new entry is the new queue, and no other key reaches it. It holds exactly the label snapshot, every earlier queue keeps its state, and one UserAddressCreated is appended. |
| Properties.CombinedCreateSharesPrimaryQueue | internal/user/events.go:119-143 | Combined mode. The new entry is the primary's queue object, no queue's state changes, and one UserAddressCreated is appended. |
| Properties.DuplicateAddressChangesNothing | internal/user/events.go:115-117 | Creating an existing address ID returns AlreadyExists and changes nothing. |
| Properties.AddressUpdated | internal/user/events.go:163-173 | An absent ID is refused with no change. Otherwise only the entry and the notification stream change. |
| Properties.SplitDeleteClosesQueue | internal/user/events.go:183-199 | Split mode. The address and its registry key are removed, and the queue it had ends closed and empty. Every other queue keeps its state, and the notification carries the old email. |
| Properties.CombinedDeleteKeepsRegistryEntry | internal/user/events.go:188-199 | Combined mode. The address is removed, and the registry and every queue stay exactly as they were. So the registry's keys can outgrow the address table. |
| Properties.DeleteAbsentAddressChangesNothing | internal/user/events.go:183-186 | Deleting an absent address returns DoesNotExist and changes nothing. |
| Properties.MessageCreatedRouting | internal/user/events.go:332-355 | A failed fetch returns FetchFailed and changes nothing, and every failure leaves the state unchanged. On success exactly one MessagesCreated lands on the fetched message's address's queue, and nothing else changes. |
| Properties.MessageUpdatedRouting | internal/user/events.go:364-371 | One MessageMailboxesUpdated goes to the owning address's queue only. It carries exactly the wanted label IDs and the seen and starred flags. |
| Properties.MessageDeletedBroadcast | internal/user/events.go:381-389 | MessagesDeleted is broadcast once per registry key. No table, the registry and the stream are untouched. |
| Properties.MessagesTouchOnlyQueues | internal/user/events.go:309-391 | No message event changes the user, the tables, the registry, the stream or the mode. |

## Left out

- Locking (`safe.LockRet`, `safe.RLockRet`) and concurrency: each handler is one atomic sequential step.
- Logging and the `context.Context` parameters: they have no effect on state.
- The full-message fetch, the label sync's network fetch, keyring unlocking (`withAddrKR`) and RFC822 building: these are network and crypto calls, so they are given as the results in `Types.Oracles`. The label sync is the list of updates it would push, or a failure.
- `getAddrIdx`, `wantLabelID` and `mapTo` are defined in files that are not part of this model. The primary lookup and the label filter are oracles, and `mapTo` is taken as the identity on IDs.
- The gluon queue (`queue.NewQueuedChannel`, `CloseAndDiscardQueued`): a queue is modelled as a list plus a closed flag. An enqueue on a closed queue is modelled as dropped, and consumption by the mail-access server is not modelled.
- `user.ID()` is defined elsewhere and is taken to be the current profile's ID.
- Events.Session.JoinPrimaryQueue: when the primary address has no registry entry (for example, the new address is itself the primary), Go stores a nil queue for the new ID, returns success, appends UserAddressCreated (`internal/user/events.go:139-143`) and lets the batch go on. The model instead returns NilQueue, which stops the batch. It keeps the inserted address, adds no registry entry and publishes no notification.
- Events.Session.HandleDeleteAddressEvent: in Split mode, a missing registry entry makes Go call a method on a nil queue. The model returns NilQueue and changes nothing.
- Events.Session.EnqueueTo: enqueueing to an address with no registry entry is a nil-queue call in Go. The model returns NilQueue and changes nothing.
- Events.Session.HandleAPIEvent: errors carry no wrapped message text. A failure is reported as its category, its position in the list and its cause.
- Events.Session.Broadcast visits the registry keys in an unspecified order, as Go's map iteration does. The contract fixes only what each queue ends up holding, which does not depend on the order.
- internal/frontend/bridge-gui/bridge-gui/CommandLine.h: it only declares a command-line parser and has no body, so there is nothing to model.
