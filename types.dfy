/**
  The values that flow through the event-reconciliation core of a user
  session: the remote entities (user profile, addresses, labels), the events
  that describe changes to them, the protocol updates pushed into per-address
  queues and the notifications published on the session's event stream.
 */
module Types {

  datatype Option<T> = None | Some(value: T)

  /** How the account's addresses share mailbox views; owned by the vault and only read here. */
  datatype AddressMode = Combined | Split

  /** The remote user profile; replaced wholesale by a user event. */
  datatype User = User(id: string, name: string)

  /** A remote address; `order` is its position (the primary address has the lowest). */
  datatype Address = Address(id: string, email: string, order: int)

  /** The remote label types; any other numeric type code is kept as `OtherType`. */
  datatype LabelType = UserLabel | ContactGroup | Folder | System | OtherType(code: int)

  /** A remote label (mailbox): its display name, its path segments and its type. */
  datatype Label = Label(id: string, name: string, path: seq<string>, labelType: LabelType)

  /** A message as the remote service delivers it in full; only its owner matters here. */
  datatype FullMessage = FullMessage(id: string, addressID: string)

  /** The protocol-ready form of a message, as produced by the RFC822 builder. */
  datatype BuiltMessage = BuiltMessage(messageID: string, literal: string)

  /** Protocol updates carried by an address's update queue. */
  datatype Update =
    | MailboxCreated(mailboxID: string, name: seq<string>)
    | MailboxUpdated(mailboxID: string, name: seq<string>)
    | MailboxDeleted(mailboxID: string)
    | MessagesCreated(message: BuiltMessage)
    | MessageMailboxesUpdated(messageID: string, mailboxIDs: seq<string>, seen: bool, starred: bool)
    | MessagesDeleted(messageID: string)

  /** Notifications appended to the session's event stream. */
  datatype Notification =
    | UserChanged(userID: string)
    | UserAddressCreated(userID: string, addressID: string, email: string)
    | UserAddressUpdated(userID: string, addressID: string, email: string)
    | UserAddressDeleted(userID: string, addressID: string, email: string)
    | UserLabelCreated(userID: string, labelID: string, name: string)
    | UserLabelUpdated(userID: string, labelID: string, name: string)
    | UserLabelDeleted(userID: string, labelID: string, name: string)

  /** The action tag of a remote event; unknown tags are kept as `EventOther`. */
  datatype Action = EventDelete | EventCreate | EventUpdate | EventUpdateFlags | EventOther(code: int)

  /** The message fields an event carries. */
  datatype MessageMetadata =
    MessageMetadata(id: string, addressID: string, labelIDs: seq<string>, seen: bool, starred: bool)

  datatype AddressEvent = AddressEvent(id: string, action: Action, address: Address)
  datatype LabelEvent = LabelEvent(id: string, action: Action, labelInfo: Label)
  datatype MessageEvent = MessageEvent(id: string, action: Action, message: MessageMetadata)

  /** One remote event batch: an optional user change and three lists of sub-events. */
  datatype EventBatch = EventBatch(
    user: Option<User>,
    addresses: seq<AddressEvent>,
    labels: seq<LabelEvent>,
    messages: seq<MessageEvent>)

  /** Why a single sub-event handler failed. */
  datatype Error =
    | AlreadyExists(id: string)
    | DoesNotExist(id: string)
    | NoPrimaryAddress
    | NilQueue(addressID: string)
    | FetchFailed(messageID: string)
    | KeyringFailed(addressID: string)
    | BuildFailed(messageID: string)
    | SyncFailed(addressID: string)

  /**
    The collaborators whose code is not part of this model, given as the
    results they produce: the primary-address lookup over the address table,
    the mailbox-created updates the label sync pushes into a new address's
    queue (None when the remote label fetch fails), the full-message fetch,
    the address keyring unlock, the RFC822 build, and the label-ID filter.
   */
  datatype Oracles = Oracles(
    primary: map<string, Address> -> Option<string>,
    labelSync: string -> Option<seq<Update>>,
    fetch: string -> Option<FullMessage>,
    keyring: (User, Option<Address>) -> bool,
    build: FullMessage -> Option<BuiltMessage>,
    wantLabel: string -> bool)
}
