/** The persisted message record, the outgoing stanza and the order on timestamps. */
module Messages {
  import opened Wrappers

  /** The local account, by its string form. */
  type AccountJid = string

  /** A contact address: a bare address and an optional resource. */
  datatype UserJid = UserJid(bare: string, resource: Option<string>) {

    /** The address without its resource part. */
    function BareUserJid(): (b: UserJid)
      ensures b.bare == bare && b.resource.None?
      ensures resource.None? ==> b == this
    {
      UserJid(bare, None)
    }
  }

  /** The XMPP message types a chat can assign to its packets. */
  datatype MessageType = Normal | Chat | Groupchat | Headline | Error

  /**
   * One stored message. Nullable columns are `Option`s; `timestamp` is the local
   * creation time and `delayTimestamp` the delay recorded for the message.
   */
  datatype MessageItem = MessageItem(
    uniqueId: string,
    account: AccountJid,
    user: UserJid,
    resource: Option<string>,
    action: Option<string>,
    text: string,
    filePath: Option<string>,
    timestamp: Option<int>,
    delayTimestamp: Option<int>,
    incoming: bool,
    read: bool,
    sent: bool,
    error: bool,
    acknowledged: bool,
    unencrypted: bool,
    offline: bool,
    stanzaId: Option<string>)

  /**
   * Same message, up to the columns a send updates: error, stanza id, delay,
   * timestamp and the sent flag.
   */
  predicate SameButDelivery(a: MessageItem, b: MessageItem) {
    b == a.(error := b.error, stanzaId := b.stanzaId, delayTimestamp := b.delayTimestamp,
            timestamp := b.timestamp, sent := b.sent)
  }

  /** An outgoing message stanza. `delay` is its delayed-delivery extension, if any. */
  datatype Packet = Packet(
    to: string,
    msgType: MessageType,
    body: string,
    thread: string,
    stanzaId: string,
    delay: Option<int>)

  /**
   * An incoming stanza as the chat receives it. Only its id is kept: the chat
   * decides whether a stanza is its own from the sender alone.
   */
  datatype Stanza = Stanza(stanzaId: Option<string>)

  /**
   * The ascending order on nullable timestamps used when the store sorts by time:
   * a null timestamp comes before every present one.
   */
  predicate TimeLe(a: Option<int>, b: Option<int>) {
    a.None? || (b.Some? && a.value <= b.value)
  }

  /** Strictly earlier in that order. */
  predicate TimeLt(a: Option<int>, b: Option<int>) {
    !TimeLe(b, a)
  }
}
