/**
 * One conversation of an account with a contact or a private room: its flags,
 * the creation of its messages, the ordered send of its unsent messages, and
 * the cached last message shown in chat lists.
 */
module Chat {
  import opened Wrappers
  import opened JavaStrings
  import opened Messages
  import opened MessageStore
  import opened Delivery

  /** The exceptions the chat's operations can raise. */
  datatype ChatError =
    | IllegalArgument  // a message with neither text nor action
    | NullTimestamp    // unboxing the null timestamp of the cached last message

  /** Side effects the chat hands to other components, in the order they happen. */
  datatype Event =
    | Notified(item: MessageItem)  // a message notification was raised
    | Saved(item: MessageItem)     // a message was written to the store

  /**
   * What the surroundings answer when a message is built: whether the chat is
   * on screen, whether message notifications are on at all, whether they are on
   * for a chat on screen, and whether the sender is blocked in its private room.
   */
  datatype NotifyContext = NotifyContext(visible: bool, eventsOn: bool, notifyVisible: bool, senderBlocked: bool)

  /** The text a message is built with: a null text becomes the empty string. */
  function TextOrEmpty(text: Option<string>): string {
    if text.None? then "" else text.value
  }

  /** Whether building a message opens the chat: the notify hint on a non-blank text, or an outgoing message. */
  predicate OpensChat(text: Option<string>, incoming: bool, notify: bool) {
    (notify && !IsBlank(TextOrEmpty(text))) || !incoming
  }

  /**
   * Whether a message may notify: the hint on a non-blank incoming text, unless
   * the chat is a private room that is not accepted or whose sender is blocked.
   */
  predicate MayNotify(text: Option<string>, incoming: bool, notify: bool,
                      privateRoom: bool, accepted: bool, blocked: bool) {
    notify && !IsBlank(TextOrEmpty(text)) && incoming && !(privateRoom && (!accepted || blocked))
  }

  /** Whether a notification is raised for a message that may notify. */
  predicate Raises(mayNotify: bool, ctx: NotifyContext) {
    mayNotify && ctx.eventsOn && (!ctx.visible || ctx.notifyVisible)
  }

  /**
   * The record built for a message: read unless it is an incoming non-action
   * message of a chat off screen, sent unless it is an outgoing non-action
   * message, with the empty string for a null text, the empty resource for a
   * null resource (a given resource is not copied), no error and no
   * acknowledgment yet, and the other columns as given. The file path is left
   * to the attachment processing, which this model does not cover.
   */
  predicate IsNewItem(m: MessageItem, uniqueId: string, account: AccountJid, user: UserJid, resource: Option<string>,
                      text: Option<string>, action: Option<string>, delayTimestamp: Option<int>, incoming: bool,
                      unencrypted: bool, offline: bool, stanzaId: Option<string>, visible: bool, now: int)
  {
    && m.uniqueId == uniqueId && m.account == account && m.user == user
    && m.resource == (if resource.None? then Some("") else None)
    && m.action == action && m.text == TextOrEmpty(text)
    && m.timestamp == Some(now) && m.delayTimestamp == delayTimestamp
    && m.incoming == incoming && m.unencrypted == unencrypted && m.offline == offline
    && m.stanzaId == stanzaId && !m.error && !m.acknowledged
    && m.read == (action.Some? || !incoming || visible)
    && m.sent == (action.Some? || incoming)
  }

  class AbstractChat {
    const account: AccountJid
    const user: UserJid
    const isPrivateMucChat: bool
    /** The destination and message type the concrete chat kind gives its packets. */
    const to: string
    const msgType: MessageType

    /** Whether the chat is open and shown as the active chat. */
    var active: bool
    /** Whether status changes of the contact are recorded. */
    var trackStatus: bool
    /** Whether the user has not yet been notified since the chat was last closed. */
    var firstNotification: bool
    var creationTime: int
    var threadId: string
    var isPrivateMucChatAccepted: bool
    /** Whether the live non-empty-text query has been set up. */
    var textQueryOpen: bool
    var lastNotEmptyTextMessage: Option<MessageItem>

    ghost var events: seq<Event>

    ghost predicate Valid()
      reads this
    {
      && (active ==> trackStatus)
      && (lastNotEmptyTextMessage.Some? ==> textQueryOpen)
    }

    /** A closed chat with a new thread id `threadId`, created at `now`. */
    constructor (account: AccountJid, user: UserJid, isPrivateMucChat: bool, to: string, msgType: MessageType,
                 threadId: string, now: int)
      ensures Valid()
      ensures this.account == account && this.isPrivateMucChat == isPrivateMucChat
      ensures this.user == if isPrivateMucChat then user else user.BareUserJid()
      ensures this.to == to && this.msgType == msgType && this.threadId == threadId
      ensures !active && !trackStatus && firstNotification && !isPrivateMucChatAccepted
      ensures creationTime == now
      ensures !textQueryOpen && lastNotEmptyTextMessage.None? && events == []
    {
      this.account := account;
      this.user := if isPrivateMucChat then user else user.BareUserJid();
      this.isPrivateMucChat := isPrivateMucChat;
      this.to := to;
      this.msgType := msgType;
      this.threadId := threadId;
      active := false;
      trackStatus := false;
      firstNotification := true;
      isPrivateMucChatAccepted := false;
      creationTime := now;
      textQueryOpen := false;
      lastNotEmptyTextMessage := None;
      events := [];
    }

    /** An unaccepted private-room chat is never active; any other chat is as its flag says. */
    function IsActive(): (r: bool)
      reads this
      ensures isPrivateMucChat && !isPrivateMucChatAccepted ==> !r
      ensures !(isPrivateMucChat && !isPrivateMucChatAccepted) ==> r == active
    {
      if isPrivateMucChat && !isPrivateMucChatAccepted then false else active
    }

    /** Opens the chat at `now`; the creation time moves only when the chat was not active. */
    method OpenChat(now: int)
      requires Valid()
      modifies this`active, this`trackStatus, this`creationTime
      ensures Valid()
      ensures active && trackStatus
      ensures creationTime == if old(active) then old(creationTime) else now
    {
      if !active {
        creationTime := now;
      }
      active := true;
      trackStatus := true;
    }

    /** Closes the chat and re-arms its first notification. */
    method CloseChat()
      requires Valid()
      modifies this`active, this`firstNotification
      ensures Valid()
      ensures !active && firstNotification
    {
      active := false;
      firstNotification := true;
    }

    /** Reports whether the first notification is still pending, and marks it consumed. */
    method GetFirstNotification() returns (r: bool)
      requires Valid()
      modifies this`firstNotification
      ensures Valid()
      ensures r == old(firstNotification) && !firstNotification
    {
      r := firstNotification;
      firstNotification := false;
    }

    method SetPrivateMucChatAccepted(accepted: bool)
      requires Valid()
      modifies this`isPrivateMucChatAccepted
      ensures Valid()
      ensures isPrivateMucChatAccepted == accepted
    {
      isPrivateMucChatAccepted := accepted;
    }

    /** Whether the chat takes the incoming `stanza` from `jid`: exactly those of its own contact. */
    function OnPacket(jid: UserJid, stanza: Stanza): (r: bool)
      ensures r <==> jid == user
    {
      user == jid
    }

    /** Replaces the thread id, unless the new one is null. */
    method UpdateThreadId(newThreadId: Option<string>)
      requires Valid()
      modifies this`threadId
      ensures Valid()
      ensures newThreadId.None? ==> threadId == old(threadId)
      ensures newThreadId.Some? ==> threadId == newThreadId.value
    {
      if newThreadId.None? {
        return;
      }
      threadId := newThreadId.value;
    }

    /** A new packet with body `body` for this chat, in its current thread. */
    function CreateMessagePacket(body: string, stanzaId: string): (p: Packet)
      reads this
      ensures p.thread == threadId && p.body == body && p.stanzaId == stanzaId
      ensures p.to == to && p.msgType == msgType && p.delay.None?
    {
      Packet(to, msgType, body, threadId, stanzaId, None)
    }

    /** The chat's part of its packets, as it stands. */
    function Address(): Addressing
      reads this
    {
      Addressing(to, msgType, threadId)
    }

    /**
     * Builds a message record (not yet stored): `uniqueId` is the id the new row
     * gets, `now` the clock reading. Opens the chat and raises a notification
     * as the rules say.
     */
    method CreateMessageItem(resource: Option<string>, text: Option<string>, action: Option<string>,
                             delayTimestamp: Option<int>, incoming: bool, notify: bool, unencrypted: bool,
                             offline: bool, stanzaId: Option<string>, ctx: NotifyContext, now: int, uniqueId: string)
      returns (r: Result<MessageItem, ChatError>)
      requires Valid()
      modifies this`active, this`trackStatus, this`creationTime, this`events
      ensures Valid()
      ensures r.Failure? <==> text.None? && action.None?
      ensures r.Failure? ==> r.error == IllegalArgument && unchanged(this)
      ensures r.Success? ==> IsNewItem(r.value, uniqueId, account, user, resource, text, action, delayTimestamp,
                                       incoming, unencrypted, offline, stanzaId, ctx.visible, now)
      ensures r.Success? && OpensChat(text, incoming, notify) ==>
        active && trackStatus && creationTime == (if old(active) then old(creationTime) else now)
      ensures r.Success? && !OpensChat(text, incoming, notify) ==>
        active == old(active) && trackStatus == old(trackStatus) && creationTime == old(creationTime)
      ensures r.Success? ==>
        events == old(events) +
          if Raises(MayNotify(text, incoming, notify, isPrivateMucChat, isPrivateMucChatAccepted, ctx.senderBlocked), ctx)
          then [Notified(r.value)] else []
      ensures r.Success? && events != old(events) ==> active
    {
      if action.None? && text.None? {
        return Failure(IllegalArgument);
      }
      var item := BuildItem(resource, text, action, delayTimestamp, incoming, unencrypted, offline, stanzaId,
                            ctx.visible, now, uniqueId);
      var body := item.text;
      var notifyNow := notify;
      var blank := TrimIsEmpty(body);
      if blank {
        notifyNow := false;
      }
      if notifyNow || !incoming {
        OpenChat(now);
      }
      if !incoming {
        notifyNow := false;
      }
      if isPrivateMucChat {
        if !isPrivateMucChatAccepted || ctx.senderBlocked {
          notifyNow := false;
        }
      }
      RaiseNotification(item, notifyNow, ctx);
      return Success(item);
    }

    /** The record part of message creation: the columns of the new message. */
    method BuildItem(resource: Option<string>, text: Option<string>, action: Option<string>,
                     delayTimestamp: Option<int>, incoming: bool, unencrypted: bool, offline: bool,
                     stanzaId: Option<string>, visible: bool, now: int, uniqueId: string)
      returns (item: MessageItem)
      ensures IsNewItem(item, uniqueId, account, user, resource, text, action, delayTimestamp,
                        incoming, unencrypted, offline, stanzaId, visible, now)
    {
      var read := if incoming then visible else true;
      var send := incoming;
      var body := TextOrEmpty(text);
      if action.Some? {
        read := true;
        send := true;
      }
      item := MessageItem(uniqueId, account, user, if resource.None? then Some("") else None, action, body,
                          None, Some(now), delayTimestamp, incoming, read, send, false, false,
                          unencrypted, offline, stanzaId);
    }

    /** The notification step of message creation: raised only when allowed and the chat is not hidden by
        visibility settings. */
    method RaiseNotification(item: MessageItem, notifyNow: bool, ctx: NotifyContext)
      modifies this`events
      ensures events == old(events) + if Raises(notifyNow, ctx) then [Notified(item)] else []
    {
      if notifyNow && ctx.eventsOn {
        if ctx.visible {
          if ctx.notifyVisible {
            events := events + [Notified(item)];
          }
        } else {
          events := events + [Notified(item)];
        }
      }
    }

    /** Writes `item` to the store. */
    method SaveMessageItem(store: Store, item: MessageItem)
      requires Valid()
      modifies store, this`events
      ensures Valid()
      ensures store.items == old(store.items) + [item]
      ensures events == old(events) + [Saved(item)]
    {
      store.items := store.items + [item];
      events := events + [Saved(item)];
    }

    /**
     * Builds a message and stores it. A notification the message raises is
     * raised while building it, before the message is stored.
     */
    method CreateAndSaveNewMessage(store: Store, resource: Option<string>, text: Option<string>, action: Option<string>,
                                   delayTimestamp: Option<int>, incoming: bool, notify: bool, unencrypted: bool,
                                   offline: bool, stanzaId: Option<string>, ctx: NotifyContext, now: int,
                                   uniqueId: string)
      returns (r: Result<MessageItem, ChatError>)
      requires Valid()
      modifies store, this`active, this`trackStatus, this`creationTime, this`events
      ensures Valid()
      ensures r.Failure? <==> text.None? && action.None?
      ensures r.Failure? ==> unchanged(this) && store.items == old(store.items)
      ensures r.Success? ==> store.items == old(store.items) + [r.value]
      ensures r.Success? ==> IsNewItem(r.value, uniqueId, account, user, resource, text, action, delayTimestamp,
                                       incoming, unencrypted, offline, stanzaId, ctx.visible, now)
      ensures r.Success? ==>
        events == old(events) +
          (if Raises(MayNotify(text, incoming, notify, isPrivateMucChat, isPrivateMucChatAccepted, ctx.senderBlocked), ctx)
           then [Notified(r.value)] else []) +
          [Saved(r.value)]
      ensures r.Success? && OpensChat(text, incoming, notify) ==>
        active && trackStatus && creationTime == (if old(active) then old(creationTime) else now)
      ensures r.Success? && !OpensChat(text, incoming, notify) ==>
        active == old(active) && trackStatus == old(trackStatus) && creationTime == old(creationTime)
    {
      r := CreateMessageItem(resource, text, action, delayTimestamp, incoming, notify, unencrypted, offline,
                             stanzaId, ctx, now, uniqueId);
      if r.Failure? {
        return;
      }
      SaveMessageItem(store, r.value);
    }

    /**
     * Records an action (a status line in the chat) as an incoming message that
     * asks for no notification: it is stored read and sent, neither opens the
     * chat nor notifies, and fails only when both text and action are null.
     */
    method NewAction(store: Store, resource: Option<string>, text: Option<string>, action: Option<string>,
                     ctx: NotifyContext, now: int, uniqueId: string)
      returns (r: Result<MessageItem, ChatError>)
      requires Valid()
      modifies store, this`active, this`trackStatus, this`creationTime, this`events
      ensures Valid()
      ensures r.Failure? <==> text.None? && action.None?
      ensures r.Failure? ==> unchanged(this) && store.items == old(store.items)
      ensures r.Success? ==>
        && store.items == old(store.items) + [r.value]
        && r.value.incoming && r.value.read == (action.Some? || ctx.visible) && r.value.sent
        && r.value.delayTimestamp.None? && r.value.stanzaId.None?
        && IsNewItem(r.value, uniqueId, account, user, resource, text, action, None, true, false, false, None,
                     ctx.visible, now)
        && events == old(events) + [Saved(r.value)]
        && active == old(active) && trackStatus == old(trackStatus) && creationTime == old(creationTime)
    {
      r := CreateAndSaveNewMessage(store, resource, text, action, None, true, false, false, false, None,
                                   ctx, now, uniqueId);
    }

    /**
     * Stores an outgoing file message, already read and sent, under the id
     * `messageId`, and returns that id.
     */
    method NewFileMessage(store: Store, fileName: string, filePath: string, now: int, messageId: string)
      returns (id: string)
      modifies store
      ensures id == messageId
      ensures store.items == old(store.items) + [MessageItem(messageId, account, user, None, None, fileName,
        Some(filePath), Some(now), None, false, true, true, false, false, false, false, None)]
    {
      var item := MessageItem(messageId, account, user, None, None, fileName, Some(filePath), Some(now), None,
                              false, true, true, false, false, false, false, None);
      store.items := store.items + [item];
      id := messageId;
    }

    /** The cached last message with a non-empty text; only ever set once the text query is open. */
    function GetLastMessage(): (r: Option<MessageItem>)
      reads this
      requires Valid()
      ensures r.Some? ==> textQueryOpen
    {
      lastNotEmptyTextMessage
    }

    /** The timestamp of the cached last message: null exactly when there is none. */
    function GetLastTime(): (r: Result<Option<int>, ChatError>)
      reads this
      requires Valid()
      ensures r == Success(None) <==> lastNotEmptyTextMessage.None?
      ensures r.Failure? <==> lastNotEmptyTextMessage.Some? && lastNotEmptyTextMessage.value.timestamp.None?
      ensures r.Success? && r.value.Some? ==> lastNotEmptyTextMessage == Some(GetLastMessage().value) &&
                                              GetLastMessage().value.timestamp == r.value
    {
      var last := GetLastMessage();
      if last.None? then Success(None)
      else if last.value.timestamp.None? then Failure(NullTimestamp)
      else Success(Some(last.value.timestamp.value))
    }

    /**
     * Reacts to a change of the chat's live queries. `itemsReady` and `textReady`
     * say whether the all-messages and the non-empty-text query are valid and
     * loaded. The first change on a non-empty chat only opens the text query;
     * later ones copy its last element.
     */
    method UpdateLastMessage(store: Store, itemsReady: bool, textReady: bool)
      requires Valid()
      modifies this`textQueryOpen, this`lastNotEmptyTextMessage
      ensures Valid()
      ensures !old(textQueryOpen) ==>
        && lastNotEmptyTextMessage == old(lastNotEmptyTextMessage)
        && textQueryOpen == (itemsReady && exists i :: 0 <= i < |store.items| && Matches(store.items[i], account, user, AllOfChat))
      ensures old(textQueryOpen) ==>
        && textQueryOpen
        && lastNotEmptyTextMessage ==
             if textReady && LastTextMessage(store.items, account, user).Some?
             then LastTextMessage(store.items, account, user) else old(lastNotEmptyTextMessage)
    {
      if !textQueryOpen {
        var chatItems := Query(store.items, account, user, AllOfChat);
        if itemsReady && chatItems != [] {
          assert chatItems[0] in chatItems;
          textQueryOpen := true;
        }
      } else {
        var texts := Query(store.items, account, user, NonEmptyText);
        assert LastTextMessage(store.items, account, user) ==
               if texts == [] then None else Some(store.items[texts[|texts| - 1]]);
        if textReady && texts != [] {
          lastNotEmptyTextMessage := Some(store.items[texts[|texts| - 1]]);
        }
      }
    }

    /**
     * Sends stored message `idx` through the transport. Returns false, changing
     * nothing, when the transport refuses a packet; otherwise records the send
     * on the row and returns the packet handed over, if the text was sendable.
     */
    method SendMessage(store: Store, idx: nat, prepare: string -> Option<string>, attempt: Attempt)
      returns (ok: bool, packet: Option<Packet>)
      requires idx < |store.items|
      modifies store
      ensures var step := SendStep(old(store.items)[idx], prepare(old(store.items)[idx].text), attempt, Address());
        && ok == step.Sent?
        && (step.NotConnected? ==> store.items == old(store.items) && packet.None?)
        && (step.Sent? ==> store.items == old(store.items)[idx := step.item] && packet == step.packet)
    {
      var m := store.items[idx];
      var text := prepare(m.text);
      ghost var step := SendStep(m, text, attempt, Address());
      var timestamp := m.timestamp;
      var currentTime := attempt.now;
      var delay: Option<int> := None;
      if timestamp.Some? {
        if currentTime - timestamp.value > DelayThreshold {
          delay := Some(currentTime);
        }
      }
      var message: Option<Packet> := None;
      if text.Some? {
        message := Some(CreateMessagePacket(text.value, attempt.stanzaId));
      }
      if message.Some? {
        if delay.Some? {
          message := Some(message.value.(delay := delay));
        }
        if !attempt.connected {
          assert step.NotConnected?;
          return false, None;
        }
      }
      var error, sentId, delayed, created := m.error, m.stanzaId, m.delayTimestamp, m.timestamp;
      if message.None? {
        error := true;
      } else {
        sentId := Some(message.value.stanzaId);
      }
      if delay.Some? {
        delayed := delay;
      }
      if created.None? {
        created := Some(currentTime);
      }
      m := m.(error := error, stanzaId := sentId, delayTimestamp := delayed, timestamp := created, sent := true);
      assert step == Sent(m, message);
      store.items := store.items[idx := m];
      return true, message;
    }

    /**
     * One dispatch pass: takes the chat's unsent messages ascending by timestamp
     * (`pending`) and sends them in that order, the `k`-th with `attempts(k)`,
     * until the transport refuses one. Returns how many were handled and the
     * packets handed over.
     */
    method SendMessages(store: Store, prepare: string -> Option<string>, attempts: nat -> Attempt)
      returns (pending: seq<nat>, processed: nat, packets: seq<Packet>)
      modifies store
      ensures pending == Query(old(store.items), account, user, Unsent)
      ensures var r := RunPass(old(store.items), pending, 0, Address(), prepare, attempts);
        store.items == r.items && processed == r.processed && packets == r.packets
    {
      pending := Query(store.items, account, user, Unsent);
      processed, packets := SendInOrder(store, pending, prepare, attempts);
    }

    /** The loop of the dispatch pass: sends the rows of `order` one by one until the transport refuses one. */
    method SendInOrder(store: Store, order: seq<nat>, prepare: string -> Option<string>, attempts: nat -> Attempt)
      returns (processed: nat, packets: seq<Packet>)
      requires InRange(store.items, order)
      modifies store
      ensures var r := RunPass(old(store.items), order, 0, Address(), prepare, attempts);
        store.items == r.items && processed == r.processed && packets == r.packets
    {
      packets := [];
      ghost var c := Address();
      ghost var whole := RunPass(store.items, order, 0, c, prepare, attempts);
      var i := 0;
      while i < |order|
        invariant 0 <= i <= |order| && InRange(store.items, order)
        invariant c == Address()
        invariant var rest := RunPass(store.items, order, i, c, prepare, attempts);
          rest.items == whole.items && rest.processed == whole.processed && packets + rest.packets == whole.packets
      {
        RunPassStep(store.items, order, i, c, prepare, attempts);
        var ok, packet := SendMessage(store, order[i], prepare, attempts(i));
        if !ok {
          break;
        }
        ghost var rest := RunPass(store.items, order, i + 1, c, prepare, attempts);
        if packet.Some? {
          assert (packets + [packet.value]) + rest.packets == packets + ([packet.value] + rest.packets);
          packets := packets + [packet.value];
        }
        i := i + 1;
      }
      processed := i;
    }

    /**
     * The delivery receipt for the message stored under `messageId`: marks that
     * row acknowledged if it is still there, and otherwise does nothing.
     */
    method OnAcknowledged(store: Store, messageId: string)
      modifies store
      ensures store.items == Acknowledge(old(store.items), messageId)
    {
      var found := FindFirst(store.items, messageId);
      if found.Some? {
        var k := found.value;
        store.items := store.items[k := store.items[k].(acknowledged := true)];
      }
    }
  }
}
