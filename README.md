# AbstractChat: a verified model of xabber's per-conversation chat engine

This project models `AbstractChat`, the chat engine of the xabber Android XMPP client. There is one `AbstractChat` per conversation: a contact, or a private room.

The model covers:

- **The chat's flags.** These are `active`, `trackStatus`, `firstNotification`, the private-room accepted gate, the creation time and the thread id. They are fields of a Dafny `class`, changed in place by its methods.
- **Building a message.** `createMessageItem` decides the read and sent flags of a new message record, whether the chat opens, and whether a notification is raised. Notifications and database writes go into a ghost event log, in the order they happen.
- **The ordered dispatch pass.** `sendMessages` / `sendMessage` take the chat's unsent messages in ascending timestamp order and send them one by one. The pass stops at the first send the transport refuses. Each sent row records error, stanza id, delay and timestamp.
- **The acknowledgment callback.** It marks the acknowledged row, if that row is still present.
- **The cached last non-empty text message.** It is maintained by `updateLastMessage` and read by `getLastMessage` / `getLastTime`.

The message database is a `Store` object that holds a `seq` of records. Its queries, filtered by chat and column and sorted ascending by timestamp, are functions on that sequence. A row is named by its index.

`Delivery.RunPass` specifies one dispatch pass as a function of three things:

- the table;
- the order of the pending rows;
- an oracle `attempts: nat -> Attempt`, which gives each send its clock reading, its new stanza id and whether the transport accepted it.

The imperative `SendMessages` loop is proved equal to `RunPass`. The ordering, stop-at-failure and "the rest stays pending" properties are lemmas about `RunPass`.

Files:

- `wrappers.dfy`: `Option`, `Result`.
- `java_strings.dfy`: `String.trim().isEmpty()`.
- `messages.dfy`: the message record, the packet, and the order on nullable timestamps.
- `message_store.dfy`: the table, its queries, and `findFirst` with the acknowledgment update.
- `delivery.dfy`: one send and one pass, as functions, with their lemmas.
- `abstract_chat.dfy`: the `AbstractChat` class.

Where the intended design of the engine and the code differ, the model follows the code:

- **The delay marker.** A message sent more than 60000 ms after its timestamp carries a delay extension holding the *current* send time, not the original creation time. The row's `delayTimestamp` is set to the current time too (`AbstractChat.java:484-486`, `:498`, `:535`).
- **A null prepared text.** The row is marked `error = true` *and* `sent = true`, no packet goes out, and the pass goes on with the next message (`:528-541`). It is therefore not left pending.
- **Notify before save.** The notification is raised inside `createMessageItem`, so it happens *before* the message is written (`:263-265`, `:343-351`).
- **Opening the chat.** Whether the chat opens is decided after the blank-text rule but *before* the outgoing and private-room rules clear the notify flag (`:305-317`). An outgoing message opens the chat; so does a notifying incoming message in an unaccepted private room, which then does not notify.
- **The resource.** A non-null resource is *not* copied onto the record. Only a null resource sets the empty resource (`:324-326`).

## Model

| member | source | states |
|---|---|---|
| Chat.AbstractChat.constructor | xabber/src/main/java/com/xabber/android/data/message/AbstractChat.java:102-117 | A new chat is closed, does not track status, has its first notification pending, is not accepted and was created now. Its user is the bare address unless it is a private-room chat. |
| Messages.UserJid.BareUserJid | xabber/src/main/java/com/xabber/android/data/message/AbstractChat.java:103 | The bare address keeps the bare part and drops the resource; an address without a resource is its own bare address. |
| Chat.AbstractChat.IsActive | xabber/src/main/java/com/xabber/android/data/message/AbstractChat.java:136-142 | An unaccepted private-room chat is never active; any other chat is active exactly when its `active` flag is set. |
| Chat.AbstractChat.OpenChat | xabber/src/main/java/com/xabber/android/data/message/AbstractChat.java:144-151 | Afterwards the chat is active and tracks status. The creation time becomes `now` only if the chat was inactive, so a second consecutive open leaves it unchanged. |
| Chat.AbstractChat.CloseChat | xabber/src/main/java/com/xabber/android/data/message/AbstractChat.java:153-160 | Afterwards the chat is inactive and its first notification is pending again. |
| Chat.AbstractChat.GetFirstNotification | xabber/src/main/java/com/xabber/android/data/message/AbstractChat.java:221-225 | Returns the flag as it was and leaves it false. Only the constructor and `CloseChat` set it, so it returns true at most once between closes. |
| Chat.AbstractChat.SetPrivateMucChatAccepted | xabber/src/main/java/com/xabber/android/data/message/AbstractChat.java:591-593 | The accepted gate takes the given value. |
| Chat.AbstractChat.OnPacket | xabber/src/main/java/com/xabber/android/data/message/AbstractChat.java:567-569 | An incoming stanza is for this chat exactly when its sender equals the chat's user (`accept`, lines 387-389); the stanza itself plays no part. |
| Chat.AbstractChat.UpdateThreadId | xabber/src/main/java/com/xabber/android/data/message/AbstractChat.java:553-558 | A null thread id keeps the current one; any other replaces it. |
| Chat.AbstractChat.CreateMessagePacket | xabber/src/main/java/com/xabber/android/data/message/AbstractChat.java:430-437 | The packet carries the given body, the chat's current thread id, its destination and its message type, and no delay. |
| JavaStrings.TrimIsEmptyIffBlank | xabber/src/main/java/com/xabber/android/data/message/AbstractChat.java:301 | `trim()` of a string is empty exactly when every char of it is at most U+0020. |
| JavaStrings.TrimIsEmpty | xabber/src/main/java/com/xabber/android/data/message/AbstractChat.java:301 | `text.trim().isEmpty()` holds exactly of the blank strings. |
| Chat.OpensChat | xabber/src/main/java/com/xabber/android/data/message/AbstractChat.java:301-307 | The chat opens for a notify hint on a text that is not blank after `trim()`, or for an outgoing message. |
| Chat.MayNotify | xabber/src/main/java/com/xabber/android/data/message/AbstractChat.java:301-317 | The effective notify flag: the hint, cleared by a blank text, by an outgoing message, and in a private room that is unaccepted or whose sender is blocked. |
| Chat.Raises | xabber/src/main/java/com/xabber/android/data/message/AbstractChat.java:343-351 | A notification is raised when the effective flag holds, message events are on, and the chat is off screen or notify-while-visible is on. |
| Chat.IsNewItem | xabber/src/main/java/com/xabber/android/data/message/AbstractChat.java:286-340 | The columns of a new record: null text as "", read unless an incoming non-action message of an off-screen chat, sent unless an outgoing non-action message, the empty resource only for a null resource, no error or acknowledgment, and the other columns as given. |
| Chat.AbstractChat.CreateMessageItem | xabber/src/main/java/com/xabber/android/data/message/AbstractChat.java:282-354 | Fails with IllegalArgument, changing nothing, exactly when both text and action are null. Otherwise the record is as `IsNewItem` says: read unless an off-screen incoming non-action message, sent unless an outgoing non-action message, null text as "". The chat opens exactly when `OpensChat` holds, with the creation time reset only if it was inactive. One notification carrying the record is logged exactly when `MayNotify` and the global and visibility settings allow it. A notified chat is active. |
| Chat.AbstractChat.BuildItem | xabber/src/main/java/com/xabber/android/data/message/AbstractChat.java:286-340 | The columns of a new record, as `IsNewItem` states them. |
| Chat.AbstractChat.RaiseNotification | xabber/src/main/java/com/xabber/android/data/message/AbstractChat.java:343-351 | A notification is logged exactly when notify is set, message events are on, and the chat is off screen or notify-while-visible is on. |
| Chat.AbstractChat.SaveMessageItem | xabber/src/main/java/com/xabber/android/data/message/AbstractChat.java:269-280 | The record is appended to the table and a save is logged. |
| Chat.AbstractChat.CreateAndSaveNewMessage | xabber/src/main/java/com/xabber/android/data/message/AbstractChat.java:260-267 | On success the record built by `CreateMessageItem`, as `IsNewItem` states it, is appended to the table. The log gains the notification, if any, *then* the save. The chat opens exactly when `OpensChat` holds, with the creation time reset only if it was inactive; otherwise `active`, `trackStatus` and the creation time are unchanged. On failure neither the chat nor the table changes. |
| Chat.AbstractChat.NewAction | xabber/src/main/java/com/xabber/android/data/message/AbstractChat.java:241-243 | An action is stored as the incoming record `IsNewItem` describes for its id, resource, text, action and time: sent, with no delay and no stanza id, and read if it has an action or the chat is visible. It neither opens the chat nor notifies: `active`, `trackStatus` and the creation time are unchanged, and only its save is logged. |
| Chat.AbstractChat.NewFileMessage | xabber/src/main/java/com/xabber/android/data/message/AbstractChat.java:356-382 | Appends an outgoing, read, sent, error-free row with the file's name as text and its path, stamped now, and returns its id. |
| Chat.AbstractChat.GetLastMessage | xabber/src/main/java/com/xabber/android/data/message/AbstractChat.java:391-394 | A cached last message exists only once the non-empty-text query has been opened. |
| Chat.AbstractChat.GetLastTime | xabber/src/main/java/com/xabber/android/data/message/AbstractChat.java:418-425 | Null exactly when there is no cached last message. Otherwise it is that message's timestamp, and a null timestamp fails with the unboxing exception. |
| MessageStore.LastTextMessage | xabber/src/main/java/com/xabber/android/data/message/AbstractChat.java:400-409 | The last element of the chat's non-empty-text query is absent exactly when the chat has no non-empty text. Otherwise it is such a row of the chat, with the greatest timestamp among them. |
| MessageStore.LastIsLatest | xabber/src/main/java/com/xabber/android/data/message/AbstractChat.java:409 | The last row of a query sorted by time is not earlier than any row of it. |
| Chat.AbstractChat.UpdateLastMessage | xabber/src/main/java/com/xabber/android/data/message/AbstractChat.java:396-413 | The first change opens the text query exactly when the chat's messages are loaded and non-empty, and caches nothing. Later changes replace the cache with `LastTextMessage` exactly when the text query is loaded and non-empty, and otherwise keep it. |
| MessageStore.Select | xabber/src/main/java/com/xabber/android/data/message/AbstractChat.java:455-458 | Picks exactly the rows of the chat that match the column condition, each once. |
| MessageStore.InsertByTime | xabber/src/main/java/com/xabber/android/data/message/AbstractChat.java:459 | Inserting into a time-sorted list keeps it sorted, adds exactly the new row (the multiset grows by it) and keeps the rows distinct. |
| MessageStore.SortByTime | xabber/src/main/java/com/xabber/android/data/message/AbstractChat.java:459 | The result is sorted ascending by timestamp and is a permutation of the input (same multiset), so it keeps the same rows and stays free of repeats. |
| MessageStore.Query | xabber/src/main/java/com/xabber/android/data/message/AbstractChat.java:455-459 | The query lists exactly the chat's rows matching the condition, each once, in ascending timestamp order. |
| Chat.AbstractChat.SendMessages | xabber/src/main/java/com/xabber/android/data/message/AbstractChat.java:449-474 | The pending list is the query for this chat's unsent rows. The new table, the number of rows handled and the packets sent are those of `RunPass` over that list. |
| Chat.AbstractChat.SendInOrder | xabber/src/main/java/com/xabber/android/data/message/AbstractChat.java:464-470 | The loop with `break` leaves the table, count and packets that `RunPass` specifies. |
| Chat.AbstractChat.SendMessage | xabber/src/main/java/com/xabber/android/data/message/AbstractChat.java:476-542 | Returns false and changes nothing exactly when `SendStep` says the transport refused. Otherwise the row becomes `SendStep`'s updated row, and the packet is the one it hands over. |
| Delivery.IsLate | xabber/src/main/java/com/xabber/android/data/message/AbstractChat.java:483-487 | A message is late when it has a timestamp and the current time exceeds it by more than 60000 ms; a null timestamp is never late. |
| Delivery.SendStep | xabber/src/main/java/com/xabber/android/data/message/AbstractChat.java:476-541 | One send of a row, as a function of the row, the prepared text, the attempt and the chat's addressing; its promises are stated by `SendStepContract`. |
| Delivery.RunPass | xabber/src/main/java/com/xabber/android/data/message/AbstractChat.java:464-470 | One pass over a list of rows: each row is sent on the table left by the previous sends, and the pass stops at the first refused send. The handled count lies between the start and the end of the list, and every packet is paired with the row it came from. |
| Delivery.SendStepContract | xabber/src/main/java/com/xabber/android/data/message/AbstractChat.java:476-541 | A refused send is exactly a sendable text on a down connection. An accepted send always sets `sent`. A null prepared text sends no packet and sets `error`; otherwise the stanza id is stored. The delay is the current time exactly when the message is over 60000 ms old. A null timestamp becomes now, and no other column changes. |
| Delivery.RunPassStep | xabber/src/main/java/com/xabber/android/data/message/AbstractChat.java:466-469 | A refused send ends the pass at that row with the table unchanged; an accepted one continues on the updated table and prepends its packet. |
| Delivery.PassFrame | xabber/src/main/java/com/xabber/android/data/message/AbstractChat.java:464-470 | A pass changes only the rows it handled, and packets come only from rows it handled. |
| Delivery.PassOutcome | xabber/src/main/java/com/xabber/android/data/message/AbstractChat.java:466-469 | Every handled row was accepted and holds the outcome of its own send on the original table. |
| Delivery.PassStops | xabber/src/main/java/com/xabber/android/data/message/AbstractChat.java:523-525 | A pass that ends before the last pending row ends at a send the transport refused. |
| Delivery.HandedInOrder | xabber/src/main/java/com/xabber/android/data/message/AbstractChat.java:464-470 | The handed rows are sorted by timestamp whenever the list is. |
| Delivery.DispatchInTimestampOrder | xabber/src/main/java/com/xabber/android/data/message/AbstractChat.java:455-470 | The rows whose packets a pass hands over are this chat's unsent rows only, in ascending timestamp order; with `PacketsFromHanded`, the packets themselves go out in that order, and with `PacketsComplete`, every handled row with a sendable text is among them. |
| Delivery.PacketsFromHanded | xabber/src/main/java/com/xabber/android/data/message/AbstractChat.java:489-503 | The `j`-th packet of a pass is the packet that the accepted send of its `j`-th handed row produced on the original table. |
| Delivery.HandedFollowsList | xabber/src/main/java/com/xabber/android/data/message/AbstractChat.java:464-503 | The rows a pass hands over are exactly the handled rows whose text the hook lets through, in the order of the list (`PreparedRows`): none is skipped and none is reordered, including rows with equal timestamps. |
| Delivery.PacketsComplete | xabber/src/main/java/com/xabber/android/data/message/AbstractChat.java:489-503 | Every row the pass handled whose text the hook lets through is among the rows handed to the transport. |
| Delivery.PendingAfterPass | xabber/src/main/java/com/xabber/android/data/message/AbstractChat.java:455-470 | After a pass, the chat's unsent rows are exactly the refused row and every later row of the list; everything before it is sent. |
| MessageStore.FindFirst | xabber/src/main/java/com/xabber/android/data/message/AbstractChat.java:510-513 | Finds the first row with the given unique id, or reports that there is none. |
| MessageStore.Acknowledge | xabber/src/main/java/com/xabber/android/data/message/AbstractChat.java:510-517 | Only the first row with the id becomes acknowledged. Without such a row the table is unchanged. |
| MessageStore.AcknowledgeIdempotent | xabber/src/main/java/com/xabber/android/data/message/AbstractChat.java:515-517 | A second receipt for the same message changes nothing more. |
| Chat.AbstractChat.OnAcknowledged | xabber/src/main/java/com/xabber/android/data/message/AbstractChat.java:503-522 | The receipt callback leaves the table as `Acknowledge` says. |

## Left out

- The Realm database mechanics are replaced by a synchronous in-memory `seq` of records with explicit calls. These cover default instances, async transactions, live queries and change listeners, and `copyToRealm` / `copyFromRealm`. The asynchronous `sendMessages` and `newFileMessage` transactions run to completion at the call.
- The sort of a Realm query by a nullable timestamp is modelled as a stable ascending sort in which null timestamps come first. Realm's order among equal timestamps is not specified, so the model keeps table order.
- The clock, `UUID.randomUUID()`, `StringUtils.randomString(12)` and the stanza id of a new packet are parameters. So are the visibility, notify-while-visible, global-notification and blocked-sender answers of the manager singletons.
- `StanzaSender.sendStanza` is an oracle outcome per send. The later acknowledgment is a separate call, `OnAcknowledged`.
- `prepareText` is the parameter `prepare`, since subclasses override it.
- `getTo` / `getType` are constants given at construction, since they are abstract in this class.
- `createNewMessageItem` is abstract and has no body here.
- Chat.AbstractChat.CreateMessageItem: `FileManager.processFileMessage` is a foreign call and is not modelled, so the contract says nothing about the file path.
- Chat.AbstractChat.SendMessage: `ChatStateManager` / `CarbonManager.updateOutgoingMessage` are foreign calls that may add extensions to the packet. They are not modelled.
- `EventBus.post(new NewMessageEvent())` is a broadcast to the UI and is not modelled.
- `NotificationManager.onMessageNotification` is an appended ghost event.
- `closeChat`'s release of its database handle is not modelled.
- `synchronized` and the constructor's `runOnUiThread(getMessages)` are concurrency concerns and are not modelled.
- `getMessages` and `getSyncInfo` only build live queries. The `lastSyncedTime` / `isRemotePreviousHistoryCompletelyLoaded` accessors only store values. `onComplete` / `onDisconnect` do nothing. None of these is modelled.
- Timestamps are unbounded integers. Java's 64-bit `long` arithmetic in `currentTime - timestamp` could overflow only for timestamps no clock produces.
- Chat.AbstractChat.GetLastMessage: the cached copy is a snapshot. The contract says only that it exists after the text query was opened. What it holds is stated by `UpdateLastMessage`.
