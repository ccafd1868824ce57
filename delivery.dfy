/**
 * What one send of a stored message does, and what one pass over a chat's
 * unsent messages does, as functions of the table, the clock and the transport.
 */
module Delivery {
  import opened Wrappers
  import opened Messages
  import opened MessageStore

  /** A message older than this many milliseconds is sent with a delay extension. */
  const DelayThreshold: int := 60000

  /**
   * What the environment supplies to one send: the clock reading, the id the
   * new stanza gets, and whether the transport accepts it (false: it throws
   * the network exception of a connection that is down).
   */
  datatype Attempt = Attempt(now: int, stanzaId: string, connected: bool)

  /** The chat's part of every packet: destination, message type, thread id. */
  datatype Addressing = Addressing(to: string, msgType: MessageType, thread: string)

  datatype StepResult =
    | NotConnected                                  // the transport threw: nothing changes
    | Sent(item: MessageItem, packet: Option<Packet>)  // the updated row and what went out

  /** Whether a message created at `timestamp` is late at `now`; a null timestamp never is. */
  predicate IsLate(timestamp: Option<int>, now: int) {
    timestamp.Some? && now - timestamp.value > DelayThreshold
  }

  /**
   * One send of `item`, whose text the chat's hook has turned into `prepared`
   * (null: the text is not to be sent).
   */
  function SendStep(item: MessageItem, prepared: Option<string>, a: Attempt, c: Addressing): StepResult
  {
    var delay := if IsLate(item.timestamp, a.now) then Some(a.now) else None;
    if prepared.Some? && !a.connected then NotConnected
    else
      var packet := if prepared.Some? then Some(Packet(c.to, c.msgType, prepared.value, c.thread, a.stanzaId, delay))
                    else None;
      var m := item.(error := if packet.None? then true else item.error,
                     stanzaId := if packet.Some? then Some(packet.value.stanzaId) else item.stanzaId,
                     delayTimestamp := if delay.Some? then delay else item.delayTimestamp,
                     timestamp := if item.timestamp.None? then Some(a.now) else item.timestamp,
                     sent := true);
      Sent(m, packet)
  }

  /**
   * What a send promises: the transport's refusal of a sendable text changes
   * nothing; otherwise the row ends up sent, with an error and no packet when
   * the text is not sendable, else with the packet's stanza id; a delay equal
   * to the current time exactly when the message is over a minute old; a
   * timestamp that is no longer null; and every other column as it was.
   */
  lemma SendStepContract(item: MessageItem, prepared: Option<string>, a: Attempt, c: Addressing)
    ensures var r := SendStep(item, prepared, a, c);
      && (r.NotConnected? <==> prepared.Some? && !a.connected)
      && (r.Sent? ==> SameButDelivery(item, r.item) && r.item.sent)
      && (r.Sent? ==> (r.packet.None? <==> prepared.None?))
      && (r.Sent? && prepared.None? ==> r.item.error && r.item.stanzaId == item.stanzaId)
      && (r.Sent? && prepared.Some? ==>
            r.item.error == item.error && r.item.stanzaId == Some(a.stanzaId) &&
            r.packet == Some(Packet(c.to, c.msgType, prepared.value, c.thread, a.stanzaId,
                                    if IsLate(item.timestamp, a.now) then Some(a.now) else None)))
      && (r.Sent? ==>
            r.item.delayTimestamp == if IsLate(item.timestamp, a.now) then Some(a.now) else item.delayTimestamp)
      && (r.Sent? ==> r.item.timestamp == Some(if item.timestamp.Some? then item.timestamp.value else a.now))
  {
  }

  /**
   * The outcome of a dispatch pass: the table afterwards, how many rows of the
   * pass were handled before it stopped, the packets handed to the transport
   * and the rows they came from, both in sending order.
   */
  datatype PassResult = PassResult(items: seq<MessageItem>, processed: nat, packets: seq<Packet>, handed: seq<nat>)

  /** The send of the `k`-th row of `order`, judged on the table `items`. */
  function StepAt(items: seq<MessageItem>, order: seq<nat>, k: nat, c: Addressing,
                  prepare: string -> Option<string>, attempts: nat -> Attempt): StepResult
    requires k < |order| && InRange(items, order)
  {
    SendStep(items[order[k]], prepare(items[order[k]].text), attempts(k), c)
  }

  /** Sends the rows `order[from..]` one after the other, stopping at the first transport failure. */
  function RunPass(items: seq<MessageItem>, order: seq<nat>, from: nat, c: Addressing,
                   prepare: string -> Option<string>, attempts: nat -> Attempt): (r: PassResult)
    requires from <= |order| && InRange(items, order)
    ensures from <= r.processed <= |order| && |r.items| == |items| && |r.packets| == |r.handed|
    decreases |order| - from
  {
    if from == |order| then PassResult(items, from, [], [])
    else
      match StepAt(items, order, from, c, prepare, attempts)
      case NotConnected => PassResult(items, from, [], [])
      case Sent(m, p) =>
        var rest := RunPass(items[order[from] := m], order, from + 1, c, prepare, attempts);
        if p.Some? then rest.(packets := [p.value] + rest.packets, handed := [order[from]] + rest.handed)
        else rest
  }

  /**
   * One step of a pass, field by field: a refused send of row `order[from]`
   * ends the pass there, an accepted one continues it on the updated table.
   */
  lemma RunPassStep(items: seq<MessageItem>, order: seq<nat>, from: nat, c: Addressing,
                    prepare: string -> Option<string>, attempts: nat -> Attempt)
    requires from < |order| && InRange(items, order)
    ensures var step := SendStep(items[order[from]], prepare(items[order[from]].text), attempts(from), c);
            var whole := RunPass(items, order, from, c, prepare, attempts);
      && (step.NotConnected? ==>
            whole.items == items && whole.processed == from && whole.packets == [] && whole.handed == [])
      && (step.Sent? ==>
            var rest := RunPass(items[order[from] := step.item], order, from + 1, c, prepare, attempts);
            && whole.items == rest.items && whole.processed == rest.processed
            && whole.packets == (if step.packet.Some? then [step.packet.value] + rest.packets else rest.packets)
            && whole.handed == (if step.packet.Some? then [order[from]] + rest.handed else rest.handed))
  {
  }

  /**
   * A pass touches only the rows it handled, stops inside the list, and hands
   * over packets only from rows it handled.
   */
  lemma {:induction false} PassFrame(items: seq<MessageItem>, order: seq<nat>, from: nat, c: Addressing,
                                     prepare: string -> Option<string>, attempts: nat -> Attempt)
    requires from <= |order| && InRange(items, order)
    ensures var r := RunPass(items, order, from, c, prepare, attempts);
      && (forall i :: 0 <= i < |items| && i !in order[from..r.processed] ==> r.items[i] == items[i])
      && (forall x :: x in r.handed ==> x in order[from..r.processed])
    decreases |order| - from
  {
    if from < |order| {
      var step := StepAt(items, order, from, c, prepare, attempts);
      RunPassStep(items, order, from, c, prepare, attempts);
      if step.Sent? {
        var next := items[order[from] := step.item];
        PassFrame(next, order, from + 1, c, prepare, attempts);
        var rest := RunPass(next, order, from + 1, c, prepare, attempts);
        assert order[from] in order[from..rest.processed];
        forall i | 0 <= i < |items| && i !in order[from..rest.processed] ensures rest.items[i] == items[i] {
          assert i !in order[from + 1..rest.processed];
        }
        forall x | x in rest.handed ensures x in order[from..rest.processed] {
          assert x in order[from + 1..rest.processed];
        }
      }
    }
  }

  /** Rewriting row `order[from]` leaves the later sends of a distinct order as they were. */
  lemma LaterStepsUnaffected(items: seq<MessageItem>, m: MessageItem, order: seq<nat>, from: nat, c: Addressing,
                             prepare: string -> Option<string>, attempts: nat -> Attempt)
    requires from < |order| && InRange(items, order) && Distinct(order)
    ensures forall k :: from < k < |order| ==>
      StepAt(items[order[from] := m], order, k, c, prepare, attempts) == StepAt(items, order, k, c, prepare, attempts)
  {
    forall k | from < k < |order|
      ensures StepAt(items[order[from] := m], order, k, c, prepare, attempts) == StepAt(items, order, k, c, prepare, attempts)
    {
      assert items[order[from] := m][order[k]] == items[order[k]];
    }
  }

  /** Over distinct rows, every handled row is the outcome of its own send on the original table. */
  lemma {:induction false} PassOutcome(items: seq<MessageItem>, order: seq<nat>, from: nat, c: Addressing,
                                       prepare: string -> Option<string>, attempts: nat -> Attempt)
    requires from <= |order| && InRange(items, order) && Distinct(order)
    ensures var r := RunPass(items, order, from, c, prepare, attempts);
      forall k :: from <= k < r.processed ==>
        StepAt(items, order, k, c, prepare, attempts).Sent? &&
        r.items[order[k]] == StepAt(items, order, k, c, prepare, attempts).item
    decreases |order| - from
  {
    if from < |order| {
      var step := StepAt(items, order, from, c, prepare, attempts);
      RunPassStep(items, order, from, c, prepare, attempts);
      if step.Sent? {
        PassOutcome(items[order[from] := step.item], order, from + 1, c, prepare, attempts);
        OutcomeAfterStep(items, order, from, c, prepare, attempts);
      }
    }
  }

  /** The inductive step of `PassOutcome`: from the outcome of the rest of the pass to that of the whole. */
  lemma OutcomeAfterStep(items: seq<MessageItem>, order: seq<nat>, from: nat, c: Addressing,
                         prepare: string -> Option<string>, attempts: nat -> Attempt)
    requires from < |order| && InRange(items, order) && Distinct(order)
    requires StepAt(items, order, from, c, prepare, attempts).Sent?
    requires var next := items[order[from] := StepAt(items, order, from, c, prepare, attempts).item];
             var r := RunPass(next, order, from + 1, c, prepare, attempts);
      forall k :: from + 1 <= k < r.processed ==>
        StepAt(next, order, k, c, prepare, attempts).Sent? &&
        r.items[order[k]] == StepAt(next, order, k, c, prepare, attempts).item
    ensures var next := items[order[from] := StepAt(items, order, from, c, prepare, attempts).item];
            var r := RunPass(next, order, from + 1, c, prepare, attempts);
      forall k :: from <= k < r.processed ==>
        StepAt(items, order, k, c, prepare, attempts).Sent? &&
        r.items[order[k]] == StepAt(items, order, k, c, prepare, attempts).item
  {
    var step := StepAt(items, order, from, c, prepare, attempts);
    var next := items[order[from] := step.item];
    PassFrame(next, order, from + 1, c, prepare, attempts);
    LaterStepsUnaffected(items, step.item, order, from, c, prepare, attempts);
    var r := RunPass(next, order, from + 1, c, prepare, attempts);
    assert order[from] !in order[from + 1..r.processed];
    forall k | from <= k < r.processed
      ensures StepAt(items, order, k, c, prepare, attempts).Sent?
      ensures r.items[order[k]] == StepAt(items, order, k, c, prepare, attempts).item
    {
      if k > from {
        assert StepAt(next, order, k, c, prepare, attempts) == StepAt(items, order, k, c, prepare, attempts);
      }
    }
  }

  /** Over distinct rows, a pass that stops before the end stops at a send the transport refused. */
  lemma {:induction false} PassStops(items: seq<MessageItem>, order: seq<nat>, from: nat, c: Addressing,
                                     prepare: string -> Option<string>, attempts: nat -> Attempt)
    requires from <= |order| && InRange(items, order) && Distinct(order)
    ensures var r := RunPass(items, order, from, c, prepare, attempts);
      r.processed < |order| ==> StepAt(items, order, r.processed, c, prepare, attempts).NotConnected?
    decreases |order| - from
  {
    if from < |order| {
      var step := StepAt(items, order, from, c, prepare, attempts);
      RunPassStep(items, order, from, c, prepare, attempts);
      if step.Sent? {
        var next := items[order[from] := step.item];
        PassStops(next, order, from + 1, c, prepare, attempts);
        LaterStepsUnaffected(items, step.item, order, from, c, prepare, attempts);
      }
    }
  }

  /** Prefixing a sorted list with a row not later than any of its rows keeps it sorted. */
  lemma ConsSorted(orig: seq<MessageItem>, a: nat, s: seq<nat>)
    requires SortedByTime(orig, s)
    requires forall x :: x in s ==> TimeLe(TimeOf(orig, a), TimeOf(orig, x))
    ensures SortedByTime(orig, [a] + s)
  {
    var h := [a] + s;
    forall p, q | 0 <= p < q < |h| ensures TimeLe(TimeOf(orig, h[p]), TimeOf(orig, h[q])) {
      if p == 0 {
        assert h[q] == s[q - 1];
      } else {
        assert h[p] == s[p - 1] && h[q] == s[q - 1];
      }
    }
  }

  /** In a sorted order, the rows after position `from` are not earlier than the row at `from`. */
  lemma LaterRowsNotEarlier(orig: seq<MessageItem>, order: seq<nat>, from: nat, hi: nat)
    requires from < hi <= |order| && SortedByTime(orig, order)
    ensures forall x :: x in order[from + 1..hi] ==> TimeLe(TimeOf(orig, order[from]), TimeOf(orig, x))
  {
    forall x | x in order[from + 1..hi] ensures TimeLe(TimeOf(orig, order[from]), TimeOf(orig, x)) {
      var k :| 0 <= k < |order[from + 1..hi]| && order[from + 1..hi][k] == x;
      assert order[from + 1 + k] == x;
    }
  }

  /**
   * The rows whose packets go out come in the order of `order[from..]`: if that
   * order is ascending by the timestamps of `orig`, so are the sent packets' rows.
   */
  lemma {:induction false} HandedInOrder(orig: seq<MessageItem>, items: seq<MessageItem>, order: seq<nat>, from: nat,
                                         c: Addressing, prepare: string -> Option<string>, attempts: nat -> Attempt)
    requires from <= |order| && InRange(items, order) && SortedByTime(orig, order)
    ensures SortedByTime(orig, RunPass(items, order, from, c, prepare, attempts).handed)
    decreases |order| - from
  {
    if from < |order| {
      var step := StepAt(items, order, from, c, prepare, attempts);
      RunPassStep(items, order, from, c, prepare, attempts);
      if step.Sent? {
        var next := items[order[from] := step.item];
        HandedInOrder(orig, next, order, from + 1, c, prepare, attempts);
        if step.packet.Some? {
          HandedPrefix(orig, next, order, from, c, prepare, attempts);
        }
      }
    }
  }

  /** The row sent first comes no later than every row the rest of a sorted pass sends. */
  lemma HandedPrefix(orig: seq<MessageItem>, next: seq<MessageItem>, order: seq<nat>, from: nat,
                     c: Addressing, prepare: string -> Option<string>, attempts: nat -> Attempt)
    requires from < |order| && InRange(next, order) && SortedByTime(orig, order)
    requires SortedByTime(orig, RunPass(next, order, from + 1, c, prepare, attempts).handed)
    ensures SortedByTime(orig, [order[from]] + RunPass(next, order, from + 1, c, prepare, attempts).handed)
  {
    PassFrame(next, order, from + 1, c, prepare, attempts);
    var rest := RunPass(next, order, from + 1, c, prepare, attempts);
    LaterRowsNotEarlier(orig, order, from, rest.processed);
    ConsSorted(orig, order[from], rest.handed);
  }

  /**
   * A pass over a chat's unsent messages hands them to the transport in
   * ascending timestamp order, and only messages of that chat that were unsent.
   */
  lemma DispatchInTimestampOrder(items: seq<MessageItem>, account: AccountJid, user: UserJid, c: Addressing,
                                 prepare: string -> Option<string>, attempts: nat -> Attempt)
    ensures var order := Query(items, account, user, Unsent);
            var r := RunPass(items, order, 0, c, prepare, attempts);
      && SortedByTime(items, r.handed)
      && forall x :: x in r.handed ==> x < |items| && Matches(items[x], account, user, Unsent)
  {
    var order := Query(items, account, user, Unsent);
    HandedInOrder(items, items, order, 0, c, prepare, attempts);
    PassFrame(items, order, 0, c, prepare, attempts);
  }

  /** Whether a send was accepted and handed `p` to the transport. */
  predicate Delivers(step: StepResult, p: Packet) {
    step.Sent? && step.packet == Some(p)
  }

  /** Packet `p` is the one the send of row `row`, at some position in `lo..hi` of `order`, produced. */
  predicate PacketTraced(items: seq<MessageItem>, order: seq<nat>, lo: nat, hi: nat, row: nat, p: Packet,
                         c: Addressing, prepare: string -> Option<string>, attempts: nat -> Attempt)
    requires hi <= |order| && InRange(items, order)
  {
    exists k :: lo <= k < hi && order[k] == row && Delivers(StepAt(items, order, k, c, prepare, attempts), p)
  }

  /**
   * The `j`-th packet of a pass over distinct rows is the packet of the send of
   * row `handed[j]`, judged on the original table: the bookkeeping of handed
   * rows follows the packets one for one.
   */
  lemma {:induction false} PacketsFromHanded(items: seq<MessageItem>, order: seq<nat>, from: nat, c: Addressing,
                                            prepare: string -> Option<string>, attempts: nat -> Attempt)
    requires from <= |order| && InRange(items, order) && Distinct(order)
    ensures var r := RunPass(items, order, from, c, prepare, attempts);
      forall j :: 0 <= j < |r.packets| ==>
        PacketTraced(items, order, from, r.processed, r.handed[j], r.packets[j], c, prepare, attempts)
    decreases |order| - from
  {
    if from < |order| {
      var step := StepAt(items, order, from, c, prepare, attempts);
      RunPassStep(items, order, from, c, prepare, attempts);
      if step.Sent? {
        var next := items[order[from] := step.item];
        var rest := RunPass(next, order, from + 1, c, prepare, attempts);
        PacketsFromHanded(next, order, from + 1, c, prepare, attempts);
        TracedRestOnOriginal(items, step.item, order, from, rest, c, prepare, attempts);
        if step.packet.Some? {
          assert PacketTraced(items, order, from, rest.processed, order[from], step.packet.value, c, prepare, attempts)
          by { assert Delivers(StepAt(items, order, from, c, prepare, attempts), step.packet.value); }
          ConsTraced(items, order, from, rest.processed, order[from], step.packet.value, rest.handed, rest.packets,
                     c, prepare, attempts);
        }
      }
    }
  }

  /** Packets of the rest of a pass, traced on the updated table, are traced on the original one. */
  lemma TracedRestOnOriginal(items: seq<MessageItem>, m: MessageItem, order: seq<nat>, from: nat, rest: PassResult,
                             c: Addressing, prepare: string -> Option<string>, attempts: nat -> Attempt)
    requires from < rest.processed <= |order| && InRange(items, order) && Distinct(order)
    requires |rest.packets| == |rest.handed|
    requires forall i :: 0 <= i < |rest.packets| ==>
      PacketTraced(items[order[from] := m], order, from + 1, rest.processed, rest.handed[i], rest.packets[i],
                   c, prepare, attempts)
    ensures forall i :: 0 <= i < |rest.packets| ==>
      PacketTraced(items, order, from, rest.processed, rest.handed[i], rest.packets[i], c, prepare, attempts)
  {
    forall i | 0 <= i < |rest.packets|
      ensures PacketTraced(items, order, from, rest.processed, rest.handed[i], rest.packets[i], c, prepare, attempts)
    {
      TracedOnOriginal(items, m, order, from, rest.processed, rest.handed[i], rest.packets[i], c, prepare, attempts);
    }
  }

  /** Putting a traced packet and its row in front keeps every packet traced to its row. */
  lemma ConsTraced(items: seq<MessageItem>, order: seq<nat>, lo: nat, hi: nat, row: nat, p: Packet,
                   handed: seq<nat>, packets: seq<Packet>,
                   c: Addressing, prepare: string -> Option<string>, attempts: nat -> Attempt)
    requires hi <= |order| && InRange(items, order) && |packets| == |handed|
    requires PacketTraced(items, order, lo, hi, row, p, c, prepare, attempts)
    requires forall i :: 0 <= i < |packets| ==>
      PacketTraced(items, order, lo, hi, handed[i], packets[i], c, prepare, attempts)
    ensures forall j :: 0 <= j < |[p] + packets| ==>
      PacketTraced(items, order, lo, hi, ([row] + handed)[j], ([p] + packets)[j], c, prepare, attempts)
  {
    forall j | 0 <= j < |[p] + packets|
      ensures PacketTraced(items, order, lo, hi, ([row] + handed)[j], ([p] + packets)[j], c, prepare, attempts)
    {
      if j > 0 {
        assert ([row] + handed)[j] == handed[j - 1] && ([p] + packets)[j] == packets[j - 1];
      }
    }
  }

  /** A packet traced to a later row on the updated table is traced to it on the original one. */
  lemma TracedOnOriginal(items: seq<MessageItem>, m: MessageItem, order: seq<nat>, from: nat, hi: nat,
                         row: nat, p: Packet, c: Addressing, prepare: string -> Option<string>, attempts: nat -> Attempt)
    requires from < hi <= |order| && InRange(items, order) && Distinct(order)
    requires PacketTraced(items[order[from] := m], order, from + 1, hi, row, p, c, prepare, attempts)
    ensures PacketTraced(items, order, from, hi, row, p, c, prepare, attempts)
  {
    var k :| from + 1 <= k < hi && order[k] == row &&
             Delivers(StepAt(items[order[from] := m], order, k, c, prepare, attempts), p);
    assert items[order[from] := m][order[k]] == items[order[k]];
  }

  /**
   * The rows at positions `lo..hi` of `order` whose text the chat's hook lets
   * through, kept in the order of the list.
   */
  function PreparedRows(items: seq<MessageItem>, order: seq<nat>, lo: nat, hi: nat,
                        prepare: string -> Option<string>): (r: seq<nat>)
    requires lo <= hi <= |order| && InRange(items, order)
    ensures forall k :: lo <= k < hi && prepare(items[order[k]].text).Some? ==> order[k] in r
    ensures forall x :: x in r ==> exists k :: lo <= k < hi && order[k] == x && prepare(items[order[k]].text).Some?
    decreases hi - lo
  {
    if lo == hi then []
    else
      var rest := PreparedRows(items, order, lo + 1, hi, prepare);
      (if prepare(items[order[lo]].text).Some? then [order[lo]] else []) + rest
  }

  /** Updating row `order[from]` does not change which later positions are let through. */
  lemma {:induction false} PreparedRowsUnaffected(items: seq<MessageItem>, m: MessageItem, order: seq<nat>,
                                                  from: nat, lo: nat, hi: nat, prepare: string -> Option<string>)
    requires from < lo <= hi <= |order| && InRange(items, order) && Distinct(order)
    ensures PreparedRows(items[order[from] := m], order, lo, hi, prepare) == PreparedRows(items, order, lo, hi, prepare)
    decreases hi - lo
  {
    if lo < hi {
      var next := items[order[from] := m];
      assert next[order[lo]] == items[order[lo]];
      PreparedRowsUnaffected(items, m, order, from, lo + 1, hi, prepare);
      var head := if prepare(items[order[lo]].text).Some? then [order[lo]] else [];
      assert PreparedRows(next, order, lo, hi, prepare) == head + PreparedRows(next, order, lo + 1, hi, prepare);
      assert PreparedRows(items, order, lo, hi, prepare) == head + PreparedRows(items, order, lo + 1, hi, prepare);
    }
  }

  /**
   * The rows a pass hands over are exactly the handled rows whose text the hook
   * lets through, in the order of the list: none is skipped, none is reordered.
   */
  lemma {:induction false} HandedFollowsList(items: seq<MessageItem>, order: seq<nat>, from: nat, c: Addressing,
                                            prepare: string -> Option<string>, attempts: nat -> Attempt)
    requires from <= |order| && InRange(items, order) && Distinct(order)
    ensures var r := RunPass(items, order, from, c, prepare, attempts);
      r.handed == PreparedRows(items, order, from, r.processed, prepare)
    decreases |order| - from
  {
    if from < |order| {
      var step := StepAt(items, order, from, c, prepare, attempts);
      RunPassStep(items, order, from, c, prepare, attempts);
      if step.Sent? {
        var next := items[order[from] := step.item];
        var rest := RunPass(next, order, from + 1, c, prepare, attempts);
        HandedFollowsList(next, order, from + 1, c, prepare, attempts);
        PreparedRowsUnaffected(items, step.item, order, from, from + 1, rest.processed, prepare);
        SendStepContract(items[order[from]], prepare(items[order[from]].text), attempts(from), c);
      }
    }
  }

  /** Every handled row whose text the hook lets through is handed to the transport. */
  lemma PacketsComplete(items: seq<MessageItem>, order: seq<nat>, from: nat, c: Addressing,
                        prepare: string -> Option<string>, attempts: nat -> Attempt)
    requires from <= |order| && InRange(items, order) && Distinct(order)
    ensures var r := RunPass(items, order, from, c, prepare, attempts);
      forall k :: from <= k < r.processed && prepare(items[order[k]].text).Some? ==> order[k] in r.handed
  {
    HandedFollowsList(items, order, from, c, prepare, attempts);
  }

  /**
   * After a pass over a chat's unsent messages, the chat's unsent messages are
   * exactly those from the one the transport refused onwards: the next pass
   * starts where this one stopped.
   */
  lemma PendingAfterPass(items: seq<MessageItem>, account: AccountJid, user: UserJid, c: Addressing,
                         prepare: string -> Option<string>, attempts: nat -> Attempt)
    ensures var order := Query(items, account, user, Unsent);
            var r := RunPass(items, order, 0, c, prepare, attempts);
      forall i :: 0 <= i < |items| ==>
        (i in Query(r.items, account, user, Unsent) <==> i in order[r.processed..])
  {
    var order := Query(items, account, user, Unsent);
    var r := RunPass(items, order, 0, c, prepare, attempts);
    PassFrame(items, order, 0, c, prepare, attempts);
    PassOutcome(items, order, 0, c, prepare, attempts);
    forall i | 0 <= i < |items|
      ensures i in Query(r.items, account, user, Unsent) <==> i in order[r.processed..]
    {
      if i in order[..r.processed] {
        var k :| 0 <= k < r.processed && order[k] == i;
        SendStepContract(items[i], prepare(items[i].text), attempts(k), c);
        assert r.items[i].sent;
        assert i !in order[r.processed..];
      } else {
        assert i !in order[..r.processed];
        assert r.items[i] == items[i];
        assert i in order <==> i in order[..r.processed] || i in order[r.processed..];
      }
    }
  }
}
