/**
 * The message table: all chats' messages as one sequence of records. Its queries
 * (filter by chat and a column, sorted ascending by timestamp) are functions of
 * the sequence; a row is named by its index.
 */
module MessageStore {
  import opened Wrappers
  import opened Messages

  /** The column conditions the chat engine queries by. */
  datatype Filter =
    | AllOfChat     // every message of the chat
    | Unsent        // `sent == false`
    | NonEmptyText  // `not().isEmpty(text)`

  predicate Matches(m: MessageItem, account: AccountJid, user: UserJid, f: Filter) {
    m.account == account && m.user == user &&
    match f
    case AllOfChat => true
    case Unsent => !m.sent
    case NonEmptyText => m.text != []
  }

  /** The timestamp of row `i`, null for an index outside the table. */
  function TimeOf(items: seq<MessageItem>, i: nat): Option<int> {
    if i < |items| then items[i].timestamp else None
  }

  predicate Distinct(s: seq<nat>) {
    forall p, q :: 0 <= p < q < |s| ==> s[p] != s[q]
  }

  predicate InRange(items: seq<MessageItem>, s: seq<nat>) {
    forall k :: 0 <= k < |s| ==> s[k] < |items|
  }

  predicate SortedByTime(items: seq<MessageItem>, s: seq<nat>) {
    forall p, q :: 0 <= p < q < |s| ==> TimeLe(TimeOf(items, s[p]), TimeOf(items, s[q]))
  }

  /** The rows below `n` that match, in table order. */
  function Select(items: seq<MessageItem>, account: AccountJid, user: UserJid, f: Filter, n: nat): (r: seq<nat>)
    requires n <= |items|
    ensures forall k :: 0 <= k < |r| ==> r[k] < n && Matches(items[r[k]], account, user, f)
    ensures forall i :: 0 <= i < n && Matches(items[i], account, user, f) ==> i in r
    ensures Distinct(r)
  {
    if n == 0 then []
    else
      var prefix := Select(items, account, user, f, n - 1);
      if Matches(items[n - 1], account, user, f) then prefix + [n - 1] else prefix
  }

  /** Places row `i` after every row of `s` whose timestamp is not later than its own. */
  function InsertByTime(items: seq<MessageItem>, s: seq<nat>, i: nat): (r: seq<nat>)
    requires SortedByTime(items, s)
    ensures SortedByTime(items, r)
    ensures |r| == |s| + 1
    ensures forall x :: x in r <==> x in s || x == i
    ensures i !in s && Distinct(s) ==> Distinct(r)
    ensures multiset(r) == multiset(s) + multiset{i}
  {
    if s == [] then [i]
    else if TimeLt(TimeOf(items, i), TimeOf(items, s[0])) then [i] + s
    else
      var rest := InsertByTime(items, s[1..], i);
      InsertAfterFirst(items, s, i, rest);
      [s[0]] + rest
  }

  /** The recursive case of InsertByTime: keeping the first row in front of the insertion into the others. */
  lemma InsertAfterFirst(items: seq<MessageItem>, s: seq<nat>, i: nat, rest: seq<nat>)
    requires s != [] && SortedByTime(items, s) && !TimeLt(TimeOf(items, i), TimeOf(items, s[0]))
    requires SortedByTime(items, rest) && |rest| == |s|
    requires multiset(rest) == multiset(s[1..]) + multiset{i}
    requires i !in s[1..] && Distinct(s[1..]) ==> Distinct(rest)
    ensures SortedByTime(items, [s[0]] + rest)
    ensures forall x :: x in [s[0]] + rest <==> x in s || x == i
    ensures i !in s && Distinct(s) ==> Distinct([s[0]] + rest)
    ensures multiset([s[0]] + rest) == multiset(s) + multiset{i}
  {
    assert s == [s[0]] + s[1..];
    assert forall x :: x in rest <==> x in multiset(rest);
    FirstNotAfterInsert(items, s, i, rest);
    ConsSortedRows(items, s[0], rest);
    if i !in s && Distinct(s) {
      assert s[0] !in s[1..] && s[0] !in rest;
      ConsDistinct(s[0], rest);
    }
  }

  lemma ConsSortedRows(items: seq<MessageItem>, a: nat, s: seq<nat>)
    requires SortedByTime(items, s)
    requires forall x :: x in s ==> TimeLe(TimeOf(items, a), TimeOf(items, x))
    ensures SortedByTime(items, [a] + s)
  {
    var h := [a] + s;
    forall p, q | 0 <= p < q < |h| ensures TimeLe(TimeOf(items, h[p]), TimeOf(items, h[q])) {
      assert h[q] == s[q - 1];
      if p > 0 {
        assert h[p] == s[p - 1];
      }
    }
  }

  lemma ConsDistinct(a: nat, s: seq<nat>)
    requires Distinct(s) && a !in s
    ensures Distinct([a] + s)
  {
    var h := [a] + s;
    forall p, q | 0 <= p < q < |h| ensures h[p] != h[q] {
      assert h[q] == s[q - 1];
      if p > 0 {
        assert h[p] == s[p - 1];
      }
    }
  }

  lemma FirstNotAfterInsert(items: seq<MessageItem>, s: seq<nat>, i: nat, rest: seq<nat>)
    requires s != [] && SortedByTime(items, s) && !TimeLt(TimeOf(items, i), TimeOf(items, s[0]))
    requires forall x :: x in rest ==> x in s[1..] || x == i
    ensures forall x :: x in rest ==> TimeLe(TimeOf(items, s[0]), TimeOf(items, x))
  {
    forall x | x in rest ensures TimeLe(TimeOf(items, s[0]), TimeOf(items, x)) {
      if x != i {
        var k :| 0 <= k < |s[1..]| && s[1..][k] == x;
        assert s[k + 1] == x;
      }
    }
  }

  /** Sorts rows ascending by timestamp, keeping the given order among equal timestamps. */
  function SortByTime(items: seq<MessageItem>, s: seq<nat>): (r: seq<nat>)
    ensures SortedByTime(items, r)
    ensures |r| == |s|
    ensures forall x :: x in r <==> x in s
    ensures Distinct(s) ==> Distinct(r)
    ensures multiset(r) == multiset(s)
  {
    if s == [] then []
    else
      var init := s[..|s| - 1];
      assert forall x :: x in s <==> x in init || x == s[|s| - 1];
      assert s == init + [s[|s| - 1]];
      InsertByTime(items, SortByTime(items, init), s[|s| - 1])
  }

  /** A query on the table: the chat's rows matching `f`, ascending by timestamp. */
  function Query(items: seq<MessageItem>, account: AccountJid, user: UserJid, f: Filter): (r: seq<nat>)
    ensures InRange(items, r) && Distinct(r) && SortedByTime(items, r)
    ensures forall k :: 0 <= k < |r| ==> Matches(items[r[k]], account, user, f)
    ensures forall i :: 0 <= i < |items| ==> (i in r <==> Matches(items[i], account, user, f))
  {
    var selected := Select(items, account, user, f, |items|);
    assert forall x :: x in selected ==> x < |items| && Matches(items[x], account, user, f);
    var r := SortByTime(items, selected);
    assert forall k :: 0 <= k < |r| ==> r[k] in selected;
    r
  }

  /** The last row of a sorted query has the greatest timestamp of all its rows. */
  lemma {:induction false} LastIsLatest(items: seq<MessageItem>, s: seq<nat>)
    requires s != [] && SortedByTime(items, s)
    ensures forall x :: x in s ==> TimeLe(TimeOf(items, x), TimeOf(items, s[|s| - 1]))
  {
    forall x | x in s ensures TimeLe(TimeOf(items, x), TimeOf(items, s[|s| - 1])) {
      var p :| 0 <= p < |s| && s[p] == x;
      if p == |s| - 1 {
        assert TimeLe(TimeOf(items, x), TimeOf(items, x));
      }
    }
  }

  /**
   * The last element of the chat's non-empty-text query: the chat's latest
   * message with a non-empty text, if it has one.
   */
  function LastTextMessage(items: seq<MessageItem>, account: AccountJid, user: UserJid): (r: Option<MessageItem>)
    ensures r.None? <==> forall i :: 0 <= i < |items| ==> !Matches(items[i], account, user, NonEmptyText)
    ensures r.Some? ==> r.value in items && Matches(r.value, account, user, NonEmptyText)
    ensures r.Some? ==> forall i :: 0 <= i < |items| && Matches(items[i], account, user, NonEmptyText) ==>
                          TimeLe(items[i].timestamp, r.value.timestamp)
  {
    var q := Query(items, account, user, NonEmptyText);
    if q == [] then None
    else
      LastIsLatest(items, q);
      Some(items[q[|q| - 1]])
  }

  /** The first row whose unique id is `id` (`findFirst` on the id column). */
  function FindFirst(items: seq<MessageItem>, id: string): (r: Option<nat>)
    ensures r.Some? ==> r.value < |items| && items[r.value].uniqueId == id
    ensures r.Some? ==> forall j :: 0 <= j < r.value ==> items[j].uniqueId != id
    ensures r.None? ==> forall j :: 0 <= j < |items| ==> items[j].uniqueId != id
  {
    if items == [] then None
    else if items[0].uniqueId == id then Some(0)
    else
      match FindFirst(items[1..], id)
      case None => None
      case Some(k) => Some(k + 1)
  }

  /**
   * The table after a delivery receipt for message `id`: that row, if it exists,
   * is marked acknowledged and every other row is kept.
   */
  function Acknowledge(items: seq<MessageItem>, id: string): (r: seq<MessageItem>)
    ensures |r| == |items|
    ensures (forall j :: 0 <= j < |items| ==> items[j].uniqueId != id) ==> r == items
    ensures forall j :: 0 <= j < |items| ==>
              r[j] == if items[j].uniqueId == id && FindFirst(items, id) == Some(j)
                      then items[j].(acknowledged := true) else items[j]
  {
    match FindFirst(items, id)
    case None => items
    case Some(k) => items[k := items[k].(acknowledged := true)]
  }

  /** A second receipt for the same message changes nothing more. */
  lemma {:induction false} AcknowledgeIdempotent(items: seq<MessageItem>, id: string)
    ensures Acknowledge(Acknowledge(items, id), id) == Acknowledge(items, id)
  {
    var once := Acknowledge(items, id);
    match FindFirst(items, id)
    case None =>
    case Some(k) =>
      assert forall j :: 0 <= j < |items| ==> once[j].uniqueId == items[j].uniqueId;
      assert FindFirst(once, id) == Some(k);
  }

  /** The database holding every chat's messages. */
  class Store {
    var items: seq<MessageItem>

    constructor ()
      ensures items == []
    {
      items := [];
    }
  }
}
