/** The dispatch table and the two queries that open a dispatch step: the first
    ready pending row in (campaignId, contact, messageOrder, createdAt) order,
    and the batch of ready pending rows of that row's campaign, contact and
    session, in messageOrder order. A row's position in the table is its id;
    rows whose sort keys tie are taken in table order. */
module Selection {
  import opened Js

  /** A row's stored status. This worker writes only `sent` and `failed` and
      reads only `pending`; `Processing` stands for any other stored status,
      which the worker neither selects nor changes. */
  datatype Status = Pending | Processing | Sent | Failed

  /** One row of the campaign dispatch table. Timestamps are milliseconds. */
  datatype Dispatch = Dispatch(
    campaignId: int,
    contact: string,
    sessionName: string,
    messageOrder: int,
    createdAt: int,
    scheduledAt: Option<int>,
    message: Option<string>,
    status: Status,
    error: Option<string>)

  /** Pending, and either unscheduled or scheduled no later than now. */
  predicate Ready(d: Dispatch, now: int) {
    d.status == Pending && (d.scheduledAt.None? || d.scheduledAt.value <= now)
  }

  // ---------------------------------------------------------------------------
  // The sort order
  // ---------------------------------------------------------------------------

  /** Lexicographic order of strings by character code; a proper prefix comes first. */
  predicate StringLt(a: string, b: string)
    decreases |a|
  {
    if a == [] then b != []
    else if b == [] then false
    else a[0] < b[0] || (a[0] == b[0] && StringLt(a[1..], b[1..]))
  }

  lemma {:induction false} StringLtIrreflexive(a: string)
    ensures !StringLt(a, a)
    decreases |a|
  {
    if a != [] {
      StringLtIrreflexive(a[1..]);
    }
  }

  lemma {:induction false} StringLtTransitive(a: string, b: string, c: string)
    requires StringLt(a, b) && StringLt(b, c)
    ensures StringLt(a, c)
    decreases |a|
  {
    if a != [] && a[0] == b[0] && b[0] == c[0] {
      StringLtTransitive(a[1..], b[1..], c[1..]);
    }
  }

  lemma {:induction false} StringLtTotal(a: string, b: string)
    ensures a == b || StringLt(a, b) || StringLt(b, a)
    decreases |a|
  {
    if a != [] && b != [] && a[0] == b[0] {
      StringLtTotal(a[1..], b[1..]);
      if a[1..] == b[1..] {
        assert a == [a[0]] + a[1..] && b == [b[0]] + b[1..];
      }
    }
  }

  datatype SortKey = SortKey(campaignId: int, contact: string, messageOrder: int, createdAt: int)

  function KeyOf(d: Dispatch): SortKey {
    SortKey(d.campaignId, d.contact, d.messageOrder, d.createdAt)
  }

  /** `orderBy: [campaignId, contact, messageOrder, createdAt]`, all ascending. */
  predicate KeyLt(a: SortKey, b: SortKey) {
    a.campaignId < b.campaignId ||
    (a.campaignId == b.campaignId &&
      (StringLt(a.contact, b.contact) ||
        (a.contact == b.contact &&
          (a.messageOrder < b.messageOrder ||
            (a.messageOrder == b.messageOrder && a.createdAt < b.createdAt)))))
  }

  lemma KeyLtIrreflexive(a: SortKey)
    ensures !KeyLt(a, a)
  {
    StringLtIrreflexive(a.contact);
  }

  lemma KeyLtTransitive(a: SortKey, b: SortKey, c: SortKey)
    requires KeyLt(a, b) && KeyLt(b, c)
    ensures KeyLt(a, c)
  {
    if a.campaignId == b.campaignId == c.campaignId {
      if StringLt(a.contact, b.contact) && StringLt(b.contact, c.contact) {
        StringLtTransitive(a.contact, b.contact, c.contact);
      }
    }
  }

  lemma KeyLtTotal(a: SortKey, b: SortKey)
    ensures a == b || KeyLt(a, b) || KeyLt(b, a)
  {
    StringLtTotal(a.contact, b.contact);
  }

  /** Strictly below one key and not below another: strictly below the other. */
  lemma KeyLtBeforeLe(a: SortKey, b: SortKey, c: SortKey)
    requires KeyLt(a, b) && !KeyLt(c, b)
    ensures KeyLt(a, c)
  {
    KeyLtTotal(a, c);
    if KeyLt(c, a) {
      KeyLtTransitive(c, a, b);
    }
  }

  // ---------------------------------------------------------------------------
  // findFirst: the row a dispatch step starts from
  // ---------------------------------------------------------------------------

  /** The least ready row among the first n, in key order, the earliest in the table among equal keys. */
  function FirstReadyIn(rows: seq<Dispatch>, now: int, n: nat): (r: Option<nat>)
    requires n <= |rows|
    ensures r.None? <==> forall j :: 0 <= j < n ==> !Ready(rows[j], now)
    ensures r.Some? ==> r.value < n && Ready(rows[r.value], now)
    decreases n
  {
    if n == 0 then None
    else
      var prev := FirstReadyIn(rows, now, n - 1);
      if Ready(rows[n - 1], now) && (prev.None? || KeyLt(KeyOf(rows[n - 1]), KeyOf(rows[prev.value]))) then
        Some(n - 1)
      else
        prev
  }

  function FirstReady(rows: seq<Dispatch>, now: int): Option<nat> {
    FirstReadyIn(rows, now, |rows|)
  }

  /** Row i is the one findFirst returns: ready, no ready row sorts before it,
      and every ready row that precedes it in the table sorts strictly after it. */
  predicate IsFirstReady(rows: seq<Dispatch>, now: int, i: nat) {
    i < |rows| && Ready(rows[i], now) &&
    (forall j :: 0 <= j < |rows| && Ready(rows[j], now) ==> !KeyLt(KeyOf(rows[j]), KeyOf(rows[i]))) &&
    (forall j :: 0 <= j < i && Ready(rows[j], now) ==> KeyLt(KeyOf(rows[i]), KeyOf(rows[j])))
  }

  lemma {:induction false} FirstReadyInIsLeast(rows: seq<Dispatch>, now: int, n: nat)
    requires n <= |rows| && FirstReadyIn(rows, now, n).Some?
    ensures var i := FirstReadyIn(rows, now, n).value;
      (forall j :: 0 <= j < n && Ready(rows[j], now) ==> !KeyLt(KeyOf(rows[j]), KeyOf(rows[i]))) &&
      (forall j :: 0 <= j < i && Ready(rows[j], now) ==> KeyLt(KeyOf(rows[i]), KeyOf(rows[j])))
    decreases n
  {
    var prev := FirstReadyIn(rows, now, n - 1);
    var d := rows[n - 1];
    if prev.Some? {
      FirstReadyInIsLeast(rows, now, n - 1);
    }
    if Ready(d, now) && (prev.None? || KeyLt(KeyOf(d), KeyOf(rows[prev.value]))) {
      KeyLtIrreflexive(KeyOf(d));
      forall j | 0 <= j < n - 1 && Ready(rows[j], now)
        ensures !KeyLt(KeyOf(rows[j]), KeyOf(d)) && KeyLt(KeyOf(d), KeyOf(rows[j]))
      {
        var p := prev.value;
        KeyLtBeforeLe(KeyOf(d), KeyOf(rows[p]), KeyOf(rows[j]));
        if KeyLt(KeyOf(rows[j]), KeyOf(d)) {
          KeyLtTransitive(KeyOf(rows[j]), KeyOf(d), KeyOf(rows[j]));
          KeyLtIrreflexive(KeyOf(rows[j]));
        }
      }
    } else {
      var i := prev.value;
      if Ready(d, now) {
        assert !KeyLt(KeyOf(d), KeyOf(rows[i]));
      }
    }
  }

  /** findFirst returns a row exactly when some row is ready, and the row it
      returns is the one `IsFirstReady` describes, and no other. */
  lemma FirstReadyCharacterized(rows: seq<Dispatch>, now: int, i: nat)
    ensures FirstReady(rows, now).None? <==> forall j :: 0 <= j < |rows| ==> !Ready(rows[j], now)
    ensures FirstReady(rows, now) == Some(i) <==> IsFirstReady(rows, now, i)
  {
    if FirstReady(rows, now).Some? {
      FirstReadyInIsLeast(rows, now, |rows|);
    }
  }

  // ---------------------------------------------------------------------------
  // findMany: the batch of the selected row's contact
  // ---------------------------------------------------------------------------

  predicate SameGroup(d: Dispatch, head: Dispatch) {
    d.campaignId == head.campaignId && d.contact == head.contact && d.sessionName == head.sessionName
  }

  predicate InBatch(d: Dispatch, head: Dispatch, now: int) {
    Ready(d, now) && SameGroup(d, head)
  }

  /** The ids of the batch rows among the first n, in table order. */
  function Members(rows: seq<Dispatch>, head: Dispatch, now: int, n: nat): (r: seq<nat>)
    requires n <= |rows|
    ensures ValidIds(rows, r)
    decreases n
  {
    if n == 0 then []
    else Members(rows, head, now, n - 1) + (if InBatch(rows[n - 1], head, now) then [n - 1] else [])
  }

  lemma {:induction false} MembersAreTheBatch(rows: seq<Dispatch>, head: Dispatch, now: int, n: nat)
    requires n <= |rows|
    ensures var r := Members(rows, head, now, n);
      (forall k :: 0 <= k < |r| ==> r[k] < n) &&
      (forall i: int :: i in r <==> 0 <= i < n && InBatch(rows[i], head, now)) &&
      (forall p, q :: 0 <= p < q < |r| ==> r[p] < r[q])
    decreases n
  {
    if n > 0 {
      MembersAreTheBatch(rows, head, now, n - 1);
    }
  }

  /** messageOrder ascending; equal orders keep table order. */
  predicate OrderLt(rows: seq<Dispatch>, x: nat, y: nat)
    requires x < |rows| && y < |rows|
  {
    rows[x].messageOrder < rows[y].messageOrder || (rows[x].messageOrder == rows[y].messageOrder && x < y)
  }

  predicate ValidIds(rows: seq<Dispatch>, s: seq<nat>) {
    forall i :: 0 <= i < |s| ==> s[i] < |rows|
  }

  predicate SortedByOrder(rows: seq<Dispatch>, s: seq<nat>) {
    ValidIds(rows, s) && forall p, q :: 0 <= p < q < |s| ==> OrderLt(rows, s[p], s[q])
  }

  /** Insertion of id x into a list sorted by `OrderLt`. */
  function Insert(rows: seq<Dispatch>, s: seq<nat>, x: nat): (r: seq<nat>)
    requires x < |rows| && ValidIds(rows, s)
    ensures ValidIds(rows, r)
    decreases |s|
  {
    if s == [] || OrderLt(rows, x, s[0]) then [x] + s
    else [s[0]] + Insert(rows, s[1..], x)
  }

  lemma {:induction false} InsertSorted(rows: seq<Dispatch>, s: seq<nat>, x: nat)
    requires x < |rows| && SortedByOrder(rows, s) && x !in s
    ensures var r := Insert(rows, s, x);
      SortedByOrder(rows, r) && (forall y :: y in r <==> y in s || y == x) && |r| == |s| + 1
    decreases |s|
  {
    if s == [] {
    } else if OrderLt(rows, x, s[0]) {
      forall z | z in s ensures OrderLt(rows, x, z) {
        var q :| 0 <= q < |s| && s[q] == z;
      }
      ConsSorted(rows, x, s);
    } else {
      var rest := Insert(rows, s[1..], x);
      SortedTail(rows, s);
      InsertSorted(rows, s[1..], x);
      forall z | z in rest ensures OrderLt(rows, s[0], z) {
        if z != x {
          var q :| 0 <= q < |s[1..]| && s[1..][q] == z;
          assert s[q + 1] == z;
        }
      }
      ConsSorted(rows, s[0], rest);
    }
  }

  lemma SortedTail(rows: seq<Dispatch>, s: seq<nat>)
    requires SortedByOrder(rows, s) && s != []
    ensures SortedByOrder(rows, s[1..]) && s[0] !in s[1..]
  {
    forall p, q | 0 <= p < q < |s[1..]| ensures OrderLt(rows, s[1..][p], s[1..][q]) {
      assert s[1..][p] == s[p + 1] && s[1..][q] == s[q + 1];
    }
  }

  lemma ConsSorted(rows: seq<Dispatch>, y: nat, r: seq<nat>)
    requires y < |rows| && SortedByOrder(rows, r)
    requires forall z :: z in r ==> OrderLt(rows, y, z)
    ensures SortedByOrder(rows, [y] + r)
  {
    var s := [y] + r;
    forall p, q | 0 <= p < q < |s| ensures OrderLt(rows, s[p], s[q]) {
      assert s[q] == r[q - 1];
      if p > 0 {
        assert s[p] == r[p - 1];
      } else {
        assert s[q] in r;
      }
    }
  }

  /** Insertion sort of a list of ids by `OrderLt`. */
  function SortByOrder(rows: seq<Dispatch>, s: seq<nat>): (r: seq<nat>)
    requires ValidIds(rows, s)
    ensures ValidIds(rows, r)
    decreases |s|
  {
    if s == [] then [] else Insert(rows, SortByOrder(rows, s[..|s| - 1]), s[|s| - 1])
  }

  lemma {:induction false} SortByOrderSorts(rows: seq<Dispatch>, s: seq<nat>)
    requires ValidIds(rows, s)
    requires forall p, q :: 0 <= p < q < |s| ==> s[p] != s[q]
    ensures SortedByOrder(rows, SortByOrder(rows, s))
    ensures forall y :: y in SortByOrder(rows, s) <==> y in s
    decreases |s|
  {
    if s != [] {
      var init := s[..|s| - 1];
      SortByOrderSorts(rows, init);
      assert s[|s| - 1] !in init;
      InsertSorted(rows, SortByOrder(rows, init), s[|s| - 1]);
      assert s == init + [s[|s| - 1]];
    }
  }

  /** The batch: the ids of the ready rows of head's campaign, contact and session. */
  function Batch(rows: seq<Dispatch>, head: Dispatch, now: int): (r: seq<nat>)
    ensures ValidIds(rows, r)
    ensures forall i: int :: i in r <==> 0 <= i < |rows| && InBatch(rows[i], head, now)
    ensures forall p, q :: 0 <= p < q < |r| ==> rows[r[p]].messageOrder <= rows[r[q]].messageOrder
    ensures forall p, q :: 0 <= p < q < |r| ==> r[p] != r[q]
  {
    var members := Members(rows, head, now, |rows|);
    MembersAreTheBatch(rows, head, now, |rows|);
    SortByOrderSorts(rows, members);
    SortByOrder(rows, members)
  }
}
