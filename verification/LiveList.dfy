/**
  useLiveQuery (src/hooks/use-live-query.ts): a list of at most `limit` records, patched by change notifications,
  against the first records of the table it watches.
 */
module LiveList {
  import opened Options

  datatype Record = Record(id: string, version: nat)

  /** A missing order ranks all records alike; a missing filter accepts all. */
  datatype View = View(filter: Record -> bool, rank: Record -> int, limit: Option<nat>)

  datatype Message = Create(record: Record) | Update(record: Record) | Delete(id: string)

  // ---- applyOrderAndLimit ----

  function Insert(rank: Record -> int, sorted: seq<Record>, r: Record): seq<Record> {
    if sorted == [] || rank(sorted[|sorted| - 1]) <= rank(r) then sorted + [r]
    else Insert(rank, sorted[..|sorted| - 1], r) + [sorted[|sorted| - 1]]
  }

  /** A stable sort. */
  function Sort(rank: Record -> int, items: seq<Record>): seq<Record> {
    if items == [] then [] else Insert(rank, Sort(rank, items[..|items| - 1]), items[|items| - 1])
  }

  function Take(limit: Option<nat>, items: seq<Record>): seq<Record> {
    if limit.Some? && |items| > limit.value then items[..limit.value] else items
  }

  function ApplyOrderAndLimit(v: View, items: seq<Record>): seq<Record> {
    Take(v.limit, Sort(v.rank, items))
  }

  // ---- handleLiveMessage ----

  predicate Has(items: seq<Record>, id: string) {
    exists k :: 0 <= k < |items| && items[k].id == id
  }

  /** findIndex; the length where there is none. */
  function IndexOf(items: seq<Record>, id: string): (k: nat)
    ensures k <= |items| && (k < |items| ==> items[k].id == id)
    ensures forall j :: 0 <= j < k ==> items[j].id != id
    ensures k == |items| <==> !Has(items, id)
  {
    if items == [] then 0
    else if items[0].id == id then 0
    else
      var k := IndexOf(items[1..], id);
      assert forall j :: 0 < j < |items| ==> items[j] == items[1..][j - 1];
      assert Has(items, id) ==> Has(items[1..], id);
      k + 1
  }

  function Without(items: seq<Record>, id: string): seq<Record> {
    if items == [] then []
    else Without(items[..|items| - 1], id) + (if items[|items| - 1].id == id then [] else [items[|items| - 1]])
  }

  function Handle(v: View, prev: seq<Record>, message: Message): seq<Record> {
    match message
    case Create(r) =>
      if !v.filter(r) || Has(prev, r.id) then prev else ApplyOrderAndLimit(v, prev + [r])
    case Update(r) =>
      var k := IndexOf(prev, r.id);
      if k == |prev| then if v.filter(r) then ApplyOrderAndLimit(v, prev + [r]) else prev
      else if !v.filter(r) then Without(prev, r.id)
      else ApplyOrderAndLimit(v, prev[k := r])
    case Delete(id) => Without(prev, id)
  }

  // ---- The table and its first records ----

  type Table = map<string, Record>

  ghost predicate IsTable(t: Table) {
    forall id <- t :: t[id].id == id
  }

  /** The notification is what the change of the table says. */
  predicate IsChange(t: Table, message: Message) {
    match message
    case Create(r) => r.id !in t
    case Update(r) => r.id in t
    case Delete(id) => id in t
  }

  function Changed(t: Table, message: Message): Table {
    match message
    case Create(r) => t[r.id := r]
    case Update(r) => t[r.id := r]
    case Delete(id) => t - {id}
  }

  ghost predicate Distinct(items: seq<Record>) {
    forall j, k :: 0 <= j < k < |items| ==> items[j].id != items[k].id
  }

  ghost predicate InOrder(rank: Record -> int, items: seq<Record>) {
    forall j, k :: 0 <= j < k < |items| ==> rank(items[j]) <= rank(items[k])
  }

  ghost predicate Belongs(v: View, items: seq<Record>, t: Table) {
    forall r <- items :: r.id in t && t[r.id] == r && v.filter(r)
  }

  /** A record that the filter accepts and the list does not show. */
  ghost predicate IsHidden(v: View, items: seq<Record>, t: Table, id: string) {
    id in t && v.filter(t[id]) && !Has(items, id)
  }

  /** The list is the first `limit` matching records: in order, and nothing hidden ranks before anything shown. */
  ghost predicate IsTop(v: View, items: seq<Record>, t: Table) {
    && Distinct(items) && InOrder(v.rank, items) && Belongs(v, items, t)
    && (v.limit.Some? ==> |items| <= v.limit.value)
    && (forall id :: IsHidden(v, items, t, id) ==>
          v.limit == Some(|items|) && forall r <- items :: v.rank(r) <= v.rank(t[id]))
  }

  // ---- Sorting and cutting ----

  ghost predicate SameRecords(a: seq<Record>, b: seq<Record>) {
    |a| == |b| && forall r :: r in a <==> r in b
  }

  lemma {:induction false} InsertSame(rank: Record -> int, sorted: seq<Record>, r: Record)
    ensures SameRecords(Insert(rank, sorted, r), sorted + [r])
  {
    if sorted != [] && rank(sorted[|sorted| - 1]) > rank(r) {
      var init, last := sorted[..|sorted| - 1], sorted[|sorted| - 1];
      assert sorted == init + [last];
      InsertSame(rank, init, r);
    }
  }

  lemma {:induction false} SortSame(rank: Record -> int, items: seq<Record>)
    ensures SameRecords(Sort(rank, items), items)
  {
    if items != [] {
      var init, last := items[..|items| - 1], items[|items| - 1];
      assert items == init + [last];
      SortSame(rank, init);
      InsertSame(rank, Sort(rank, init), last);
    }
  }

  lemma {:induction false} InsertInOrder(rank: Record -> int, sorted: seq<Record>, r: Record)
    requires InOrder(rank, sorted)
    ensures InOrder(rank, Insert(rank, sorted, r))
  {
    if sorted != [] && rank(sorted[|sorted| - 1]) > rank(r) {
      var init, last := sorted[..|sorted| - 1], sorted[|sorted| - 1];
      InsertInOrder(rank, init, r);
      InsertSame(rank, init, r);
      var rest := Insert(rank, init, r);
      forall j | 0 <= j < |rest| ensures rank(rest[j]) <= rank(last) {
        assert rest[j] in rest && (rest[j] in init || rest[j] == r);
      }
    }
  }

  lemma {:induction false} SortInOrder(rank: Record -> int, items: seq<Record>)
    ensures InOrder(rank, Sort(rank, items))
  {
    if items != [] {
      SortInOrder(rank, items[..|items| - 1]);
      InsertInOrder(rank, Sort(rank, items[..|items| - 1]), items[|items| - 1]);
    }
  }

  /** The records of one rank, in their order. */
  function Ranked(rank: Record -> int, q: int, items: seq<Record>): seq<Record> {
    if items == [] then []
    else Ranked(rank, q, items[..|items| - 1]) + (if rank(items[|items| - 1]) == q then [items[|items| - 1]] else [])
  }

  lemma {:induction false} RankedSnoc(rank: Record -> int, q: int, items: seq<Record>, r: Record)
    ensures Ranked(rank, q, items + [r]) == Ranked(rank, q, items) + (if rank(r) == q then [r] else [])
  {
    assert (items + [r])[..|items|] == items;
  }

  lemma {:induction false} InsertStable(rank: Record -> int, q: int, sorted: seq<Record>, r: Record)
    ensures Ranked(rank, q, Insert(rank, sorted, r)) == Ranked(rank, q, sorted) + (if rank(r) == q then [r] else [])
  {
    if sorted == [] || rank(sorted[|sorted| - 1]) <= rank(r) {
      RankedSnoc(rank, q, sorted, r);
    } else {
      var init, last := sorted[..|sorted| - 1], sorted[|sorted| - 1];
      InsertStable(rank, q, init, r);
      RankedSnoc(rank, q, Insert(rank, init, r), last);
    }
  }

  /** Records of equal rank keep their order; without an order that is all of them. */
  lemma {:induction false} SortIsStable(rank: Record -> int, q: int, items: seq<Record>)
    ensures Ranked(rank, q, Sort(rank, items)) == Ranked(rank, q, items)
  {
    if items != [] {
      var init, last := items[..|items| - 1], items[|items| - 1];
      SortIsStable(rank, q, init);
      InsertStable(rank, q, Sort(rank, init), last);
    }
  }

  lemma {:induction false} AllRanked(rank: Record -> int, q: int, items: seq<Record>)
    requires forall r <- items :: rank(r) == q
    ensures Ranked(rank, q, items) == items
  {
    if items != [] {
      AllRanked(rank, q, items[..|items| - 1]);
      assert items[..|items| - 1] + [items[|items| - 1]] == items;
    }
  }

  /** Without an order, sorting changes nothing: new records come last. */
  lemma {:induction false} NoOrderKeepsArrival(rank: Record -> int, items: seq<Record>)
    requires forall r: Record, t: Record :: rank(r) == rank(t)
    ensures Sort(rank, items) == items
  {
    if items != [] {
      var q := rank(items[0]);
      SortSame(rank, items);
      SortIsStable(rank, q, items);
      AllRanked(rank, q, items);
      AllRanked(rank, q, Sort(rank, items));
    }
  }

  lemma {:induction false} InsertDistinct(rank: Record -> int, sorted: seq<Record>, r: Record)
    requires Distinct(sorted + [r])
    ensures Distinct(Insert(rank, sorted, r))
  {
    if sorted != [] && rank(sorted[|sorted| - 1]) > rank(r) {
      var init, last := sorted[..|sorted| - 1], sorted[|sorted| - 1];
      assert sorted == init + [last];
      SplitDistinct(init, last, r);
      InsertDistinct(rank, init, r);
      InsertSame(rank, init, r);
      var rest := Insert(rank, init, r);
      forall j | 0 <= j < |rest| ensures rest[j].id != last.id {
        assert rest[j] in rest && (rest[j] in init || rest[j] == r);
      }
    }
  }

  lemma {:induction false} SplitDistinct(init: seq<Record>, last: Record, r: Record)
    requires Distinct(init + [last] + [r])
    ensures Distinct(init + [r]) && r.id != last.id && forall x <- init :: x.id != last.id
  {
    var all := init + [last] + [r];
    assert all[|init|] == last && all[|init| + 1] == r;
    forall j, k | 0 <= j < k < |init + [r]| ensures (init + [r])[j].id != (init + [r])[k].id {
      assert (init + [r])[j] == all[j] && (init + [r])[k] == all[if k < |init| then k else k + 1];
    }
    forall x <- init ensures x.id != last.id {
      var j :| 0 <= j < |init| && init[j] == x;
      assert all[j] == x;
    }
  }

  lemma {:induction false} SortDistinct(rank: Record -> int, items: seq<Record>)
    requires Distinct(items)
    ensures Distinct(Sort(rank, items))
  {
    if items != [] {
      var init, last := items[..|items| - 1], items[|items| - 1];
      SortDistinct(rank, init);
      SortSame(rank, init);
      var sorted := Sort(rank, init);
      assert items == init + [last];
      forall j | 0 <= j < |sorted| ensures sorted[j].id != last.id {
        assert sorted[j] in init;
      }
      InsertDistinct(rank, sorted, last);
    }
  }

  lemma {:induction false} HasSame(a: seq<Record>, b: seq<Record>, id: string)
    requires SameRecords(a, b)
    ensures Has(a, id) <==> Has(b, id)
  {
    if Has(a, id) { var k :| 0 <= k < |a| && a[k].id == id; assert a[k] in b; }
    if Has(b, id) { var k :| 0 <= k < |b| && b[k].id == id; assert b[k] in a; }
  }

  /** The applied list: the sorted records, or as many of them as the limit allows. */
  lemma {:induction false} AppliedList(v: View, items: seq<Record>)
    requires Distinct(items)
    ensures var list := ApplyOrderAndLimit(v, items);
      && Distinct(list) && InOrder(v.rank, list) && (forall r <- list :: r in items)
      && |list| == (if v.limit.Some? && v.limit.value < |items| then v.limit.value else |items|)
      && (|list| == |items| ==> SameRecords(list, items))
  {
    SortSame(v.rank, items);
    SortInOrder(v.rank, items);
    SortDistinct(v.rank, items);
  }

  /** What is cut off ranks behind all that stays. */
  lemma {:induction false} CutOff(v: View, items: seq<Record>, r: Record)
    requires Distinct(items) && r in items && r !in ApplyOrderAndLimit(v, items)
    ensures forall kept <- ApplyOrderAndLimit(v, items) :: v.rank(kept) <= v.rank(r)
  {
    var sorted := Sort(v.rank, items);
    SortSame(v.rank, items);
    SortInOrder(v.rank, items);
    var k :| 0 <= k < |sorted| && sorted[k] == r;
    assert k >= |ApplyOrderAndLimit(v, items)|;
  }

  // ---- One message ----

  function Members(items: seq<Record>): set<Record> {
    set r <- items
  }

  lemma {:induction false} DistinctSize(items: seq<Record>)
    requires Distinct(items)
    ensures |Members(items)| == |items|
  {
    if items != [] {
      var init, last := items[..|items| - 1], items[|items| - 1];
      assert items == init + [last];
      DistinctSize(init);
      assert last !in init;
      assert Members(items) == Members(init) + {last};
    }
  }

  /** A list that lacks a record of another list of the same size holds one that the other lacks. */
  lemma {:induction false} SomeLeftOut(items: seq<Record>, list: seq<Record>) returns (r: Record)
    requires Distinct(items) && |list| < |items|
    ensures r in items && r !in list
  {
    DistinctSize(items);
    if forall x <- items :: x in list {
      assert Members(items) <= Members(list);
      MembersAtMost(list);
      SubsetSize(Members(items), Members(list));
      assert false;
    }
    r :| r in items && r !in list;
  }

  lemma {:induction false} SubsetSize(a: set<Record>, b: set<Record>)
    requires a <= b
    ensures |a| <= |b|
  {
    assert b == a + (b - a);
  }

  lemma {:induction false} MembersAtMost(items: seq<Record>)
    ensures |Members(items)| <= |items|
  {
    if items != [] {
      var init, last := items[..|items| - 1], items[|items| - 1];
      assert items == init + [last];
      MembersAtMost(init);
      assert Members(items) == Members(init) + {last};
    }
  }

  lemma {:induction false} ListedRecord(v: View, items: seq<Record>, t: Table, id: string)
    requires Belongs(v, items, t)
    ensures Has(items, id) <==> id in t && t[id] in items && t[id].id == id
  {
    if Has(items, id) { var k :| 0 <= k < |items| && items[k].id == id; assert items[k] in items; }
    if id in t && t[id] in items { var k :| 0 <= k < |items| && items[k] == t[id]; }
  }

  lemma {:induction false} AddedDistinct(prev: seq<Record>, r: Record)
    requires Distinct(prev) && !Has(prev, r.id)
    ensures Distinct(prev + [r])
  {
  }

  /** A matching record that was not listed finds its place, or ranks behind a full list. */
  lemma {:induction false} AddedTop(v: View, prev: seq<Record>, t: Table, r: Record)
    requires IsTable(t) && IsTop(v, prev, t) && v.filter(r) && !Has(prev, r.id)
    ensures IsTop(v, ApplyOrderAndLimit(v, prev + [r]), t[r.id := r])
  {
    var items, now := prev + [r], t[r.id := r];
    var list := ApplyOrderAndLimit(v, items);
    AddedDistinct(prev, r);
    AppliedList(v, items);
    forall x <- list ensures x.id in now && now[x.id] == x && v.filter(x) {
      assert x in prev || x == r;
      if x in prev && x.id == r.id { ListedRecord(v, prev, t, r.id); }
    }
    forall id | IsHidden(v, list, now, id)
      ensures v.limit == Some(|list|) && forall kept <- list :: v.rank(kept) <= v.rank(now[id])
    {
      HiddenBehind(v, prev, t, r, id);
    }
  }

  lemma {:induction false} HiddenBehind(v: View, prev: seq<Record>, t: Table, r: Record, id: string)
    requires IsTable(t) && IsTop(v, prev, t) && v.filter(r) && !Has(prev, r.id)
    requires Belongs(v, ApplyOrderAndLimit(v, prev + [r]), t[r.id := r])
    requires IsHidden(v, ApplyOrderAndLimit(v, prev + [r]), t[r.id := r], id)
    ensures var list := ApplyOrderAndLimit(v, prev + [r]);
      v.limit == Some(|list|) && forall kept <- list :: v.rank(kept) <= v.rank(t[r.id := r][id])
  {
    var items, now := prev + [r], t[r.id := r];
    var list := ApplyOrderAndLimit(v, items);
    AddedDistinct(prev, r);
    AppliedList(v, items);
    ListedRecord(v, list, now, id);
    if now[id] in items {
      assert now[id] !in list;
      assert !SameRecords(list, items);
      CutOff(v, items, now[id]);
    } else {
      ListedRecord(v, prev, t, id);
      assert IsHidden(v, prev, t, id);
      var out := SomeLeftOut(items, list);
      CutOff(v, items, out);
      assert out in prev || out == r;
    }
  }

  /** A message about a record that neither was nor is to be listed. */
  lemma {:induction false} UnlistedTop(v: View, prev: seq<Record>, t: Table, now: Table, id: string)
    requires IsTop(v, prev, t) && !Has(prev, id)
    requires now - {id} == t - {id} && (id in now ==> !v.filter(now[id]))
    ensures IsTop(v, prev, now)
  {
    forall r <- prev ensures r.id in now && now[r.id] == r {
      var k :| 0 <= k < |prev| && prev[k] == r;
      assert r.id != id;
      assert r.id in t - {id} && (now - {id})[r.id] == (t - {id})[r.id];
    }
    forall other | IsHidden(v, prev, now, other) ensures IsHidden(v, prev, t, other) && now[other] == t[other] {
      assert other in now - {id} && (now - {id})[other] == (t - {id})[other];
    }
  }

  ghost predicate NothingHidden(v: View, items: seq<Record>, t: Table) {
    forall id :: !IsHidden(v, items, t, id)
  }

  /** No hidden record ranks before r. */
  ghost predicate NoneBefore(v: View, items: seq<Record>, t: Table, r: Record) {
    forall id :: IsHidden(v, items, t, id) ==> v.rank(r) <= v.rank(t[id])
  }

  lemma {:induction false} ReplacedTop(v: View, prev: seq<Record>, t: Table, r: Record, k: nat)
    requires IsTable(t) && IsTop(v, prev, t) && v.filter(r) && k < |prev| && prev[k].id == r.id
    ensures IsTop(v, ApplyOrderAndLimit(v, prev[k := r]), t[r.id := r]) <==> NoneBefore(v, prev, t, r)
  {
    var items, now := prev[k := r], t[r.id := r];
    var list := ApplyOrderAndLimit(v, items);
    assert items[k] == r;
    AppliedList(v, items);
    forall x <- list ensures x.id in now && now[x.id] == x && v.filter(x) {
      var j :| 0 <= j < |items| && items[j] == x;
      if j != k { assert prev[j] in prev && prev[j].id != prev[k].id; }
    }
    forall id ensures Has(items, id) <==> Has(prev, id) {
      if Has(items, id) { var j :| 0 <= j < |items| && items[j].id == id; assert prev[j].id == id; }
      if Has(prev, id) { var j :| 0 <= j < |prev| && prev[j].id == id; assert items[j].id == id; }
    }
    forall id ensures IsHidden(v, list, now, id) <==> IsHidden(v, prev, t, id) {
      HasSame(list, items, id);
      assert Has(prev, r.id);
    }
    assert r in list;
    forall x | x in list && x != r ensures x in prev {
      assert x in items;
    }
  }

  lemma {:induction false} HasSnoc(init: seq<Record>, last: Record, id: string)
    ensures Has(init + [last], id) <==> Has(init, id) || last.id == id
  {
    var items := init + [last];
    assert items[|init|] == last;
    assert forall k :: 0 <= k < |init| ==> items[k] == init[k];
  }

  lemma {:induction false} WithoutMembers(items: seq<Record>, id: string)
    ensures forall r :: r in Without(items, id) <==> r in items && r.id != id
  {
    if items != [] {
      assert items == items[..|items| - 1] + [items[|items| - 1]];
      WithoutMembers(items[..|items| - 1], id);
    }
  }

  lemma {:induction false} WithoutSize(items: seq<Record>, id: string)
    requires Distinct(items)
    ensures |Without(items, id)| == if Has(items, id) then |items| - 1 else |items|
  {
    if items != [] {
      var init, last := items[..|items| - 1], items[|items| - 1];
      assert items == init + [last];
      HasSnoc(init, last, id);
      WithoutSize(init, id);
    }
  }

  lemma {:induction false} WithoutOrdered(items: seq<Record>, rank: Record -> int, id: string)
    requires Distinct(items) && InOrder(rank, items)
    ensures Distinct(Without(items, id)) && InOrder(rank, Without(items, id))
  {
    if items != [] {
      var init, last := items[..|items| - 1], items[|items| - 1];
      WithoutOrdered(init, rank, id);
      WithoutMembers(init, id);
      var rest := Without(init, id);
      forall j | 0 <= j < |rest| ensures rest[j].id != last.id && rank(rest[j]) <= rank(last) {
        assert rest[j] in rest;
        var m :| 0 <= m < |init| && init[m] == rest[j];
        assert items[m] == init[m];
      }
    }
  }

  lemma {:induction false} WithoutProperties(items: seq<Record>, rank: Record -> int, id: string)
    requires Distinct(items) && InOrder(rank, items)
    ensures Distinct(Without(items, id)) && InOrder(rank, Without(items, id))
    ensures forall r :: r in Without(items, id) <==> r in items && r.id != id
    ensures |Without(items, id)| == if Has(items, id) then |items| - 1 else |items|
  {
    WithoutMembers(items, id);
    WithoutSize(items, id);
    WithoutOrdered(items, rank, id);
  }

  /** A listed record that goes leaves a gap exactly when something hidden could fill it. */
  lemma {:induction false} RemovedTop(v: View, prev: seq<Record>, t: Table, now: Table, id: string)
    requires IsTable(t) && IsTop(v, prev, t) && Has(prev, id)
    requires now - {id} == t - {id} && (id in now ==> !v.filter(now[id]))
    ensures IsTop(v, Without(prev, id), now) <==> NothingHidden(v, prev, t)
  {
    var list := Without(prev, id);
    WithoutProperties(prev, v.rank, id);
    forall r <- list ensures r.id in now && now[r.id] == r && v.filter(r) {
      assert r.id in t - {id} && (now - {id})[r.id] == (t - {id})[r.id];
    }
    forall other ensures IsHidden(v, list, now, other) <==> IsHidden(v, prev, t, other) {
      HiddenWithout(v, prev, t, now, id, other);
    }
    if id2: string :| IsHidden(v, prev, t, id2) {
      assert v.limit == Some(|prev|);
    }
  }

  lemma {:induction false} HiddenWithout(v: View, prev: seq<Record>, t: Table, now: Table, id: string, other: string)
    requires IsTable(t) && IsTop(v, prev, t) && Has(prev, id)
    requires now - {id} == t - {id} && (id in now ==> !v.filter(now[id]))
    ensures IsHidden(v, Without(prev, id), now, other) <==> IsHidden(v, prev, t, other)
  {
    WithoutProperties(prev, v.rank, id);
    var list := Without(prev, id);
    if other != id {
      assert other in now <==> other in now - {id};
      assert other in t <==> other in t - {id};
      assert other in now ==> (now - {id})[other] == now[other] && (t - {id})[other] == t[other];
      if Has(list, other) {
        var k :| 0 <= k < |list| && list[k].id == other;
        assert list[k] in prev;
        var m :| 0 <= m < |prev| && prev[m] == list[k];
      }
      if Has(prev, other) {
        var k :| 0 <= k < |prev| && prev[k].id == other;
        assert prev[k] in list;
        var m :| 0 <= m < |list| && list[m] == prev[k];
      }
    }
  }

  /** When the list stays exact: nothing hidden should have taken the place of the record the message is about. */
  ghost predicate Keeps(v: View, prev: seq<Record>, t: Table, message: Message) {
    match message
    case Create(_) => true
    case Update(r) => !Has(prev, r.id) || (if v.filter(r) then NoneBefore(v, prev, t, r) else NothingHidden(v, prev, t))
    case Delete(id) => !Has(prev, id) || NothingHidden(v, prev, t)
  }

  /** After a notification the list is the first records of the changed table if and only if it could keep up. */
  lemma {:induction false} HandleTopIff(v: View, prev: seq<Record>, t: Table, message: Message)
    requires IsTable(t) && IsTop(v, prev, t) && IsChange(t, message)
    ensures IsTop(v, Handle(v, prev, message), Changed(t, message)) <==> Keeps(v, prev, t, message)
  {
    var now := Changed(t, message);
    match message
    case Create(r) =>
      ListedRecord(v, prev, t, r.id);
      if v.filter(r) { AddedTop(v, prev, t, r); } else { UnlistedTop(v, prev, t, now, r.id); }
    case Update(r) =>
      if !Has(prev, r.id) {
        if v.filter(r) { AddedTop(v, prev, t, r); } else { UnlistedTop(v, prev, t, now, r.id); }
      } else if v.filter(r) {
        ReplacedTop(v, prev, t, r, IndexOf(prev, r.id));
      } else {
        RemovedTop(v, prev, t, now, r.id);
      }
    case Delete(id) =>
      if Has(prev, id) {
        RemovedTop(v, prev, t, now, id);
      } else {
        assert Without(prev, id) == prev by { WithoutNone(prev, id); }
        UnlistedTop(v, prev, t, now, id);
      }
  }

  lemma {:induction false} WithoutNone(items: seq<Record>, id: string)
    requires !Has(items, id)
    ensures Without(items, id) == items
  {
    if items != [] {
      var init, last := items[..|items| - 1], items[|items| - 1];
      assert items == init + [last];
      HasSnoc(init, last, id);
      WithoutNone(init, id);
    }
  }

  // ---- Whole runs ----

  /** Whatever the messages, related to the table or not: ids stay unique and the order is kept. */
  lemma {:induction false} HandleOrdered(v: View, prev: seq<Record>, message: Message)
    requires Distinct(prev) && InOrder(v.rank, prev)
    ensures Distinct(Handle(v, prev, message)) && InOrder(v.rank, Handle(v, prev, message))
  {
    match message
    case Create(r) =>
      if v.filter(r) && !Has(prev, r.id) { AddedDistinct(prev, r); AppliedList(v, prev + [r]); }
    case Update(r) =>
      if IndexOf(prev, r.id) == |prev| {
        if v.filter(r) { AddedDistinct(prev, r); AppliedList(v, prev + [r]); }
      } else if v.filter(r) {
        ReplacedDistinct(prev, r);
        AppliedList(v, prev[IndexOf(prev, r.id) := r]);
      } else {
        WithoutProperties(prev, v.rank, r.id);
      }
    case Delete(id) => WithoutProperties(prev, v.rank, id);
  }

  lemma {:induction false} ReplacedDistinct(prev: seq<Record>, r: Record)
    requires Distinct(prev) && Has(prev, r.id)
    ensures Distinct(prev[IndexOf(prev, r.id) := r])
  {
  }

  function HandleAll(v: View, prev: seq<Record>, messages: seq<Message>): seq<Record>
    decreases |messages|
  {
    if messages == [] then prev else HandleAll(v, Handle(v, prev, messages[0]), messages[1..])
  }

  /** The same after any number of messages, from a snapshot or any other ordered list with unique ids. */
  lemma {:induction false} HandleAllOrdered(v: View, prev: seq<Record>, messages: seq<Message>)
    requires Distinct(prev) && InOrder(v.rank, prev)
    ensures Distinct(HandleAll(v, prev, messages)) && InOrder(v.rank, HandleAll(v, prev, messages))
    decreases |messages|
  {
    if messages != [] {
      HandleOrdered(v, prev, messages[0]);
      HandleAllOrdered(v, Handle(v, prev, messages[0]), messages[1..]);
    }
  }

  function ChangeAll(t: Table, messages: seq<Message>): Table
    decreases |messages|
  {
    if messages == [] then t else ChangeAll(Changed(t, messages[0]), messages[1..])
  }

  /** The messages are the table's change log. */
  ghost predicate IsLog(t: Table, messages: seq<Message>)
    decreases |messages|
  {
    messages != [] ==> IsChange(t, messages[0]) && IsLog(Changed(t, messages[0]), messages[1..])
  }

  /** No listed record is deleted or filtered out, and updates never move one back. */
  predicate MovesUp(v: View, prev: seq<Record>, message: Message) {
    match message
    case Create(_) => true
    case Update(r) =>
      var k := IndexOf(prev, r.id);
      k < |prev| ==> v.filter(r) && v.rank(r) <= v.rank(prev[k])
    case Delete(id) => !Has(prev, id)
  }

  ghost predicate AllMoveUp(v: View, prev: seq<Record>, messages: seq<Message>)
    decreases |messages|
  {
    messages != [] ==> MovesUp(v, prev, messages[0]) && AllMoveUp(v, Handle(v, prev, messages[0]), messages[1..])
  }

  lemma {:induction false} MovesUpKeeps(v: View, prev: seq<Record>, t: Table, message: Message)
    requires IsTable(t) && IsTop(v, prev, t) && (MovesUp(v, prev, message) || v.limit.None?)
    ensures Keeps(v, prev, t, message)
  {
    if message.Update? && Has(prev, message.record.id) && v.limit.Some? {
      assert prev[IndexOf(prev, message.record.id)] in prev;
    }
  }

  /** From the snapshot on, such a change log, or no limit at all, keeps the list exact. */
  lemma {:induction false} ListStaysExact(v: View, prev: seq<Record>, t: Table, messages: seq<Message>)
    requires IsTable(t) && IsTop(v, prev, t) && IsLog(t, messages)
    requires v.limit.None? || AllMoveUp(v, prev, messages)
    ensures IsTop(v, HandleAll(v, prev, messages), ChangeAll(t, messages))
    decreases |messages|
  {
    if messages != [] {
      MovesUpKeeps(v, prev, t, messages[0]);
      HandleTopIff(v, prev, t, messages[0]);
      ListStaysExact(v, Handle(v, prev, messages[0]), Changed(t, messages[0]), messages[1..]);
    }
  }

  /** Without a limit an exact list shows each matching record. */
  lemma {:induction false} NoLimitShowsAll(v: View, items: seq<Record>, t: Table)
    requires IsTable(t) && IsTop(v, items, t) && v.limit.None?
    ensures forall id :: Has(items, id) <==> id in t && v.filter(t[id])
  {
    forall id ensures Has(items, id) <==> id in t && v.filter(t[id]) {
      ListedRecord(v, items, t, id);
      assert !IsHidden(v, items, t, id);
    }
  }
}
