/** Expiry and oldest-first eviction of provisional media
    (`retention_decisions` in crates/openfrag-domain/src/highlight.rs). */
module Retention {
  import opened Prelude
  import opened Ordering

  const PROVISIONAL_RETENTION_MS: int := 30 * 24 * 60 * 60 * 1_000
  const CAPTURE_SESSION_BUDGET_BYTES: int := 2 * 1_024 * 1_024 * 1_024

  datatype Media = Media(id: string, created: u64, bytes: u64, confirmed: bool)

  datatype Reason = Retain | ExpiredAfterThirtyDays | EvictedBySessionBudget

  datatype Decision = Decision(id: string, reason: Reason)

  /** An item together with its position in the input. */
  datatype Entry = Entry(index: nat, item: Media)

  predicate Expired(m: Media, now: u64) {
    !m.confirmed && SatSub(now, m.created) >= PROVISIONAL_RETENTION_MS
  }

  predicate EntryLe(a: Entry, b: Entry) {
    if a.item.created != b.item.created then a.item.created < b.item.created
    else StrLe(a.item.id, b.item.id)
  }

  lemma EntryOrder()
    ensures Preorder(EntryLe)
  {
    var byId := (a: Entry, b: Entry) => StrLe(a.item.id, b.item.id);
    TextOrder((e: Entry) => e.item.id, byId);
    NumberThen((e: Entry) => e.item.created, byId, EntryLe);
  }

  function Entries(items: seq<Media>): (r: seq<Entry>)
    ensures |r| == |items|
    ensures forall i :: 0 <= i < |items| ==> r[i] == Entry(i, items[i])
  {
    seq(|items|, i requires 0 <= i < |items| => Entry(i, items[i]))
  }

  /** The unconfirmed, unexpired items: the ones that count against the budget. */
  function Live(items: seq<Media>, now: u64): seq<Entry> {
    Filter(Entries(items), CountsAt(now))
  }

  function CountsAt(now: u64): Entry -> bool {
    (e: Entry) => !e.item.confirmed && !Expired(e.item, now)
  }

  function EvictionOrder(items: seq<Media>, now: u64): seq<Entry> {
    StableSort(Live(items, now), EntryLe)
  }

  function Bytes(entries: seq<Entry>): nat {
    if entries == [] then 0 else entries[0].item.bytes + Bytes(entries[1..])
  }

  /** How many entries the eviction loop takes when it believes `tracked` bytes are retained. */
  function Evictions(order: seq<Entry>, tracked: u64): (k: nat)
    ensures k <= |order|
  {
    if order == [] || tracked <= CAPTURE_SESSION_BUDGET_BYTES then 0
    else 1 + Evictions(order[1..], SatSub(tracked, order[0].item.bytes))
  }

  function EvictedCount(items: seq<Media>, now: u64): nat {
    Evictions(EvictionOrder(items, now), Min(Bytes(Live(items, now)), U64_MAX))
  }

  /** The item at `i` is among the first `k` entries of `order`. */
  predicate Taken(order: seq<Entry>, k: nat, i: nat)
    requires k <= |order|
  {
    exists j :: 0 <= j < k && order[j].index == i
  }

  predicate Evicted(items: seq<Media>, now: u64, i: nat) {
    Taken(EvictionOrder(items, now), EvictedCount(items, now), i)
  }

  /** What the decisions are, item by item. */
  ghost predicate Decides(items: seq<Media>, now: u64, decisions: seq<Decision>) {
    && |decisions| == |items|
    && forall i :: 0 <= i < |items| ==>
         && decisions[i].id == items[i].id
         && decisions[i].reason ==
              if Expired(items[i], now) then ExpiredAfterThirtyDays
              else if Evicted(items, now, i) then EvictedBySessionBudget
              else Retain
  }

  method RetentionDecisions(items: seq<Media>, now: u64) returns (decisions: seq<Decision>)
    ensures Decides(items, now, decisions)
  {
    hide EvictionOrder;
    hide Live;
    hide Expired;
    hide Bytes;
    hide Taken;
    decisions := seq(|items|, i requires 0 <= i < |items| =>
      Decision(items[i].id, if Expired(items[i], now) then ExpiredAfterThirtyDays else Retain));
    var retained: u64 := SaturatingTotal(Live(items, now));
    var candidates := EvictionOrder(items, now);
    OrderIndices(items, now);
    NoneExpired(items, now);
    TakenNone(candidates);
    var k := 0;
    while k < |candidates|
      invariant 0 <= k <= |candidates|
      invariant k + Evictions(candidates[k..], retained) == EvictedCount(items, now)
      invariant |decisions| == |items|
      invariant forall i :: 0 <= i < |items| ==>
        && decisions[i].id == items[i].id
        && decisions[i].reason == if Taken(candidates, k, i) then EvictedBySessionBudget
                                  else if Expired(items[i], now) then ExpiredAfterThirtyDays else Retain
    {
      if retained <= CAPTURE_SESSION_BUDGET_BYTES {
        break;
      }
      var entry := candidates[k];
      assert candidates[k..][1..] == candidates[k + 1..];
      TakenNext(candidates, k);
      decisions := decisions[entry.index := decisions[entry.index].(reason := EvictedBySessionBudget)];
      retained := SatSub(retained, entry.item.bytes);
      k := k + 1;
    }
    assert k == EvictedCount(items, now);
  }

  lemma TakenNone(order: seq<Entry>)
    ensures forall i: nat :: !Taken(order, 0, i)
  {
  }

  lemma TakenNext(order: seq<Entry>, k: nat)
    requires k < |order|
    ensures forall i: nat :: Taken(order, k + 1, i) <==> Taken(order, k, i) || order[k].index == i
  {
    forall i: nat
      ensures Taken(order, k + 1, i) <==> Taken(order, k, i) || order[k].index == i
    {
      if Taken(order, k, i) {
        var j :| 0 <= j < k && order[j].index == i;
        assert 0 <= j < k + 1 && order[j].index == i;
      }
      if order[k].index == i {
        assert 0 <= k < k + 1 && order[k].index == i;
      }
    }
  }

  /** The `u64::saturating_add` fold. */
  method SaturatingTotal(entries: seq<Entry>) returns (total: u64)
    ensures total == Min(Bytes(entries), U64_MAX)
  {
    total := 0;
    var i := 0;
    while i < |entries|
      invariant 0 <= i <= |entries|
      invariant Min(total + Bytes(entries[i..]), U64_MAX) == Min(Bytes(entries), U64_MAX)
    {
      assert entries[i..][1..] == entries[i + 1..];
      total := SatAdd(total, entries[i].item.bytes);
      i := i + 1;
    }
  }

  lemma OrderIndices(items: seq<Media>, now: u64)
    ensures forall j :: 0 <= j < |EvictionOrder(items, now)| ==>
      var e := EvictionOrder(items, now)[j];
      && e.index < |items| && e.item == items[e.index] && e == Entry(e.index, items[e.index])
      && !e.item.confirmed && !Expired(e.item, now)
  {
    var order := EvictionOrder(items, now);
    SameElements(order, Live(items, now));
    forall j | 0 <= j < |order|
      ensures order[j] in Live(items, now)
    {
    }
  }

  lemma NoneExpired(items: seq<Media>, now: u64)
    ensures forall i :: 0 <= i < |items| && Evicted(items, now, i) ==> !Expired(items[i], now)
  {
    hide EvictionOrder;
    hide Expired;
    OrderIndices(items, now);
  }

  // ----- Main results

  /** The loop's own bound: what it stops with is within budget of what it tracked, and one
      eviction fewer would have left it over budget. */
  lemma {:induction false} EvictionStops(order: seq<Entry>, tracked: u64)
    requires tracked <= Bytes(order)
    ensures var k := Evictions(order, tracked);
      && Bytes(order[k..]) <= CAPTURE_SESSION_BUDGET_BYTES + (Bytes(order) - tracked)
      && (k > 0 ==> Bytes(order[k - 1..]) > CAPTURE_SESSION_BUDGET_BYTES)
  {
    var k := Evictions(order, tracked);
    if order != [] && tracked > CAPTURE_SESSION_BUDGET_BYTES {
      var rest := order[1..];
      EvictionStops(rest, SatSub(tracked, order[0].item.bytes));
      assert order[k..] == rest[k - 1..];
      if k > 1 {
        assert order[k - 1..] == rest[k - 2..];
      }
    }
    assert order[0..] == order;
  }

  /** The bytes that are both retained and unconfirmed after the decisions. */
  ghost function RetainedBytes(items: seq<Media>, decisions: seq<Decision>): nat
    requires |decisions| == |items|
  {
    Bytes(Filter(Entries(items), StillCounts(decisions)))
  }

  ghost function StillCounts(decisions: seq<Decision>): Entry -> bool {
    (e: Entry) => !e.item.confirmed && e.index < |decisions| && decisions[e.index].reason == Retain
  }

  /** For every input: the retained unconfirmed bytes exceed the budget by at most what their
      initial total exceeds `u64`, and the last eviction was needed. */
  lemma RetentionWithinBudget(items: seq<Media>, now: u64, decisions: seq<Decision>)
    requires Decides(items, now, decisions)
    ensures RetainedBytes(items, decisions) <=
            CAPTURE_SESSION_BUDGET_BYTES + Max(0, Bytes(Live(items, now)) - U64_MAX)
    ensures EvictedCount(items, now) > 0 ==>
            Bytes(EvictionOrder(items, now)[EvictedCount(items, now) - 1..]) > CAPTURE_SESSION_BUDGET_BYTES
  {
    var order := EvictionOrder(items, now);
    var k := EvictedCount(items, now);
    BytesSort(Live(items, now));
    EvictionStops(order, Min(Bytes(order), U64_MAX));
    RetainedIsSuffix(items, now, decisions);
  }

  /** Eviction is oldest first: whatever is evicted precedes, by creation time and then by
      identifier, whatever unconfirmed media is retained. */
  lemma EvictsOldestFirst(items: seq<Media>, now: u64, decisions: seq<Decision>, i: nat, j: nat)
    requires Decides(items, now, decisions)
    requires i < |items| && decisions[i].reason == EvictedBySessionBudget
    requires j < |items| && decisions[j].reason == Retain && !items[j].confirmed
    ensures EntryLe(Entry(i, items[i]), Entry(j, items[j]))
  {
    hide EntryLe;
    hide EvictionOrder;
    hide EvictedCount;
    hide Expired;
    var order := EvictionOrder(items, now);
    OrderIndices(items, now);
    OrderSorted(items, now);
    var b := PlaceOf(items, now, j);
    assert Evicted(items, now, i) && !Evicted(items, now, j);
    var a :| 0 <= a < EvictedCount(items, now) && order[a].index == i;
    assert order[a] == Entry(i, items[i]);
  }

  lemma OrderSorted(items: seq<Media>, now: u64)
    ensures Sorted(EvictionOrder(items, now), EntryLe) && EvictedCount(items, now) <= |EvictionOrder(items, now)|
  {
    hide StableSort;
    EntryOrder();
    SortSorts(Live(items, now), EntryLe);
  }

  /** Where the eviction order lists an item that counts against the budget. */
  lemma PlaceOf(items: seq<Media>, now: u64, j: nat) returns (b: nat)
    requires j < |items| && !items[j].confirmed && !Expired(items[j], now)
    ensures b < |EvictionOrder(items, now)| && EvictionOrder(items, now)[b] == Entry(j, items[j])
  {
    hide StableSort;
    hide EntryLe;
    var order := EvictionOrder(items, now);
    SameElements(order, Live(items, now));
    assert Entries(items)[j] in Live(items, now);
    b :| 0 <= b < |order| && order[b] == Entry(j, items[j]);
  }

  /** The loop stops at the first prefix that brings what it tracks within the budget. */
  lemma {:induction false} StopsAtFirst(order: seq<Entry>, tracked: u64)
    requires tracked <= Bytes(order)
    ensures var k := Evictions(order, tracked);
      && tracked - Bytes(order[..k]) <= CAPTURE_SESSION_BUDGET_BYTES
      && forall j :: 0 <= j < k ==> tracked - Bytes(order[..j]) > CAPTURE_SESSION_BUDGET_BYTES
  {
    var k := Evictions(order, tracked);
    if order != [] && tracked > CAPTURE_SESSION_BUDGET_BYTES {
      var rest := order[1..];
      StopsAtFirst(rest, SatSub(tracked, order[0].item.bytes));
      forall j | 0 < j <= k ensures Bytes(order[..j]) == order[0].item.bytes + Bytes(rest[..j - 1]) {
        assert order[..j][1..] == rest[..j - 1];
      }
    }
  }

  lemma {:induction false} BytesSplit(order: seq<Entry>, k: nat)
    requires k <= |order|
    ensures Bytes(order) == Bytes(order[..k]) + Bytes(order[k..])
  {
    if k == 0 {
      assert order[0..] == order;
    } else {
      BytesSplit(order[1..], k - 1);
      assert order[..k][1..] == order[1..][..k - 1] && order[1..][k - 1..] == order[k..];
    }
  }

  lemma BytesPrefix(order: seq<Entry>, j: nat, k: nat)
    requires j <= k <= |order|
    ensures Bytes(order[..j]) <= Bytes(order[..k])
  {
    BytesSplit(order[..k], j);
    assert order[..k][..j] == order[..j];
  }

  /** The oldest `k` items reach the bytes the saturated total asks to evict, but not those the true
      total does.  When the true total fits `u64` the two are the same and there is no such `k`. */
  ghost predicate StopsShort(order: seq<Entry>, k: nat)
    requires k <= |order|
  {
    Min(Bytes(order), U64_MAX) - CAPTURE_SESSION_BUDGET_BYTES <= Bytes(order[..k]) <
    Bytes(order) - CAPTURE_SESSION_BUDGET_BYTES
  }

  lemma {:induction false} SuffixWithinIff(order: seq<Entry>)
    ensures var k := Evictions(order, Min(Bytes(order), U64_MAX));
      Bytes(order[k..]) <= CAPTURE_SESSION_BUDGET_BYTES <==> forall j: nat :: j <= |order| ==> !StopsShort(order, j)
  {
    hide Bytes;
    var tracked := Min(Bytes(order), U64_MAX);
    var k := Evictions(order, tracked);
    StopsAtFirst(order, tracked);
    BytesSplit(order, k);
    forall j: nat | j <= |order| && StopsShort(order, j) ensures k <= j && Bytes(order[..k]) <= Bytes(order[..j]) {
      BytesPrefix(order, k, j);
    }
    if Bytes(order[k..]) > CAPTURE_SESSION_BUDGET_BYTES {
      assert StopsShort(order, k);
    }
  }

  /** Exactly when the budget holds: no prefix of the eviction order falls between what the
      saturated total asks to evict and what the true total does. */
  lemma WithinBudgetIff(items: seq<Media>, now: u64, decisions: seq<Decision>)
    requires Decides(items, now, decisions)
    ensures RetainedBytes(items, decisions) <= CAPTURE_SESSION_BUDGET_BYTES <==>
            forall j: nat :: j <= |EvictionOrder(items, now)| ==> !StopsShort(EvictionOrder(items, now), j)
  {
    hide StopsShort;
    BytesSort(Live(items, now));
    SuffixWithinIff(EvictionOrder(items, now));
    RetainedIsSuffix(items, now, decisions);
  }

  /** The budget does not hold when the true total leaves `u64`: the saturated sum forgets the
      excess, so the loop stops while the retained bytes still exceed the budget. */
  lemma SaturationOvershoots()
    ensures var a := Media("a", 0, U64_MAX, false);
      var b := Media("b", 1, U64_MAX, false);
      forall decisions :: Decides([a, b], 1, decisions) ==>
        RetainedBytes([a, b], decisions) > CAPTURE_SESSION_BUDGET_BYTES
  {
    var a := Media("a", 0, U64_MAX, false);
    var b := Media("b", 1, U64_MAX, false);
    OvershootOrder(a, b);
    forall decisions | Decides([a, b], 1, decisions)
      ensures RetainedBytes([a, b], decisions) > CAPTURE_SESSION_BUDGET_BYTES
    {
      RetainedIsSuffix([a, b], 1, decisions);
    }
  }

  lemma OvershootOrder(a: Media, b: Media)
    requires a.created < b.created <= 1 && !a.confirmed && !b.confirmed && a.bytes == b.bytes == U64_MAX
    ensures EvictionOrder([a, b], 1) == [Entry(0, a), Entry(1, b)]
    ensures EvictedCount([a, b], 1) == 1
    ensures Bytes(EvictionOrder([a, b], 1)[1..]) == U64_MAX
  {
    var ea, eb := Entry(0, a), Entry(1, b);
    assert Entries([a, b]) == [ea, eb];
    assert [ea, eb][1..] == [eb];
    FilterAll([ea, eb], CountsAt(1));
    SortKeepsSorted([ea, eb], EntryLe);
    assert Bytes([eb]) == U64_MAX;
    assert Bytes([ea, eb]) == U64_MAX + Bytes([eb]);
    assert Evictions([eb], 0) == 0;
  }

  // ----- The retained entries are the rest of the eviction order

  lemma {:induction false} BytesInsert(x: Entry, s: seq<Entry>)
    ensures Bytes(Insert(x, s, EntryLe)) == x.item.bytes + Bytes(s)
  {
    hide EntryLe;
    if s == [] {
      assert [x][1..] == [];
    } else if EntryLe(x, s[0]) {
      assert ([x] + s)[1..] == s;
    } else {
      BytesInsert(x, s[1..]);
      assert ([s[0]] + Insert(x, s[1..], EntryLe))[1..] == Insert(x, s[1..], EntryLe);
    }
  }

  lemma {:induction false} BytesSort(s: seq<Entry>)
    ensures Bytes(StableSort(s, EntryLe)) == Bytes(s)
  {
    if s != [] {
      BytesSort(s[1..]);
      BytesInsert(s[0], StableSort(s[1..], EntryLe));
    }
  }

  ghost predicate DistinctIndices(s: seq<Entry>) {
    forall i, j :: 0 <= i < j < |s| ==> s[i].index != s[j].index
  }

  lemma {:induction false} FilterDistinct(s: seq<Entry>, keep: Entry -> bool)
    requires DistinctIndices(s)
    ensures DistinctIndices(Filter(s, keep))
  {
    if s != [] {
      FilterDistinct(s[1..], keep);
      var r := Filter(s[1..], keep);
      forall j | 0 <= j < |r|
        ensures r[j].index != s[0].index
      {
        assert r[j] in s[1..];
      }
    }
  }

  lemma {:induction false} SortDistinct(s: seq<Entry>)
    requires DistinctIndices(s)
    ensures DistinctIndices(StableSort(s, EntryLe))
  {
    if s != [] {
      SortDistinct(s[1..]);
      var t := StableSort(s[1..], EntryLe);
      SameElements(t, s[1..]);
      forall y | y in t
        ensures y.index != s[0].index
      {
        var k :| 0 <= k < |s[1..]| && s[1..][k] == y;
        assert s[k + 1] == y;
      }
      InsertDistinct(s[0], t);
    }
  }

  lemma {:induction false} InsertDistinct(x: Entry, s: seq<Entry>)
    requires DistinctIndices(s) && forall y :: y in s ==> y.index != x.index
    ensures DistinctIndices(Insert(x, s, EntryLe))
  {
    hide EntryLe;
    if s != [] && !EntryLe(x, s[0]) {
      InsertDistinct(x, s[1..]);
      var t := Insert(x, s[1..], EntryLe);
      InsertElements(x, s[1..], EntryLe);
      forall j | 0 <= j < |t|
        ensures t[j].index != s[0].index
      {
        assert t[j] in t;
        if t[j] != x {
          var k :| 0 <= k < |s[1..]| && s[1..][k] == t[j];
          assert s[k + 1] == t[j];
        }
      }
    }
  }

  lemma {:induction false} FilterTwice<T(!new)>(s: seq<T>, p: T -> bool, q: T -> bool, both: T -> bool)
    requires forall x :: x in s ==> (both(x) <==> p(x) && q(x))
    ensures Filter(Filter(s, p), q) == Filter(s, both)
  {
    if s != [] {
      FilterTwice(s[1..], p, q, both);
      if p(s[0]) {
        assert ([s[0]] + Filter(s[1..], p))[1..] == Filter(s[1..], p);
      }
    }
  }

  lemma RetainedIsSuffix(items: seq<Media>, now: u64, decisions: seq<Decision>)
    requires Decides(items, now, decisions)
    ensures RetainedBytes(items, decisions) == Bytes(EvictionOrder(items, now)[EvictedCount(items, now)..])
  {
    var order := EvictionOrder(items, now);
    var k := EvictedCount(items, now);
    var kept := (e: Entry) => !Evicted(items, now, e.index);
    RetainedComposes(items, now, decisions, kept);
    KeptInOrder(items, now, kept);
    OrderSplits(items, now);
    FilterSuffix(order, k, kept);
  }

  lemma KeptInOrder(items: seq<Media>, now: u64, kept: Entry -> bool)
    ensures Bytes(Filter(Live(items, now), kept)) == Bytes(Filter(EvictionOrder(items, now), kept))
  {
    EntryOrder();
    FilterSort(Live(items, now), EntryLe, kept);
    BytesSort(Filter(Live(items, now), kept));
  }

  lemma {:induction false} FilterSuffix<T(!new)>(s: seq<T>, k: nat, keep: T -> bool)
    requires k <= |s|
    requires forall x :: x in s[..k] ==> !keep(x)
    requires forall x :: x in s[k..] ==> keep(x)
    ensures Filter(s, keep) == s[k..]
  {
    hide Filter;
    assert s == s[..k] + s[k..];
    FilterConcat(s[..k], s[k..], keep);
    FilterNone(s[..k], keep);
    FilterAll(s[k..], keep);
  }

  lemma RetainedComposes(items: seq<Media>, now: u64, decisions: seq<Decision>, kept: Entry -> bool)
    requires Decides(items, now, decisions)
    requires forall e :: kept(e) <==> !Evicted(items, now, e.index)
    ensures Filter(Live(items, now), kept) == Filter(Entries(items), StillCounts(decisions))
  {
    hide Evicted;
    forall e | e in Entries(items)
      ensures StillCounts(decisions)(e) <==> CountsAt(now)(e) && kept(e)
    {
      assert e == Entry(e.index, items[e.index]);
    }
    FilterTwice(Entries(items), CountsAt(now), kept, StillCounts(decisions));
  }

  /** The evicted entries are a prefix of the order and nothing else. */
  lemma OrderSplits(items: seq<Media>, now: u64)
    ensures var order := EvictionOrder(items, now); var k := EvictedCount(items, now);
      && k <= |order|
      && (forall e :: e in order[..k] ==> Evicted(items, now, e.index))
      && (forall e :: e in order[k..] ==> !Evicted(items, now, e.index))
  {
    var order := EvictionOrder(items, now);
    var k := EvictedCount(items, now);
    assert DistinctIndices(Entries(items));
    FilterDistinct(Entries(items), CountsAt(now));
    SortDistinct(Live(items, now));
  }

  // ----- The decisions, field by field

  /** Neither confirmed nor thirty days old. */
  ghost predicate Provisional(m: Media, now: u64) {
    !m.confirmed && now < m.created + 2_592_000_000
  }

  /** The first item is older, or as old and first by name, or alike and first in the input. */
  ghost predicate GoesBefore(items: seq<Media>, i: nat, j: nat)
    requires i < |items| && j < |items|
  {
    var a, b := items[i], items[j];
    a.created < b.created || (a.created == b.created && (if a.id == b.id then i < j else Alphabetical(a.id, b.id)))
  }

  /** The bytes of the items at these places. */
  ghost function BytesAt(items: seq<Media>, places: nat -> bool): nat {
    if items == [] then 0
    else
      var n := |items| - 1;
      BytesAt(items[..n], places) + if places(n) then items[n].bytes else 0
  }

  ghost function ProvisionalAt(items: seq<Media>, now: u64): nat -> bool {
    (j: nat) => j < |items| && Provisional(items[j], now)
  }

  ghost function OlderThan(items: seq<Media>, now: u64, i: nat): nat -> bool
    requires i < |items|
  {
    (j: nat) => j < |items| && Provisional(items[j], now) && GoesBefore(items, j, i)
  }

  /** The same as an order of entries. */
  ghost predicate Out(a: Entry, b: Entry) {
    EntryLe(a, b) && (EntryLe(b, a) ==> a.index < b.index)
  }

  ghost predicate OutInOrder(s: seq<Entry>) {
    forall i, j :: 0 <= i < j < |s| ==> Out(s[i], s[j])
  }

  lemma {:induction false} InsertOut(x: Entry, s: seq<Entry>)
    requires OutInOrder(s) && forall y :: y in s ==> x.index < y.index
    ensures OutInOrder(Insert(x, s, EntryLe))
  {
    EntryOrder();
    hide EntryLe;
    if s == [] {
    } else if EntryLe(x, s[0]) {
      forall j | 0 <= j < |s|
        ensures Out(x, s[j])
      {
        assert s[j] in s && EntryLe(s[0], s[j]);
      }
    } else {
      InsertOut(x, s[1..]);
      var t := Insert(x, s[1..], EntryLe);
      InsertElements(x, s[1..], EntryLe);
      forall j | 0 <= j < |t|
        ensures Out(s[0], t[j])
      {
        assert t[j] in t;
        if t[j] != x {
          var k :| 0 <= k < |s[1..]| && s[1..][k] == t[j];
          assert s[k + 1] == t[j];
        }
      }
    }
  }

  ghost predicate Increasing(s: seq<Entry>) {
    forall i, j :: 0 <= i < j < |s| ==> s[i].index < s[j].index
  }

  lemma {:induction false} SortOut(s: seq<Entry>)
    requires Increasing(s)
    ensures OutInOrder(StableSort(s, EntryLe))
  {
    hide EntryLe;
    if s != [] {
      SortOut(s[1..]);
      SameElements(StableSort(s[1..], EntryLe), s[1..]);
      forall y | y in s[1..]
        ensures s[0].index < y.index
      {
        var k :| 0 <= k < |s[1..]| && s[1..][k] == y;
        assert s[k + 1] == y;
      }
      hide OutInOrder;
      InsertOut(s[0], StableSort(s[1..], EntryLe));
    }
  }

  lemma {:induction false} FilterIncreasing(s: seq<Entry>, keep: Entry -> bool)
    requires Increasing(s)
    ensures Increasing(Filter(s, keep))
  {
    if s != [] {
      FilterIncreasing(s[1..], keep);
      var r := Filter(s[1..], keep);
      forall j | 0 <= j < |r|
        ensures s[0].index < r[j].index
      {
        assert r[j] in s[1..];
      }
    }
  }

  ghost function OutOf(e: Entry): Entry -> bool {
    (x: Entry) => Out(x, e)
  }

  /** In that order the entries before a place are those that go before the one there. */
  lemma {:induction false} PrefixIsOut(s: seq<Entry>, k: nat)
    requires OutInOrder(s) && k < |s|
    ensures Filter(s, OutOf(s[k])) == s[..k]
  {
    EntryOrder();
    hide EntryLe;
    var keep := OutOf(s[k]);
    FilterConcat(s[..k], s[k..], keep);
    assert s == s[..k] + s[k..];
    forall x | x in s[..k]
      ensures keep(x)
    {
    }
    FilterAll(s[..k], keep);
    forall x | x in s[k..]
      ensures !keep(x)
    {
      var j :| 0 <= j < |s[k..]| && s[k..][j] == x;
      assert s[k + j] == x;
      if j > 0 {
        assert Out(s[k], s[k + j]);
      }
    }
    FilterNone(s[k..], keep);
  }

  lemma {:induction false} BytesJoin(a: seq<Entry>, b: seq<Entry>)
    ensures Bytes(a + b) == Bytes(a) + Bytes(b)
  {
    BytesSplit(a + b, |a|);
    assert (a + b)[..|a|] == a && (a + b)[|a|..] == b;
  }

  lemma {:induction false} BytesFiltered(items: seq<Media>, keep: Entry -> bool, places: nat -> bool)
    requires forall j: nat :: j < |items| ==> (places(j) <==> keep(Entry(j, items[j])))
    ensures Bytes(Filter(Entries(items), keep)) == BytesAt(items, places)
  {
    if items != [] {
      var n := |items| - 1;
      var last := Entry(n, items[n]);
      BytesFiltered(items[..n], keep, places);
      assert Entries(items) == Entries(items[..n]) + [last];
      FilterConcat(Entries(items[..n]), [last], keep);
      assert [last][1..] == [];
      BytesJoin(Filter(Entries(items[..n]), keep), Filter([last], keep));
    }
  }

  lemma CountsIff(items: seq<Media>, now: u64, j: nat)
    requires j < |items|
    ensures CountsAt(now)(Entry(j, items[j])) <==> Provisional(items[j], now)
    ensures Expired(items[j], now) <==> !items[j].confirmed && items[j].created + 2_592_000_000 <= now
  {
  }

  lemma OutIff(items: seq<Media>, i: nat, j: nat)
    requires i < |items| && j < |items|
    ensures Out(Entry(j, items[j]), Entry(i, items[i])) <==> GoesBefore(items, j, i)
  {
    var a, b := items[j].id, items[i].id;
    StrLeIff(a, b);
    StrLeIff(b, a);
    StrOrder();
    hide StrLe;
    hide Alphabetical;
    assert StrLe(a, b) || StrLe(b, a);
  }

  lemma {:induction false} LiveBytes(items: seq<Media>, now: u64)
    ensures Bytes(Live(items, now)) == BytesAt(items, ProvisionalAt(items, now))
  {
    forall j: nat | j < |items|
      ensures ProvisionalAt(items, now)(j) <==> CountsAt(now)(Entry(j, items[j]))
    {
      CountsIff(items, now, j);
    }
    BytesFiltered(items, CountsAt(now), ProvisionalAt(items, now));
  }

  /** What the eviction order lists before an item is the provisional media that goes before it. */
  lemma {:induction false} BytesBefore(items: seq<Media>, now: u64, i: nat, k: nat)
    requires i < |items| && k < |EvictionOrder(items, now)| && EvictionOrder(items, now)[k] == Entry(i, items[i])
    ensures Bytes(EvictionOrder(items, now)[..k]) == BytesAt(items, OlderThan(items, now, i))
  {
    var order, live := EvictionOrder(items, now), Live(items, now);
    var pre := OutOf(order[k]);
    FilterIncreasing(Entries(items), CountsAt(now));
    SortOut(live);
    PrefixIsOut(order, k);
    EntryOrder();
    FilterSort(live, EntryLe, pre);
    BytesSort(Filter(live, pre));
    var both := (e: Entry) => CountsAt(now)(e) && pre(e);
    FilterTwice(Entries(items), CountsAt(now), pre, both);
    forall j: nat | j < |items|
      ensures OlderThan(items, now, i)(j) <==> both(Entry(j, items[j]))
    {
      CountsIff(items, now, j);
      OutIff(items, i, j);
    }
    hide Out;
    hide EntryLe;
    BytesFiltered(items, both, OlderThan(items, now, i));
  }

  /** A provisional item is evicted exactly when the provisional bytes, capped at the largest u64, less
      those of all that goes before it, are still more than two gibibytes. */
  lemma {:induction false} DecisionIff(items: seq<Media>, now: u64, decisions: seq<Decision>, i: nat)
    requires Decides(items, now, decisions) && i < |items|
    ensures var m, reason := items[i], decisions[i].reason;
      && decisions[i].id == m.id
      && (m.confirmed ==> reason == Retain)
      && (!m.confirmed && m.created + 2_592_000_000 <= now ==> reason == ExpiredAfterThirtyDays)
      && (Provisional(m, now) ==>
            var total := BytesAt(items, ProvisionalAt(items, now));
            reason == if Min(total, 0xFFFF_FFFF_FFFF_FFFF) - BytesAt(items, OlderThan(items, now, i)) > 2_147_483_648
                      then EvictedBySessionBudget else Retain)
  {
    CountsIff(items, now, i);
    OrderIndices(items, now);
    if Provisional(items[i], now) {
      var k := PlaceOf(items, now, i);
      EvictedIff(items, now, i, k);
    }
  }

  lemma {:induction false} EvictedIff(items: seq<Media>, now: u64, i: nat, k: nat)
    requires i < |items| && k < |EvictionOrder(items, now)| && EvictionOrder(items, now)[k] == Entry(i, items[i])
    ensures var total := BytesAt(items, ProvisionalAt(items, now));
      Evicted(items, now, i) <==> Min(total, U64_MAX) - BytesAt(items, OlderThan(items, now, i)) > CAPTURE_SESSION_BUDGET_BYTES
  {
    hide EvictionOrder;
    hide Live;
    hide Bytes;
    hide BytesAt;
    BytesBefore(items, now, i, k);
    LiveBytes(items, now);
    OrderBytes(items, now);
    var order := EvictionOrder(items, now);
    var tracked := Min(Bytes(Live(items, now)), U64_MAX);
    StopsAtFirst(order, tracked);
    var n := Evictions(order, tracked);
    if n <= k {
      BytesPrefix(order, n, k);
    }
    OrderDistinct(items, now);
  }

  lemma OrderBytes(items: seq<Media>, now: u64)
    ensures Bytes(EvictionOrder(items, now)) == Bytes(Live(items, now))
  {
    BytesSort(Live(items, now));
  }

  lemma OrderDistinct(items: seq<Media>, now: u64)
    ensures DistinctIndices(EvictionOrder(items, now))
  {
    hide StableSort;
    FilterDistinct(Entries(items), CountsAt(now));
    SortDistinct(Live(items, now));
  }
}
