/** What the callsign cache answers, told without the cache: from the log of grids heard.
    The main results are `Exactness` (every answer over every run) and the persistence lemmas. */
module CacheHistory {
  import opened Text
  import opened Locator
  import opened Sets
  import opened CallsignCache

  /** One grid heard for a callsign, that is, one update with a valid grid. */
  datatype Heard = Heard(call: string, grid: string, ts: real)

  function Time(op: Op): real {
    op.ts
  }

  ghost predicate Monotone(ops: seq<Op>) {
    forall i, j :: 0 <= i < j < |ops| ==> Time(ops[i]) <= Time(ops[j])
  }

  ghost predicate NoLaterThan(ops: seq<Op>, t: real) {
    forall i :: 0 <= i < |ops| ==> Time(ops[i]) <= t
  }

  /** The log that a starting dictionary stands for: one entry per item, in order. */
  function LogOfItems(items: seq<Item>): (log: seq<Heard>)
    ensures |log| == |items|
    ensures forall i :: 0 <= i < |log| ==> log[i] == Heard(items[i].call, items[i].entry.grid, items[i].entry.lastSeen)
  {
    seq(|items|, i requires 0 <= i < |items| => Heard(items[i].call, items[i].entry.grid, items[i].entry.lastSeen))
  }

  function Log(start: seq<Item>, ops: seq<Op>): seq<Heard> {
    if ops == [] then LogOfItems(start)
    else
      var op, before := ops[|ops| - 1], Log(start, ops[..|ops| - 1]);
      if op.Update? && GridToLatLon(op.grid).Some? then before + [Heard(op.call, op.grid, op.ts)] else before
  }

  /** Where `call` was last heard, or -1. */
  function Last(log: seq<Heard>, call: string): (i: int)
    ensures -1 <= i < |log|
    ensures i >= 0 ==> log[i].call == call
    ensures forall j :: i < j < |log| ==> log[j].call != call
  {
    if log == [] then -1
    else if log[|log| - 1].call == call then |log| - 1
    else Last(log[..|log| - 1], call)
  }

  /** The other callsigns heard after `call` was last heard. */
  function HeardSince(log: seq<Heard>, call: string): set<string> {
    set j | Last(log, call) < j < |log| :: log[j].call
  }

  /** The answer a lookup ought to give: the grid last heard, unless it is older than the limit
      or `max` or more other callsigns have been heard since. */
  function Answer(log: seq<Heard>, max: nat, ttl: real, call: string, t: real): Option<string> {
    var i := Last(log, call);
    if i >= 0 && t - log[i].ts <= ttl && |HeardSince(log, call)| < max then Some(log[i].grid) else None
  }

  // --- facts about the log ----------------------------------------------------

  lemma LastOfAppend(log: seq<Heard>, u: Heard, call: string)
    ensures Last(log + [u], call) == if u.call == call then |log| else Last(log, call)
    ensures HeardSince(log + [u], call) == if u.call == call then {} else HeardSince(log, call) + {u.call}
  {
    var log' := log + [u];
    assert log'[..|log|] == log;
    if u.call != call {
      forall c ensures c in HeardSince(log', call) <==> c in HeardSince(log, call) + {u.call} {
        if c in HeardSince(log', call) {
          var j :| Last(log', call) < j < |log'| && log'[j].call == c;
          assert j < |log| ==> log[j].call == c;
        }
        if c in HeardSince(log, call) {
          var j :| Last(log, call) < j < |log| && log[j].call == c;
          assert log'[j].call == c;
        }
        assert log'[|log|].call == u.call;
      }
    }
  }

  lemma HeardSinceIsLater(log: seq<Heard>, x: string, y: string)
    requires Last(log, y) >= 0 && x != y
    ensures y in HeardSince(log, x) <==> Last(log, x) < Last(log, y)
  {
  }

  lemma HeardSinceShrinks(log: seq<Heard>, x: string, y: string)
    requires y in HeardSince(log, x)
    ensures |HeardSince(log, y)| < |HeardSince(log, x)|
  {
    var j :| Last(log, x) < j < |log| && log[j].call == y;
    assert Last(log, x) < Last(log, y);
    assert HeardSince(log, y) < HeardSince(log, x);
    StrictSubsetSize(HeardSince(log, y), HeardSince(log, x));
  }

  // --- the invariant ----------------------------------------------------------

  ghost predicate Sorted(log: seq<Heard>, now: real) {
    && (forall i, j :: 0 <= i < j < |log| ==> log[i].ts <= log[j].ts)
    && (forall i :: 0 <= i < |log| ==> log[i].ts <= now)
  }

  /** Every item repeats the last thing heard for its callsign, and items stand in the order
      their callsigns were last heard. */
  ghost predicate Mirrors(items: seq<Item>, log: seq<Heard>) {
    && Distinct(items)
    && (forall i :: 0 <= i < |items| ==>
          var k := Last(log, items[i].call);
          k >= 0 && items[i].entry.grid == log[k].grid && items[i].entry.lastSeen == log[k].ts)
    && (forall i, j :: 0 <= i < j < |items| ==> Last(log, items[i].call) < Last(log, items[j].call))
  }

  ghost predicate FreshAt(log: seq<Heard>, ttl: real, call: string, now: real) {
    var k := Last(log, call);
    k >= 0 && now - log[k].ts <= ttl
  }

  /** Among callsigns still fresh, the dictionary holds exactly those with fewer than `max`
      others heard since. */
  ghost predicate HoldsTheRight(items: seq<Item>, log: seq<Heard>, max: nat, ttl: real, now: real) {
    forall c :: FreshAt(log, ttl, c, now) ==> (Holds(items, c) <==> |HeardSince(log, c)| < max)
  }

  ghost predicate Inv(items: seq<Item>, log: seq<Heard>, max: nat, ttl: real, now: real) {
    Sorted(log, now) && Mirrors(items, log) && HoldsTheRight(items, log, max, ttl, now)
  }

  // --- updates ----------------------------------------------------------------

  function Calls(items: seq<Item>): set<string> {
    set i | 0 <= i < |items| :: items[i].call
  }

  lemma CallsOfAppend(items: seq<Item>, last: Item)
    ensures Calls(items + [last]) == Calls(items) + {last.call}
  {
    var all := items + [last];
    forall c | c in Calls(items) ensures c in Calls(all) {
      var i :| 0 <= i < |items| && items[i].call == c;
      assert all[i].call == c;
    }
    assert all[|items|].call == last.call;
  }

  lemma CallsCount(items: seq<Item>)
    requires Distinct(items)
    ensures |Calls(items)| == |items|
  {
    if items != [] {
      var n := |items| - 1;
      CallsCount(items[..n]);
      CallsOfAppend(items[..n], items[n]);
      assert items == items[..n] + [items[n]];
      assert items[n].call !in Calls(items[..n]);
    }
  }

  /** `part` is `items` with some of them left out: position i of it is position f[i]. */
  ghost predicate Picks(part: seq<Item>, items: seq<Item>, f: seq<int>) {
    && |f| == |part|
    && (forall i :: 0 <= i < |f| ==> 0 <= f[i] < |items| && part[i] == items[f[i]])
    && (forall i, j :: 0 <= i < j < |f| ==> f[i] < f[j])
  }

  lemma PartMirrors(part: seq<Item>, items: seq<Item>, f: seq<int>, log: seq<Heard>)
    requires Mirrors(items, log) && Picks(part, items, f)
    ensures Mirrors(part, log)
    ensures forall c :: Holds(part, c) ==> Holds(items, c)
  {
    forall i, j | 0 <= i < j < |part|
      ensures part[i].call != part[j].call && Last(log, part[i].call) < Last(log, part[j].call)
    {
      assert f[i] < f[j];
    }
    forall c | Holds(part, c) ensures Holds(items, c) {
      var i :| 0 <= i < |part| && part[i].call == c;
      assert items[f[i]].call == c;
    }
  }

  lemma WithoutMirrors(items: seq<Item>, log: seq<Heard>, call: string)
    requires Mirrors(items, log)
    ensures Mirrors(Without(items, call), log)
  {
    var f := WithoutPicks(items, call);
    PartMirrors(Without(items, call), items, f, log);
  }

  lemma WithoutPicks(items: seq<Item>, call: string) returns (f: seq<int>)
    ensures Picks(Without(items, call), items, f)
  {
    var i, w := IndexOf(items, call), Without(items, call);
    f := seq(|w|, k requires 0 <= k < |w| => if k < i then k else k + 1);
  }

  lemma NewestMirrors(items: seq<Item>, log: seq<Heard>, max: nat)
    requires Mirrors(items, log)
    ensures Mirrors(Newest(items, max), log)
  {
    var part := Newest(items, max);
    var f := seq(|part|, k requires 0 <= k < |part| => k + |items| - |part|);
    PartMirrors(part, items, f, log);
  }

  /** After learning and before evicting, a fresh callsign at position `p` has exactly the
      callsigns behind it heard since. */
  lemma BehindIsSince(d: seq<Item>, log: seq<Heard>, p: nat)
    requires Mirrors(d, log) && p < |d|
    requires forall c :: c in HeardSince(log, d[p].call) ==> Holds(d, c)
    ensures |HeardSince(log, d[p].call)| == |d| - 1 - p
  {
    var x, behind := d[p].call, d[p + 1..];
    assert HeardSince(log, x) == Calls(behind) by {
      forall c ensures c in HeardSince(log, x) <==> c in Calls(behind) {
        if c in Calls(behind) {
          var i :| 0 <= i < |behind| && behind[i].call == c;
          assert d[p + 1 + i].call == c;
          HeardSinceIsLater(log, x, c);
        }
        if c in HeardSince(log, x) {
          assert c != x;
          var q :| 0 <= q < |d| && d[q].call == c;
          HeardSinceIsLater(log, x, c);
          assert q > p;
          assert behind[q - p - 1].call == c;
        }
      }
    }
    CallsCount(behind);
  }

  lemma AppendMirrors(w: seq<Item>, log: seq<Heard>, item: Item, u: Heard)
    requires Mirrors(w, log) && !Holds(w, item.call)
    requires u == Heard(item.call, item.entry.grid, item.entry.lastSeen)
    ensures Mirrors(w + [item], log + [u])
  {
    var d, log' := w + [item], log + [u];
    forall i | 0 <= i < |w|
      ensures d[i] == w[i] && Last(log', d[i].call) == Last(log, w[i].call) && w[i].call != item.call
    {
      LastOfAppend(log, u, w[i].call);
    }
    LastOfAppend(log, u, item.call);
  }

  lemma LearnedHolds(items: seq<Item>, call: string, grid: string, p: Point, ts: real, c: string)
    requires Distinct(items)
    ensures Holds(Learned(items, call, grid, p, ts), c) <==> c == call || Holds(items, c)
  {
    var w, d := Without(items, call), Learned(items, call, grid, p, ts);
    WithoutKeeps(items, call);
    assert d[|w|].call == call;
    if c != call && Holds(items, c) {
      var i :| 0 <= i < |w| && w[i].call == c;
      assert d[i].call == c;
    }
    if Holds(d, c) && c != call {
      var i :| 0 <= i < |d| && d[i].call == c;
      assert w[i].call == c;
    }
  }

  lemma LearnedMirrors(items: seq<Item>, log: seq<Heard>, call: string, grid: string, p: Point, ts: real)
    requires Mirrors(items, log)
    ensures Mirrors(Learned(items, call, grid, p, ts), log + [Heard(call, grid, ts)])
    ensures forall c :: Holds(Learned(items, call, grid, p, ts), c) <==> c == call || Holds(items, c)
  {
    var w, d := Without(items, call), Learned(items, call, grid, p, ts);
    WithoutKeeps(items, call);
    WithoutMirrors(items, log, call);
    AppendMirrors(w, log, d[|w|], Heard(call, grid, ts));
    forall c ensures Holds(d, c) <==> c == call || Holds(items, c) {
      LearnedHolds(items, call, grid, p, ts, c);
    }
  }

  lemma NewestHolds(d: seq<Item>, max: nat, p: nat)
    requires Distinct(d) && p < |d|
    ensures Holds(Newest(d, max), d[p].call) <==> |d| - p <= max
  {
    if |d| - p <= max {
      assert Newest(d, max)[if |d| > max then p - (|d| - max) else p] == d[p];
    }
  }

  /** One callsign's share of `UpdateKeeps`. */
  lemma UpdateHolds(items: seq<Item>, log: seq<Heard>, max: nat, ttl: real, now: real,
                    d: seq<Item>, u: Heard, c: string)
    requires Inv(items, log, max, ttl, now) && now <= u.ts
    requires Mirrors(d, log + [u])
    requires forall x :: Holds(d, x) <==> x == u.call || Holds(items, x)
    requires FreshAt(log + [u], ttl, c, u.ts)
    ensures Holds(Newest(d, max), c) <==> |HeardSince(log + [u], c)| < max
  {
    var log' := log + [u];
    LastOfAppend(log, u, c);
    if Holds(d, c) {
      assert c != u.call ==> FreshAt(log, ttl, c, now) && |HeardSince(log, c)| < max;
      forall y | y in HeardSince(log', c) ensures Holds(d, y) {
        if y != u.call {
          HeardSinceShrinks(log, c, y);
          HeardSinceIsLater(log, c, y);
          assert FreshAt(log, ttl, y, now);
        }
      }
      var q :| 0 <= q < |d| && d[q].call == c;
      BehindIsSince(d, log', q);
      NewestHolds(d, max, q);
    } else {
      assert FreshAt(log, ttl, c, now);
      SubsetSize(HeardSince(log, c), HeardSince(log', c));
      NewestIsPart(d, max, c);
    }
  }

  lemma NewestIsPart(d: seq<Item>, max: nat, c: string)
    ensures Holds(Newest(d, max), c) ==> Holds(d, c)
  {
    var n := Newest(d, max);
    assert forall i :: 0 <= i < |n| ==> n[i] == d[i + |d| - |n|];
  }

  lemma SortedAppend(log: seq<Heard>, now: real, u: Heard)
    requires Sorted(log, now) && now <= u.ts
    ensures Sorted(log + [u], u.ts)
  {
  }

  lemma UpdateHoldsTheRight(items: seq<Item>, log: seq<Heard>, max: nat, ttl: real, now: real, d: seq<Item>, u: Heard)
    requires Inv(items, log, max, ttl, now) && now <= u.ts
    requires Mirrors(d, log + [u])
    requires forall x :: Holds(d, x) <==> x == u.call || Holds(items, x)
    ensures HoldsTheRight(Newest(d, max), log + [u], max, ttl, u.ts)
  {
    forall c | FreshAt(log + [u], ttl, c, u.ts)
      ensures Holds(Newest(d, max), c) <==> |HeardSince(log + [u], c)| < max
    {
      UpdateHolds(items, log, max, ttl, now, d, u, c);
    }
  }

  lemma UpdateKeeps(items: seq<Item>, log: seq<Heard>, max: nat, ttl: real, now: real,
                    call: string, grid: string, p: Point, ts: real)
    requires Inv(items, log, max, ttl, now) && now <= ts
    ensures Inv(Newest(Learned(items, call, grid, p, ts), max), log + [Heard(call, grid, ts)], max, ttl, ts)
  {
    var d, u := Learned(items, call, grid, p, ts), Heard(call, grid, ts);
    LearnedMirrors(items, log, call, grid, p, ts);
    NewestMirrors(d, log + [u], max);
    SortedAppend(log, now, u);
    UpdateHoldsTheRight(items, log, max, ttl, now, d, u);
  }

  // --- lookups and prunes -----------------------------------------------------

  lemma ForgetExpired(items: seq<Item>, log: seq<Heard>, max: nat, ttl: real, now: real, ts: real, items': seq<Item>)
    requires Inv(items, log, max, ttl, now) && now <= ts
    requires Mirrors(items', log)
    requires forall c :: Holds(items', c) ==> Holds(items, c)
    requires forall i :: 0 <= i < |items| && !Expired(items[i].entry, ttl, ts) ==> Holds(items', items[i].call)
    ensures Inv(items', log, max, ttl, ts)
  {
    forall c | FreshAt(log, ttl, c, ts) ensures Holds(items', c) <==> |HeardSince(log, c)| < max {
      assert FreshAt(log, ttl, c, now);
      if Holds(items, c) {
        var i :| 0 <= i < |items| && items[i].call == c;
        assert !Expired(items[i].entry, ttl, ts);
      }
    }
  }

  function KeptIndices(items: seq<Item>, ttl: real, ts: real): seq<int> {
    if items == [] then []
    else
      var n := |items| - 1;
      var kept := KeptIndices(items[..n], ttl, ts);
      if Expired(items[n].entry, ttl, ts) then kept else kept + [n]
  }

  lemma PrunedPicks(items: seq<Item>, ttl: real, ts: real)
    ensures Picks(Pruned(items, ttl, ts), items, KeptIndices(items, ttl, ts))
  {
  }

  lemma PrunedKeepsFresh(items: seq<Item>, ttl: real, ts: real, i: nat)
    requires i < |items| && !Expired(items[i].entry, ttl, ts)
    ensures Holds(Pruned(items, ttl, ts), items[i].call)
  {
    var n, p := |items| - 1, Pruned(items, ttl, ts);
    if i == n {
      assert p[|p| - 1] == items[i];
    } else {
      PrunedKeepsFresh(items[..n], ttl, ts, i);
      var before := Pruned(items[..n], ttl, ts);
      var k :| 0 <= k < |before| && before[k].call == items[i].call;
      assert p[k] == before[k];
    }
  }

  // --- whole runs -------------------------------------------------------------

  /** A dictionary as it can stand after a load: distinct, oldest first, within the bound. */
  ghost predicate GoodStart(start: seq<Item>, max: nat) {
    && Distinct(start) && |start| <= max
    && (forall i, j :: 0 <= i < j < |start| ==> start[i].entry.lastSeen <= start[j].entry.lastSeen)
  }

  ghost predicate SeenBy(start: seq<Item>, t: real) {
    forall i :: 0 <= i < |start| ==> start[i].entry.lastSeen <= t
  }

  lemma LastInItems(items: seq<Item>)
    requires Distinct(items)
    ensures forall i :: 0 <= i < |items| ==> Last(LogOfItems(items), items[i].call) == i
    ensures Mirrors(items, LogOfItems(items))
  {
    var log := LogOfItems(items);
    forall i | 0 <= i < |items| ensures Last(log, items[i].call) == i {
      assert log[i].call == items[i].call;
    }
  }

  lemma StartHolds(start: seq<Item>, max: nat, ttl: real, now: real)
    requires GoodStart(start, max) && SeenBy(start, now)
    ensures Inv(start, LogOfItems(start), max, ttl, now)
  {
    var log := LogOfItems(start);
    LastInItems(start);
    forall c | FreshAt(log, ttl, c, now) ensures Holds(start, c) && |HeardSince(log, c)| < max {
      var k := Last(log, c);
      assert start[k].call == c;
      forall y | y in HeardSince(log, c) ensures Holds(start, y) {
        var j :| k < j < |log| && log[j].call == y;
        assert start[j].call == y;
      }
      BehindIsSince(start, log, k);
    }
  }

  /** The invariant holds after every run with a clock that does not go back. */
  lemma {:induction false} RunKeeps(start: seq<Item>, max: nat, ttl: real, ops: seq<Op>, now: real)
    requires GoodStart(start, max) && Monotone(ops) && NoLaterThan(ops, now)
    requires SeenBy(start, if ops == [] then now else Time(ops[0]))
    ensures Inv(Run(start, max, ttl, ops), Log(start, ops), max, ttl, now)
  {
    if ops == [] {
      StartHolds(start, max, ttl, now);
    } else {
      var before, op := ops[..|ops| - 1], ops[|ops| - 1];
      var items, log := Run(start, max, ttl, before), Log(start, before);
      assert before != [] ==> before[0] == ops[0];
      RunKeeps(start, max, ttl, before, Time(op));
      ApplyKeeps(items, log, max, ttl, op);
      var items' := Run(start, max, ttl, ops);
      assert Inv(items', Log(start, ops), max, ttl, Time(op));
      Later(items', Log(start, ops), max, ttl, Time(op), now);
    }
  }

  lemma ApplyKeeps(items: seq<Item>, log: seq<Heard>, max: nat, ttl: real, op: Op)
    requires Inv(items, log, max, ttl, Time(op))
    ensures var log' := if op.Update? && GridToLatLon(op.grid).Some?
                        then log + [Heard(op.call, op.grid, op.ts)] else log;
            Inv(Apply(items, max, ttl, op), log', max, ttl, Time(op))
  {
    match op
    case Update(call, grid, ts) =>
      var point := GridToLatLon(grid);
      if point.Some? {
        UpdateKeeps(items, log, max, ttl, ts, call, grid, point.value, ts);
      }
    case Lookup(call, ts) =>
      var items' := AfterLookup(items, ttl, call, ts);
      WithoutKeeps(items, call);
      WithoutMirrors(items, log, call);
      forall i | 0 <= i < |items| && !Expired(items[i].entry, ttl, ts) ensures Holds(items', items[i].call) {
        assert Holds(items, items[i].call);
      }
      ForgetExpired(items, log, max, ttl, ts, ts, items');
    case Prune(ts) =>
      PrunedPicks(items, ttl, ts);
      PartMirrors(Pruned(items, ttl, ts), items, KeptIndices(items, ttl, ts), log);
      forall i | 0 <= i < |items| && !Expired(items[i].entry, ttl, ts)
        ensures Holds(Pruned(items, ttl, ts), items[i].call)
      {
        PrunedKeepsFresh(items, ttl, ts, i);
      }
      ForgetExpired(items, log, max, ttl, ts, ts, Pruned(items, ttl, ts));
  }

  lemma Later(items: seq<Item>, log: seq<Heard>, max: nat, ttl: real, now: real, later: real)
    requires Inv(items, log, max, ttl, now) && now <= later
    ensures Inv(items, log, max, ttl, later)
  {
    forall c | FreshAt(log, ttl, c, later) ensures FreshAt(log, ttl, c, now) {
    }
  }

  lemma FoundIsAnswer(items: seq<Item>, log: seq<Heard>, max: nat, ttl: real, call: string, t: real)
    requires Inv(items, log, max, ttl, t)
    ensures Found(items, ttl, call, t) == Answer(log, max, ttl, call, t)
  {
    var i := IndexOf(items, call);
    if i < |items| {
      assert Holds(items, call);
      assert FreshAt(log, ttl, call, t) <==> !Expired(items[i].entry, ttl, t);
    } else {
      assert !Holds(items, call);
      assert FreshAt(log, ttl, call, t) ==> |HeardSince(log, call)| >= max;
    }
  }

  /** Over every run of updates, lookups and prunes with a clock that does not go back, a lookup
      answers from the log alone: lazy expiry, pruning and eviction change no answer except by
      the age limit and the count of other callsigns heard since. */
  lemma Exactness(start: seq<Item>, max: nat, ttl: real, ops: seq<Op>, call: string, t: real)
    requires GoodStart(start, max) && Monotone(ops) && NoLaterThan(ops, t)
    requires SeenBy(start, if ops == [] then t else Time(ops[0]))
    ensures Found(Run(start, max, ttl, ops), ttl, call, t) == Answer(Log(start, ops), max, ttl, call, t)
  {
    RunKeeps(start, max, ttl, ops, t);
    FoundIsAnswer(Run(start, max, ttl, ops), Log(start, ops), max, ttl, call, t);
  }

  /** One operation on the cache object. */
  method Perform(cache: Cache, op: Op)
    requires cache.Valid()
    modifies cache
    ensures cache.Valid() && cache.items == Apply(old(cache.items), cache.maxEntries, cache.entryTtlSec, op)
  {
    match op
    case Update(call, grid, ts) => cache.Update(call, grid, ts);
    case Lookup(call, ts) => var _ := cache.Lookup(call, ts);
    case Prune(ts) => var _ := cache.Prune(ts);
  }

  /** A run of operations on the cache object and a lookup after it: the answer is the log's. */
  method LookupAfter(cache: Cache, ops: seq<Op>, call: string, t: real) returns (grid: Option<string>)
    requires cache.Valid() && GoodStart(cache.items, cache.maxEntries)
    requires Monotone(ops) && NoLaterThan(ops, t)
    requires SeenBy(cache.items, if ops == [] then t else Time(ops[0]))
    modifies cache
    ensures cache.Valid()
    ensures grid == Answer(Log(old(cache.items), ops), cache.maxEntries, cache.entryTtlSec, call, t)
  {
    ghost var start := cache.items;
    for i := 0 to |ops|
      invariant cache.Valid() && cache.items == Run(start, cache.maxEntries, cache.entryTtlSec, ops[..i])
    {
      assert ops[..i + 1] == ops[..i] + [ops[i]];
      RunStep(start, cache.maxEntries, cache.entryTtlSec, ops[..i], ops[i]);
      Perform(cache, ops[i]);
    }
    assert ops[..|ops|] == ops;
    Exactness(start, cache.maxEntries, cache.entryTtlSec, ops, call, t);
    grid := cache.Lookup(call, t);
  }

  /** The dictionary never exceeds its bound and is always ordered by age, so what eviction
      takes from the old end is an oldest entry. */
  lemma OrderedAndBounded(start: seq<Item>, max: nat, ttl: real, ops: seq<Op>, now: real)
    requires GoodStart(start, max) && Monotone(ops) && NoLaterThan(ops, now)
    requires SeenBy(start, if ops == [] then now else Time(ops[0]))
    ensures GoodStart(Run(start, max, ttl, ops), max) && SeenBy(Run(start, max, ttl, ops), now)
  {
    RunKeeps(start, max, ttl, ops, now);
    RunBounded(start, max, ttl, ops);
  }

  lemma {:induction false} RunBounded(start: seq<Item>, max: nat, ttl: real, ops: seq<Op>)
    requires |start| <= max
    ensures |Run(start, max, ttl, ops)| <= max
  {
    if ops != [] {
      var before := ops[..|ops| - 1];
      RunBounded(start, max, ttl, before);
      PrunedShrinks(Run(start, max, ttl, before), ttl, ops[|ops| - 1].ts);
    }
  }

  lemma PrunedShrinks(items: seq<Item>, ttl: real, ts: real)
    ensures |Pruned(items, ttl, ts)| <= |items|
  {
  }

  // --- persistence ------------------------------------------------------------

  /** What the query `ORDER BY last_seen` may return for a saved dictionary: its items by age,
      ties in the order they were written. */
  ghost predicate QueryResult(saved: seq<Item>, rows: seq<Item>) {
    && |rows| == |saved|
    && (forall i :: 0 <= i < |rows| ==> Holds(saved, rows[i].call) && rows[i] in saved)
    && Distinct(rows)
    && (forall i, j :: 0 <= i < j < |rows| ==>
          || rows[i].entry.lastSeen < rows[j].entry.lastSeen
          || (rows[i].entry.lastSeen == rows[j].entry.lastSeen
              && IndexOf(saved, rows[i].call) < IndexOf(saved, rows[j].call)))
  }

  /** An increasing choice of `n` positions below `n` is the identity. */
  lemma IncreasingIsIdentity(f: seq<int>)
    requires forall i :: 0 <= i < |f| ==> 0 <= f[i] < |f|
    requires forall i, j :: 0 <= i < j < |f| ==> f[i] < f[j]
    ensures forall i :: 0 <= i < |f| ==> f[i] == i
  {
    forall i | 0 <= i < |f| ensures i <= f[i] <= i {
      AtLeast(f, i);
      AtMost(f, i);
    }
  }

  lemma {:induction false} AtLeast(f: seq<int>, i: nat)
    requires i < |f| && forall i :: 0 <= i < |f| ==> 0 <= f[i] < |f|
    requires forall i, j :: 0 <= i < j < |f| ==> f[i] < f[j]
    ensures f[i] >= i
  {
    if i > 0 {
      AtLeast(f, i - 1);
    }
  }

  lemma {:induction false} AtMost(f: seq<int>, i: nat)
    requires i < |f| && forall i :: 0 <= i < |f| ==> 0 <= f[i] < |f|
    requires forall i, j :: 0 <= i < j < |f| ==> f[i] < f[j]
    ensures f[i] <= i
    decreases |f| - i
  {
    if i + 1 < |f| {
      AtMost(f, i + 1);
    }
  }

  lemma RowsAreItems(saved: seq<Item>, rows: seq<Item>)
    requires Distinct(saved) && QueryResult(saved, rows)
    requires forall i, j :: 0 <= i < j < |saved| ==> saved[i].entry.lastSeen <= saved[j].entry.lastSeen
    ensures rows == saved
  {
    var f := seq(|rows|, i requires 0 <= i < |rows| => IndexOf(saved, rows[i].call));
    forall i | 0 <= i < |rows| ensures f[i] < |saved| && saved[f[i]] == rows[i] {
      var k :| 0 <= k < |saved| && saved[k] == rows[i];
    }
    IncreasingIsIdentity(f);
  }

  lemma LoadIntoEmpty(rows: seq<Item>)
    requires Distinct(rows)
    ensures AllAssigned([], rows) == rows
  {
    if rows != [] {
      var before := rows[..|rows| - 1];
      LoadIntoEmpty(before);
      assert IndexOf(before, rows[|rows| - 1].call) == |before|;
      assert rows == before + [rows[|rows| - 1]];
    }
  }

  /** Position k of the newest items is position `Gone + k` of all. */
  function Gone(saved: seq<Item>, max: nat): nat {
    if |saved| > max then |saved| - max else 0
  }

  lemma NewestShifts(saved: seq<Item>, max: nat)
    ensures |Newest(saved, max)| == |saved| - Gone(saved, max)
    ensures forall k :: 0 <= k < |Newest(saved, max)| ==> Newest(saved, max)[k] == saved[Gone(saved, max) + k]
  {
  }

  lemma NewestIsGood(saved: seq<Item>, max: nat, max': nat)
    requires GoodStart(saved, max)
    ensures GoodStart(Newest(saved, max'), max')
  {
    var n, gone := Newest(saved, max'), Gone(saved, max');
    NewestShifts(saved, max');
    forall i, j | 0 <= i < j < |n| ensures n[i].call != n[j].call && n[i].entry.lastSeen <= n[j].entry.lastSeen {
      assert n[i] == saved[gone + i] && n[j] == saved[gone + j];
    }
  }

  lemma LateIsKept(saved: seq<Item>, max: nat, i: nat)
    requires Gone(saved, max) <= i < |saved|
    ensures saved[i] in Newest(saved, max)
  {
    assert Newest(saved, max)[i - Gone(saved, max)] == saved[i];
  }

  ghost predicate NoNewer(item: Item, other: Item) {
    item.entry.lastSeen <= other.entry.lastSeen
  }

  lemma NewestAreNewest(saved: seq<Item>, max: nat, max': nat, i: nat, kept: Item)
    requires GoodStart(saved, max)
    requires i < |saved| && saved[i] !in Newest(saved, max') && kept in Newest(saved, max')
    ensures NoNewer(saved[i], kept)
  {
    var n, gone := Newest(saved, max'), Gone(saved, max');
    NewestShifts(saved, max');
    if i >= gone {
      LateIsKept(saved, max', i);
    }
    var k :| 0 <= k < |n| && n[k] == kept;
    assert kept == saved[gone + k];
  }

  /** What a save and a load are together: from the saved items to the loaded ones. */
  ghost predicate Reloads(saved: seq<Item>, max: nat, loaded: seq<Item>, max': nat) {
    && GoodStart(loaded, max')
    && loaded == saved[Gone(saved, max')..]
    && (max' >= max ==> loaded == saved)
    && (forall i, kept :: 0 <= i < |saved| && saved[i] !in loaded && kept in loaded ==> NoNewer(saved[i], kept))
  }

  lemma LoadSaved(saved: seq<Item>, rows: seq<Item>, max: nat, max': nat)
    requires GoodStart(saved, max) && QueryResult(saved, rows)
    ensures Reloads(saved, max, Newest(AllAssigned([], rows), max'), max')
  {
    RowsAreItems(saved, rows);
    LoadIntoEmpty(rows);
    NewestIsGood(saved, max, max');
    forall i, kept | 0 <= i < |saved| && saved[i] !in Newest(saved, max') && kept in Newest(saved, max')
      ensures NoNewer(saved[i], kept)
    {
      NewestAreNewest(saved, max, max', i, kept);
    }
  }

  /** Saving after any run and loading into a fresh cache gives back the same dictionary in the
      same order, or, under a smaller bound, exactly its newest entries. */
  lemma SaveThenLoad(start: seq<Item>, max: nat, ttl: real, ops: seq<Op>, now: real, rows: seq<Item>, max': nat)
    requires GoodStart(start, max) && Monotone(ops) && NoLaterThan(ops, now)
    requires SeenBy(start, if ops == [] then now else Time(ops[0]))
    requires QueryResult(Run(start, max, ttl, ops), rows)
    ensures Reloads(Run(start, max, ttl, ops), max, Newest(AllAssigned([], rows), max'), max')
  {
    OrderedAndBounded(start, max, ttl, ops, now);
    LoadSaved(Run(start, max, ttl, ops), rows, max, max');
  }
}
