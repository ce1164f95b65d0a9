/** The monitor's callsign cache (`monitor/cache.py`): an ordered dictionary from callsign to
    grid, bounded by evicting the entry updated longest ago and by an age limit that is
    enforced lazily. */
module CallsignCache {
  import opened Text
  import opened Locator

  datatype CacheEntry = CacheEntry(grid: string, lat: real, lon: real, lastSeen: real, count: nat)

  /** One item of the ordered dictionary; a whole dictionary is a sequence of items with
      distinct callsigns, the one updated longest ago first. */
  datatype Item = Item(call: string, entry: CacheEntry)

  predicate Distinct(items: seq<Item>) {
    forall i, j :: 0 <= i < j < |items| ==> items[i].call != items[j].call
  }

  predicate Holds(items: seq<Item>, call: string) {
    exists i :: 0 <= i < |items| && items[i].call == call
  }

  function IndexOf(items: seq<Item>, call: string): (i: nat)
    ensures i <= |items|
    ensures i < |items| ==> items[i].call == call
    ensures forall j :: 0 <= j < i ==> items[j].call != call
  {
    if items == [] || items[0].call == call then 0 else 1 + IndexOf(items[1..], call)
  }

  function Without(items: seq<Item>, call: string): seq<Item> {
    var i := IndexOf(items, call);
    if i < |items| then items[..i] + items[i + 1..] else items
  }

  /** The `max` items at the recent end. */
  function Newest(items: seq<Item>, max: nat): seq<Item> {
    if |items| > max then items[|items| - max..] else items
  }

  // --- the operations on dictionary values ------------------------------------

  function SeenBefore(items: seq<Item>, call: string): nat {
    var i := IndexOf(items, call);
    if i < |items| then items[i].entry.count else 0
  }

  function Learned(items: seq<Item>, call: string, grid: string, p: Point, ts: real): seq<Item> {
    Without(items, call) + [Item(call, CacheEntry(grid, p.0, p.1, ts, SeenBefore(items, call) + 1))]
  }

  function Updated(items: seq<Item>, max: nat, call: string, grid: string, ts: real): seq<Item> {
    match GridToLatLon(grid)
    case None => items
    case Some(p) => Newest(Learned(items, call, grid, p, ts), max)
  }

  predicate Expired(e: CacheEntry, ttl: real, ts: real) {
    ts - e.lastSeen > ttl
  }

  function Found(items: seq<Item>, ttl: real, call: string, ts: real): Option<string> {
    var i := IndexOf(items, call);
    if i < |items| && !Expired(items[i].entry, ttl, ts) then Some(items[i].entry.grid) else None
  }

  function AfterLookup(items: seq<Item>, ttl: real, call: string, ts: real): seq<Item> {
    var i := IndexOf(items, call);
    if i < |items| && Expired(items[i].entry, ttl, ts) then Without(items, call) else items
  }

  function Pruned(items: seq<Item>, ttl: real, ts: real): seq<Item> {
    if items == [] then []
    else
      var kept, last := Pruned(items[..|items| - 1], ttl, ts), items[|items| - 1];
      if Expired(last.entry, ttl, ts) then kept else kept + [last]
  }

  /** `d[call] = entry`: in place for a known call, at the recent end for a new one. */
  function Assigned(items: seq<Item>, row: Item): seq<Item> {
    var i := IndexOf(items, row.call);
    if i < |items| then items[i := row] else items + [row]
  }

  function AllAssigned(items: seq<Item>, rows: seq<Item>): seq<Item> {
    if rows == [] then items else Assigned(AllAssigned(items, rows[..|rows| - 1]), rows[|rows| - 1])
  }

  // --- distinct callsigns stay distinct ---------------------------------------

  lemma WithoutKeeps(items: seq<Item>, call: string)
    requires Distinct(items)
    ensures Distinct(Without(items, call)) && !Holds(Without(items, call), call)
    ensures forall c :: c != call ==> (Holds(Without(items, call), c) <==> Holds(items, c))
  {
    var i, w := IndexOf(items, call), Without(items, call);
    forall c | c != call && Holds(items, c) ensures Holds(w, c) {
      var k :| 0 <= k < |items| && items[k].call == c;
      assert w[if k < i then k else k - 1].call == c;
    }
  }

  lemma LearnedIsDistinct(items: seq<Item>, call: string, grid: string, p: Point, ts: real)
    requires Distinct(items)
    ensures Distinct(Learned(items, call, grid, p, ts))
  {
    WithoutKeeps(items, call);
    var w := Without(items, call);
    assert forall i :: 0 <= i < |w| ==> w[i].call != call;
  }

  lemma {:induction false} PrunedIsDistinct(items: seq<Item>, ttl: real, ts: real)
    requires Distinct(items)
    ensures Distinct(Pruned(items, ttl, ts))
    ensures forall i :: 0 <= i < |Pruned(items, ttl, ts)| ==> Holds(items, Pruned(items, ttl, ts)[i].call)
  {
    if items != [] {
      var n := |items| - 1;
      PrunedIsDistinct(items[..n], ttl, ts);
      forall c | Holds(items[..n], c) ensures Holds(items, c) && items[n].call != c {
        var i :| 0 <= i < n && items[..n][i].call == c;
        assert items[i].call == c;
      }
      assert Holds(items, items[n].call);
    }
  }

  lemma {:induction false} AssignedIsDistinct(items: seq<Item>, rows: seq<Item>)
    requires Distinct(items)
    ensures Distinct(AllAssigned(items, rows))
  {
    if rows != [] {
      AssignedIsDistinct(items, rows[..|rows| - 1]);
    }
  }

  // --- runs -------------------------------------------------------------------

  datatype Op =
    | Update(call: string, grid: string, ts: real)
    | Lookup(call: string, ts: real)
    | Prune(ts: real)

  function Apply(items: seq<Item>, max: nat, ttl: real, op: Op): seq<Item> {
    match op
    case Update(call, grid, ts) => Updated(items, max, call, grid, ts)
    case Lookup(call, ts) => AfterLookup(items, ttl, call, ts)
    case Prune(ts) => Pruned(items, ttl, ts)
  }

  /** The dictionary after a history of operations that started from `start`. */
  function Run(start: seq<Item>, max: nat, ttl: real, ops: seq<Op>): seq<Item> {
    if ops == [] then start
    else Apply(Run(start, max, ttl, ops[..|ops| - 1]), max, ttl, ops[|ops| - 1])
  }

  lemma RunStep(start: seq<Item>, max: nat, ttl: real, ops: seq<Op>, op: Op)
    ensures Run(start, max, ttl, ops + [op]) == Apply(Run(start, max, ttl, ops), max, ttl, op)
  {
    assert (ops + [op])[..|ops|] == ops;
  }

  /** The cache object; times are always given, as the monitor does. */
  class Cache {
    const maxEntries: nat
    const entryTtlSec: real
    var items: seq<Item>

    ghost predicate Valid()
      reads this
    {
      Distinct(items)
    }

    constructor (maxEntries: nat, entryTtlSec: real)
      ensures Valid() && this.maxEntries == maxEntries && this.entryTtlSec == entryTtlSec && items == []
    {
      this.maxEntries, this.entryTtlSec := maxEntries, entryTtlSec;
      items := [];
    }

    /** Drops items from the old end until the bound holds. */
    method Evict()
      modifies this
      ensures items == Newest(old(items), maxEntries)
    {
      while |items| > maxEntries
        invariant |items| <= |old(items)| && items == old(items)[|old(items)| - |items|..]
        invariant |items| < |old(items)| ==> |items| >= maxEntries
      {
        items := items[1..];
      }
    }

    method Update(call: string, grid: string, ts: real)
      requires Valid()
      modifies this
      ensures Valid()
      ensures items == Updated(old(items), maxEntries, call, grid, ts)
    {
      var point := GridToLatLon(grid);
      if point.Some? {
        LearnedIsDistinct(items, call, grid, point.value, ts);
        Remember(call, grid, point.value, ts);
      }
    }

    /** The part of `update` after the grid check. */
    method Remember(call: string, grid: string, p: Point, ts: real)
      modifies this
      ensures items == Newest(Learned(old(items), call, grid, p, ts), maxEntries)
    {
      var i := IndexOf(items, call);
      var entry;
      if i == |items| {
        entry := CacheEntry(grid, p.0, p.1, ts, 1);
      } else {
        entry := items[i].entry;
        entry := entry.(grid := grid, lat := p.0, lon := p.1);
        entry := entry.(lastSeen := ts);
        entry := entry.(count := entry.count + 1);
      }
      items := Without(items, call) + [Item(call, entry)];
      assert items == Learned(old(items), call, grid, p, ts);
      Evict();
    }

    method Lookup(call: string, ts: real) returns (grid: Option<string>)
      requires Valid()
      modifies this
      ensures Valid()
      ensures grid == Found(old(items), entryTtlSec, call, ts)
      ensures items == AfterLookup(old(items), entryTtlSec, call, ts)
    {
      var i := IndexOf(items, call);
      if i == |items| {
        return None;
      }
      if ts - items[i].entry.lastSeen > entryTtlSec {
        WithoutKeeps(items, call);
        items := Without(items, call);
        return None;
      }
      return Some(items[i].entry.grid);
    }

    /** `entry`: what is stored for a callsign, whatever its age. */
    method Entry(call: string) returns (entry: Option<CacheEntry>)
      ensures entry == None <==> !Holds(items, call)
      ensures entry.Some? ==> exists i :: 0 <= i < |items| && items[i] == Item(call, entry.value)
    {
      var i := IndexOf(items, call);
      if i == |items| {
        return None;
      }
      return Some(items[i].entry);
    }

    /** The callsigns whose items have expired. */
    method ExpiredCalls(ts: real) returns (dead: seq<string>)
      requires Distinct(items)
      ensures forall c :: c in dead <==> exists i ::
                0 <= i < |items| && items[i].call == c && Expired(items[i].entry, entryTtlSec, ts)
      ensures forall j, k :: 0 <= j < k < |dead| ==> dead[j] != dead[k]
    {
      dead := [];
      for i := 0 to |items|
        invariant forall c :: c in dead <==> exists j ::
                    0 <= j < i && items[j].call == c && Expired(items[j].entry, entryTtlSec, ts)
        invariant forall j, k :: 0 <= j < k < |dead| ==> dead[j] != dead[k]
      {
        if ts - items[i].entry.lastSeen > entryTtlSec {
          assert items[i].call !in dead;
          dead := dead + [items[i].call];
        }
      }
    }

    /** Deletes the given callsigns one by one. */
    method Forget(calls: seq<string>)
      requires Distinct(items)
      requires forall c :: c in calls ==> Holds(items, c)
      requires forall j, k :: 0 <= j < k < |calls| ==> calls[j] != calls[k]
      modifies this
      ensures items == Dropped(old(items), calls) && |items| == |old(items)| - |calls|
    {
      DropNone(items);
      for i := 0 to |calls|
        invariant items == Dropped(old(items), calls[..i])
        invariant |items| == |old(items)| - i
      {
        assert calls[..i + 1] == calls[..i] + [calls[i]];
        assert calls[i] in calls;
        DroppedHolds(old(items), calls[..i], calls[i]);
        DropOne(old(items), calls[..i], calls[i]);
        items := Without(items, calls[i]);
      }
      assert calls[..|calls|] == calls;
    }

    method Prune(ts: real) returns (removed: nat)
      requires Valid()
      modifies this
      ensures Valid()
      ensures items == Pruned(old(items), entryTtlSec, ts)
      ensures removed == |old(items)| - |items|
    {
      var dead := ExpiredCalls(ts);
      DroppedIsPruned(items, dead, entryTtlSec, ts);
      PrunedIsDistinct(items, entryTtlSec, ts);
      Forget(dead);
      return |dead|;
    }

    /** The rows `save` writes: the dictionary's items. */
    method Save() returns (rows: seq<Item>)
      ensures rows == items
    {
      rows := [];
      for i := 0 to |items|
        invariant rows == items[..i]
      {
        rows := rows + [items[i]];
      }
    }

    /** `load`, given the rows in the order the query returned them. */
    method Load(rows: seq<Item>)
      requires Valid()
      modifies this
      ensures Valid() && items == Newest(AllAssigned(old(items), rows), maxEntries)
    {
      for i := 0 to |rows|
        invariant items == AllAssigned(old(items), rows[..i])
      {
        assert rows[..i + 1][..i] == rows[..i];
        items := Assigned(items, rows[i]);
      }
      assert rows[..|rows|] == rows;
      AssignedIsDistinct(old(items), rows);
      Evict();
    }
  }

  // --- pruning one by one -----------------------------------------------------

  function Dropped(items: seq<Item>, calls: seq<string>): seq<Item> {
    if items == [] then []
    else
      var kept, last := Dropped(items[..|items| - 1], calls), items[|items| - 1];
      if last.call in calls then kept else kept + [last]
  }

  lemma DropNone(items: seq<Item>)
    ensures Dropped(items, []) == items
  {
  }

  lemma DroppedHolds(items: seq<Item>, calls: seq<string>, call: string)
    ensures Holds(Dropped(items, calls), call) <==> Holds(items, call) && call !in calls
  {
    if items != [] {
      var n := |items| - 1;
      DroppedHolds(items[..n], calls, call);
      var d, kept := Dropped(items, calls), Dropped(items[..n], calls);
      assert Holds(items, call) <==> Holds(items[..n], call) || items[n].call == call by {
        if Holds(items, call) {
          var i :| 0 <= i < |items| && items[i].call == call;
          assert i < n ==> items[..n][i].call == call;
        }
      }
      if items[n].call !in calls {
        assert forall i :: 0 <= i < n && i < |kept| ==> d[i] == kept[i];
        assert d[|d| - 1] == items[n];
        assert Holds(kept, call) ==> Holds(d, call) by {
          if Holds(kept, call) {
            var i :| 0 <= i < |kept| && kept[i].call == call;
            assert d[i].call == call;
          }
        }
      }
    }
  }

  lemma WithoutAppend(items: seq<Item>, last: Item, call: string)
    ensures Holds(items, call) ==> Without(items + [last], call) == Without(items, call) + [last]
    ensures !Holds(items, call) ==> Without(items, call) == items
    ensures !Holds(items, call) ==> Without(items + [last], call) == if last.call == call then items else items + [last]
  {
    var i, k := IndexOf(items, call), IndexOf(items + [last], call);
    assert i < |items| <==> Holds(items, call);
    if i < |items| {
      assert (items + [last])[i].call == call;
      assert k < |items| ==> items[k].call == call;
    } else {
      assert (items + [last])[|items|] == last;
    }
  }

  lemma DropOne(items: seq<Item>, calls: seq<string>, call: string)
    requires Distinct(items)
    ensures Dropped(items, calls + [call]) == Without(Dropped(items, calls), call)
  {
    if items != [] {
      var n := |items| - 1;
      var last, kept := items[n], Dropped(items[..n], calls);
      DropOne(items[..n], calls, call);
      DroppedHolds(items[..n], calls, call);
      WithoutAppend(kept, last, call);
      assert last.call == call ==> !Holds(items[..n], call);
    }
  }

  lemma DroppedIsPruned(items: seq<Item>, dead: seq<string>, ttl: real, ts: real)
    requires Distinct(items)
    requires forall c :: c in dead <==> exists i ::
               0 <= i < |items| && items[i].call == c && Expired(items[i].entry, ttl, ts)
    ensures Dropped(items, dead) == Pruned(items, ttl, ts)
  {
    DroppedIsPrunedUpTo(items, dead, ttl, ts, |items|);
    assert items[..|items|] == items;
  }

  lemma {:induction false} DroppedIsPrunedUpTo(items: seq<Item>, dead: seq<string>, ttl: real, ts: real, n: nat)
    requires Distinct(items) && n <= |items|
    requires forall c :: c in dead <==> exists i ::
               0 <= i < |items| && items[i].call == c && Expired(items[i].entry, ttl, ts)
    ensures Dropped(items[..n], dead) == Pruned(items[..n], ttl, ts)
  {
    if n > 0 {
      DroppedIsPrunedUpTo(items, dead, ttl, ts, n - 1);
      assert items[..n][..n - 1] == items[..n - 1];
      assert items[n - 1].call in dead <==> Expired(items[n - 1].entry, ttl, ts);
    }
  }
}
