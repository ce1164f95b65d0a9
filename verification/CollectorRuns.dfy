/** Whole runs of the collector: deliveries of any batches any number of times in any order,
    retention runs and allowlist changes. A run is also read as a plain trace of insertion
    attempts and cutoffs, and the store is compared with that trace. */
module CollectorRuns {
  import opened Text
  import opened Collector

  datatype Op =
    | Deliver(source: Address, batch: Batch, now: int)
    | Prune(now: int)
    | Allow(a: Address, allowed: bool, notes: Option<string>, now: int)

  function Apply(s: Store, op: Op, config: Config): Store {
    match op
    case Deliver(source, batch, now) => Ingested(s, source, batch, config, now)
    case Prune(now) => s.(observations := PrunedTable(s.observations, Cutoff(config, now)))
    case Allow(a, allowed, notes, now) => s.(monitors := WithAllowed(s.monitors, a, allowed, notes, now))
  }

  function Run(ops: seq<Op>, config: Config): Store {
    if ops == [] then EMPTY else Apply(Run(ops[..|ops| - 1], config), ops[|ops| - 1], config)
  }

  /** The accumulated counters of `Stats`. */
  function Stats(ops: seq<Op>, config: Config): IngestResult {
    if ops == [] then NOTHING
    else
      var n := |ops| - 1;
      match ops[n]
      case Deliver(source, batch, now) =>
        Plus(Stats(ops[..n], config), Report(Run(ops[..n], config), source, batch, config, now))
      case _ => Stats(ops[..n], config)
  }

  /** One operation on the collector object. */
  method Perform(c: Collection, op: Op)
    modifies c
    ensures c.State() == Apply(old(c.State()), op, c.config)
    ensures c.ingest == match op
                        case Deliver(source, batch, now) =>
                          Plus(old(c.ingest), Report(old(c.State()), source, batch, c.config, now))
                        case _ => old(c.ingest)
  {
    match op
    case Deliver(source, batch, now) =>
      var result := c.IngestBatch(source, Parts(Some(batch.meta), Some(batch.observations)), now);
      c.RecordIngest(result);
    case Prune(now) => var _ := c.Prune(now);
    case Allow(a, allowed, notes, now) => c.SetAllowed(a, allowed, notes, now);
  }

  /** A whole run on a new collector: its store and counters are those of the run functions. */
  method Collect(ops: seq<Op>, config: Config) returns (c: Collection)
    ensures fresh(c) && c.State() == Run(ops, config) && c.ingest == Stats(ops, config)
  {
    c := new Collection(config);
    for i := 0 to |ops|
      invariant fresh(c) && c.config == config
      invariant c.State() == Run(ops[..i], config) && c.ingest == Stats(ops[..i], config)
    {
      assert ops[..i + 1][..i] == ops[..i];
      Perform(c, ops[i]);
    }
    assert ops[..|ops|] == ops;
  }

  ghost predicate ClockForward(ops: seq<Op>) {
    forall i, j :: 0 <= i < j < |ops| ==> ops[i].now <= ops[j].now
  }

  // --- traces -----------------------------------------------------------------

  /** An attempt to insert a row, or a retention run. */
  datatype Event = Try(key: Key, row: Raw) | Cut(cutoff: real)

  function Table(trace: seq<Event>): map<Key, Raw> {
    if trace == [] then map[]
    else
      var before := Table(trace[..|trace| - 1]);
      match trace[|trace| - 1]
      case Try(k, o) => if k in before then before else before[k := o]
      case Cut(c) => PrunedTable(before, c)
  }

  /** The keys in the order they were inserted, again if they are inserted again. */
  function Insertions(trace: seq<Event>): seq<Key> {
    if trace == [] then []
    else
      var n := |trace| - 1;
      var e := trace[n];
      if e.Try? && e.key !in Table(trace[..n]) then Insertions(trace[..n]) + [e.key] else Insertions(trace[..n])
  }

  function Deletions(trace: seq<Event>): nat {
    if trace == [] then 0
    else
      var n := |trace| - 1;
      var before := Table(trace[..n]);
      match trace[n]
      case Try(_, _) => Deletions(trace[..n])
      case Cut(c) =>
        PrunedShrinks(before, c);
        Deletions(trace[..n]) + (|before| - |PrunedTable(before, c)|)
  }

  /** For every key ever tried, the first row tried for it. */
  function FirstTried(trace: seq<Event>): map<Key, Raw> {
    if trace == [] then map[]
    else
      var before, e := FirstTried(trace[..|trace| - 1]), trace[|trace| - 1];
      if e.Try? && e.key !in before then before[e.key := e.row] else before
  }

  ghost predicate Survives(trace: seq<Event>, k: Key) {
    forall i :: 0 <= i < |trace| && trace[i].Cut? ==> k.ts >= trace[i].cutoff
  }

  /** No row is tried after a cutoff it falls under. */
  ghost predicate Safe(trace: seq<Event>) {
    forall i, j :: 0 <= i < j < |trace| && trace[i].Cut? && trace[j].Try? ==> trace[j].key.ts >= trace[i].cutoff
  }

  predicate Distinct(keys: seq<Key>) {
    forall i, j :: 0 <= i < j < |keys| ==> keys[i] != keys[j]
  }

  lemma SurvivesAppend(before: seq<Event>, e: Event, k: Key)
    ensures Survives(before + [e], k) <==> Survives(before, k) && (e.Cut? ==> k.ts >= e.cutoff)
  {
    var trace := before + [e];
    assert trace[|before|] == e && forall i :: 0 <= i < |before| ==> trace[i] == before[i];
  }

  lemma SafePrefix(trace: seq<Event>)
    requires trace != [] && Safe(trace)
    ensures Safe(trace[..|trace| - 1])
    ensures trace[|trace| - 1].Try? ==> Survives(trace[..|trace| - 1], trace[|trace| - 1].key)
  {
  }

  /** The table is the first tries that survive. */
  ghost predicate IsLiveLog(table: map<Key, Raw>, first: map<Key, Raw>, trace: seq<Event>) {
    && (forall k :: k in table <==> k in first && Survives(trace, k))
    && (forall k :: k in table ==> table[k] == first[k])
  }

  lemma {:induction false} SafeTable(trace: seq<Event>)
    requires Safe(trace)
    ensures IsLiveLog(Table(trace), FirstTried(trace), trace)
  {
    if trace != [] {
      var n := |trace| - 1;
      var before, e := trace[..n], trace[n];
      SafePrefix(trace);
      SafeTable(before);
      assert trace == before + [e];
      forall k ensures Survives(trace, k) <==> Survives(before, k) && (e.Cut? ==> k.ts >= e.cutoff) {
        SurvivesAppend(before, e, k);
      }
    }
  }

  lemma {:induction false} SafeInsertions(trace: seq<Event>)
    requires Safe(trace)
    ensures Distinct(Insertions(trace))
    ensures forall k :: k in Insertions(trace) <==> k in FirstTried(trace)
    ensures |Insertions(trace)| == |FirstTried(trace)|
  {
    if trace != [] {
      var n := |trace| - 1;
      SafePrefix(trace);
      SafeInsertions(trace[..n]);
      SafeTable(trace[..n]);
    }
  }

  /** On a safe trace the table is the log of first tries cut down to the rows no cutoff has
      reached, and no key is ever inserted twice. */
  lemma SafeTrace(trace: seq<Event>)
    requires Safe(trace)
    ensures IsLiveLog(Table(trace), FirstTried(trace), trace)
    ensures Distinct(Insertions(trace)) && |Insertions(trace)| == |FirstTried(trace)|
  {
    SafeTable(trace);
    SafeInsertions(trace);
  }

  /** Rows inserted are rows still there plus rows deleted, on every trace. */
  lemma {:induction false} RowsConserved(trace: seq<Event>)
    ensures |Insertions(trace)| == |Table(trace)| + Deletions(trace)
  {
    if trace != [] {
      RowsConserved(trace[..|trace| - 1]);
    }
  }

  // --- the trace of a run -----------------------------------------------------

  /** The attempts a list of validated rows makes; rows with a null column make none. */
  function Tries(source: Address, rows: seq<Raw>): seq<Event>
    requires AllValid(rows)
  {
    if rows == [] then []
    else
      var before, o := Tries(source, rows[..|rows| - 1]), rows[|rows| - 1];
      if Storable(o) then before + [Try(KeyOf(source, o), o)] else before
  }

  function TraceOf(s: Store, op: Op, config: Config): seq<Event> {
    match op
    case Deliver(source, batch, now) =>
      if Authorized(s, source, config) then Tries(source, GoodRows(batch.observations, now, config)) else []
    case Prune(now) => [Cut(Cutoff(config, now))]
    case Allow(_, _, _, _) => []
  }

  function Trace(ops: seq<Op>, config: Config): seq<Event> {
    if ops == [] then []
    else
      var n := |ops| - 1;
      Trace(ops[..n], config) + TraceOf(Run(ops[..n], config), ops[n], config)
  }

  lemma {:induction false} TriesInsert(trace: seq<Event>, source: Address, rows: seq<Raw>)
    requires AllValid(rows)
    ensures Table(trace + Tries(source, rows)) == Inserted(Table(trace), source, rows)
    ensures |Insertions(trace + Tries(source, rows))|
              == |Insertions(trace)| + |Inserted(Table(trace), source, rows)| - |Table(trace)|
  {
    var t := Tries(source, rows);
    if rows == [] {
      assert trace + t == trace;
    } else {
      var n := |rows| - 1;
      TriesInsert(trace, source, rows[..n]);
      if Storable(rows[n]) {
        assert (trace + t)[..|trace + t| - 1] == trace + Tries(source, rows[..n]);
      }
    }
  }

  /** The store and the accumulated counter of a run, read off its trace. */
  lemma {:induction false} RunIsTrace(ops: seq<Op>, config: Config)
    ensures Run(ops, config).observations == Table(Trace(ops, config))
    ensures Stats(ops, config).accepted == |Insertions(Trace(ops, config))|
  {
    if ops != [] {
      var n := |ops| - 1;
      RunIsTrace(ops[..n], config);
      var s, before := Run(ops[..n], config), Trace(ops[..n], config);
      match ops[n]
      case Deliver(source, batch, now) =>
        if Authorized(s, source, config) {
          TriesInsert(before, source, GoodRows(batch.observations, now, config));
        } else {
          assert before + [] == before;
        }
      case Prune(now) =>
        assert (before + [Cut(Cutoff(config, now))])[..|before|] == before;
      case Allow(_, _, _, _) =>
        assert before + [] == before;
    }
  }

  // --- exactly once -----------------------------------------------------------

  lemma TriesInWindow(source: Address, rows: seq<Raw>, now: int, config: Config, i: nat)
    requires i < |Tries(source, GoodRows(rows, now, config))|
    ensures var e := Tries(source, GoodRows(rows, now, config))[i];
            e.Try? && ValidTimestamp(e.key.ts, now, config)
  {
    if rows != [] {
      var n := |rows| - 1;
      var good, before := GoodRows(rows, now, config), GoodRows(rows[..n], now, config);
      if Good(rows[n], now, config) {
        assert good[..|good| - 1] == before;
      }
      if i < |Tries(source, before)| {
        TriesInWindow(source, rows[..n], now, config, i);
      }
    }
  }

  /** The configurations under which a retention run never deletes a row that could still be
      accepted: the window ends inside the retention, or nothing is ever accepted. */
  predicate RetentionCoversWindow(config: Config) {
    config.rejectOlderThan <= config.retentionDays * 86400 || config.rejectOlderThan + config.rejectFutureSkew < 0
  }

  lemma {:induction false} RunsAreSafe(ops: seq<Op>, config: Config, now: int)
    requires RetentionCoversWindow(config) && ClockForward(ops)
    requires forall i :: 0 <= i < |ops| ==> ops[i].now <= now
    ensures Safe(Trace(ops, config))
    ensures forall i :: 0 <= i < |Trace(ops, config)| && Trace(ops, config)[i].Cut? ==>
              Trace(ops, config)[i].cutoff <= Cutoff(config, now)
  {
    if ops != [] {
      var n := |ops| - 1;
      var op := ops[n];
      RunsAreSafe(ops[..n], config, op.now);
      var before, more := Trace(ops[..n], config), TraceOf(Run(ops[..n], config), op, config);
      assert Cutoff(config, op.now) <= Cutoff(config, now);
      if op.Deliver? {
        forall j | 0 <= j < |more| ensures more[j].Try? && ValidTimestamp(more[j].key.ts, op.now, config) {
          TriesInWindow(op.source, op.batch.observations, op.now, config, j);
        }
      }
      var trace := before + more;
      assert forall m :: |before| <= m < |trace| ==> trace[m] == more[m - |before|];
      forall i, j | 0 <= i < j < |trace| && trace[i].Cut? && trace[j].Try? ensures trace[j].key.ts >= trace[i].cutoff {
        if j >= |before| {
          assert op.Deliver? && trace[j] == more[j - |before|];
          assert i < |before|;
          assert trace[i] == before[i];
        } else {
          assert trace[i] == before[i] && trace[j] == before[j];
        }
      }
      forall i | 0 <= i < |trace| && trace[i].Cut? ensures trace[i].cutoff <= Cutoff(config, now) {
        assert trace[i] == if i < |before| then before[i] else more[i - |before|];
      }
    }
  }

  /** The store of a run, in terms of what was tried: the first row of every key not yet reached
      by a retention run; every key is inserted at most once, and the accumulated counter of
      accepted rows is the number of distinct keys ever tried. */
  lemma StoreIsFirstTried(ops: seq<Op>, config: Config)
    requires RetentionCoversWindow(config) && ClockForward(ops)
    ensures var trace, table := Trace(ops, config), Run(ops, config).observations;
            && IsLiveLog(table, FirstTried(trace), trace)
            && Distinct(Insertions(trace))
            && Stats(ops, config).accepted == |FirstTried(trace)|
  {
    RunsAreSafe(ops, config, if ops == [] then 0 else ops[|ops| - 1].now);
    SafeTrace(Trace(ops, config));
    RunIsTrace(ops, config);
  }

  ghost predicate ExactlyOnce(config: Config) {
    forall ops :: ClockForward(ops) ==> Distinct(Insertions(Trace(ops, config)))
  }

  lemma OneRow(source: Address, o: Raw, now: int, config: Config)
    requires Good(o, now, config) && Storable(o)
    ensures Tries(source, GoodRows([o], now, config)) == [Try(KeyOf(source, o), o)]
  {
    OneGoodRow(map[], source, o, config, now);
    assert [o][..0] == [];
  }

  lemma InsertedTwice(key: Key, o: Raw, cutoff: real)
    requires key.ts < cutoff
    ensures Insertions([Try(key, o), Cut(cutoff), Try(key, o)]) == [key, key]
  {
    var t1, t2, t3 := [Try(key, o)], [Try(key, o), Cut(cutoff)], [Try(key, o), Cut(cutoff), Try(key, o)];
    assert t3[..2] == t2 && t2[..1] == t1 && t1[..0] == [];
    assert Table(t1) == map[key := o];
    assert Insertions(t1) == [key];
    assert Insertions(t2) == [key];
  }

  lemma OneMore(ops: seq<Op>, op: Op, config: Config)
    ensures Trace(ops + [op], config) == Trace(ops, config) + TraceOf(Run(ops, config), op, config)
    ensures Run(ops + [op], config) == Apply(Run(ops, config), op, config)
  {
    assert (ops + [op])[..|ops|] == ops;
  }

  /** Delivering a good row from an allowed source tries it and leaves the source allowed. */
  lemma DeliverOne(ops: seq<Op>, m: Address, o: Raw, config: Config)
    requires IsAllowed(Run(ops, config), m) && Good(o, 0, config) && Storable(o)
    ensures var deliver := Deliver(m, Batch(NO_META, [o]), 0);
            && Trace(ops + [deliver], config) == Trace(ops, config) + [Try(KeyOf(m, o), o)]
            && IsAllowed(Run(ops + [deliver], config), m)
  {
    OneRow(m, o, 0, config);
    OneMore(ops, Deliver(m, Batch(NO_META, [o]), 0), config);
  }

  lemma PruneOnce(ops: seq<Op>, m: Address, config: Config)
    requires IsAllowed(Run(ops, config), m)
    ensures Trace(ops + [Prune(0)], config) == Trace(ops, config) + [Cut(Cutoff(config, 0))]
    ensures IsAllowed(Run(ops + [Prune(0)], config), m)
  {
    OneMore(ops, Prune(0), config);
  }

  /** The oldest row that is let in at time 0. */
  function OldestRow(config: Config): Raw {
    var zero, text := Number(0.0), Str("FN42");
    Dict(Number((-config.rejectOlderThan) as real), text, text, zero, zero, zero, text, zero, zero, text, zero,
         Str("direct"), Null, Null, Null)
  }

  lemma OldestRowIsGood(config: Config)
    requires !RetentionCoversWindow(config)
    ensures var o := OldestRow(config);
            Good(o, 0, config) && Storable(o) && KeyOf("m", o).ts < Cutoff(config, 0)
  {
  }

  /** A row that is inserted, pruned and inserted again. */
  lemma Reinsertion(config: Config) returns (ops: seq<Op>)
    requires !RetentionCoversWindow(config)
    ensures ClockForward(ops) && !Distinct(Insertions(Trace(ops, config)))
  {
    var o, cutoff := OldestRow(config), Cutoff(config, 0);
    OldestRowIsGood(config);
    var key, deliver := KeyOf("m", o), Deliver("m", Batch(NO_META, [o]), 0);
    var ops1 := [] + [Allow("m", true, None, 0)];
    var ops2 := ops1 + [deliver];
    var ops3 := ops2 + [Prune(0)];
    ops := ops3 + [deliver];
    OneMore([], ops1[0], config);
    DeliverOne(ops1, "m", o, config);
    PruneOnce(ops2, "m", config);
    DeliverOne(ops3, "m", o, config);
    assert Trace(ops, config) == [Try(key, o), Cut(cutoff), Try(key, o)];
    InsertedTwice(key, o, cutoff);
    assert [key, key][0] == [key, key][1];
  }

  /** Exactly-once insertion holds for all runs precisely when retention covers the window. */
  lemma ExactlyOnceIff(config: Config)
    ensures ExactlyOnce(config) <==> RetentionCoversWindow(config)
  {
    if RetentionCoversWindow(config) {
      forall ops | ClockForward(ops) ensures Distinct(Insertions(Trace(ops, config))) {
        StoreIsFirstTried(ops, config);
      }
    } else {
      var ops := Reinsertion(config);
    }
  }

  /** Over every run from an empty store, accepted rows are live rows plus deleted rows. */
  lemma AcceptedConserved(ops: seq<Op>, config: Config)
    ensures Stats(ops, config).accepted == |Run(ops, config).observations| + Deletions(Trace(ops, config))
  {
    RunIsTrace(ops, config);
    RowsConserved(Trace(ops, config));
  }

  // --- the store of any run ---------------------------------------------------

  /** The row that the i-th operation offers for a key: the first storable one among those of an
      authorized batch that pass the checks. */
  function Offer(ops: seq<Op>, config: Config, i: int, k: Key): Option<Raw> {
    if 0 <= i < |ops| && ops[i].Deliver? && ops[i].source == k.monitor
      && Authorized(Run(ops[..i], config), k.monitor, config)
    then FirstWith(k.monitor, GoodRows(ops[i].batch.observations, ops[i].now, config), k)
    else None
  }

  /** No retention run after the i-th operation reaches a row of time `ts`. */
  ghost predicate Spared(ops: seq<Op>, config: Config, i: int, ts: real) {
    forall j :: 0 <= j < |ops| && i < j && ops[j].Prune? ==> Cutoff(config, ops[j].now) <= ts
  }

  ghost predicate Lasts(ops: seq<Op>, config: Config, i: int, k: Key) {
    Offer(ops, config, i, k).Some? && Spared(ops, config, i, k.ts)
  }

  ghost predicate FirstToLast(ops: seq<Op>, config: Config, i: int, k: Key) {
    Lasts(ops, config, i, k) && forall h :: 0 <= h < i ==> !Lasts(ops, config, h, k)
  }

  /** What one operation does to one key. */
  lemma KeyAfter(s: Store, op: Op, config: Config, k: Key)
    ensures op.Deliver? && !(op.source == k.monitor && Authorized(s, op.source, config)) ==>
              SameUnder(s.observations, Apply(s, op, config).observations, k)
    ensures op.Deliver? && op.source == k.monitor && Authorized(s, op.source, config) ==>
              Holder(s.observations, op.source, GoodRows(op.batch.observations, op.now, config), k)
              == Under(Apply(s, op, config).observations, k)
    ensures op.Prune? ==> Under(Apply(s, op, config).observations, k)
                          == if Cutoff(config, op.now) <= k.ts then Under(s.observations, k) else None
    ensures op.Allow? ==> SameUnder(s.observations, Apply(s, op, config).observations, k)
  {
    if op.Deliver? && Authorized(s, op.source, config) {
      var good := GoodRows(op.batch.observations, op.now, config);
      InsertedHolds(s.observations, op.source, good, k);
      FirstWithIs(op.source, good, k);
    }
  }

  function Under(table: map<Key, Raw>, k: Key): Option<Raw> {
    if k in table then Some(table[k]) else None
  }

  predicate SameUnder(a: map<Key, Raw>, b: map<Key, Raw>, k: Key) {
    Under(a, k) == Under(b, k)
  }

  lemma LastsAppend(before: seq<Op>, op: Op, config: Config, i: int, k: Key)
    requires i < |before|
    ensures Offer(before + [op], config, i, k) == Offer(before, config, i, k)
    ensures Lasts(before + [op], config, i, k)
            <==> Lasts(before, config, i, k) && (op.Prune? ==> Cutoff(config, op.now) <= k.ts)
  {
    var ops := before + [op];
    if i >= 0 {
      assert ops[..i] == before[..i] && ops[i] == before[i];
      assert ops[|before|] == op && forall j :: i < j < |before| ==> ops[j] == before[j];
    }
  }

  lemma OfferAtEnd(before: seq<Op>, op: Op, config: Config, k: Key)
    ensures Offer(before + [op], config, |before|, k)
            == if op.Deliver? && op.source == k.monitor && Authorized(Run(before, config), k.monitor, config)
               then FirstWith(k.monitor, GoodRows(op.batch.observations, op.now, config), k)
               else None
    ensures Spared(before + [op], config, |before|, k.ts)
  {
    var ops := before + [op];
    assert ops[|before|] == op && ops[..|before|] == before;
  }

  lemma {:induction false} SomeLastsFirst(ops: seq<Op>, config: Config, i: int, k: Key) returns (first: int)
    requires Lasts(ops, config, i, k)
    ensures first <= i && FirstToLast(ops, config, first, k)
    decreases i
  {
    first := i;
    if h :| 0 <= h < i && Lasts(ops, config, h, k) {
      first := SomeLastsFirst(ops, config, h, k);
    }
  }

  lemma FirstToLastAppend(before: seq<Op>, op: Op, config: Config, i: int, k: Key)
    requires 0 <= i < |before| && (op.Prune? ==> Cutoff(config, op.now) <= k.ts)
    ensures FirstToLast(before + [op], config, i, k) <==> FirstToLast(before, config, i, k)
  {
    forall h | 0 <= h <= i ensures Lasts(before + [op], config, h, k) <==> Lasts(before, config, h, k) {
      LastsAppend(before, op, config, h, k);
    }
  }

  /** The row of a key that lasts in a run: what the first delivery offers that offers one for the
      key and is followed by no retention run that reaches it. */
  ghost predicate IsLasting(ops: seq<Op>, config: Config, k: Key, o: Option<Raw>) {
    && (o.None? ==> forall i :: !Lasts(ops, config, i, k))
    && (o.Some? ==> exists i :: FirstToLast(ops, config, i, k) && Offer(ops, config, i, k) == o)
  }

  lemma PruneLasts(before: seq<Op>, op: Op, config: Config, k: Key, o: Option<Raw>)
    requires op.Prune? && IsLasting(before, config, k, o)
    ensures IsLasting(before + [op], config, k, if Cutoff(config, op.now) <= k.ts then o else None)
  {
    var ops := before + [op];
    OfferAtEnd(before, op, config, k);
    forall i | i < |before| ensures Lasts(ops, config, i, k) <==>
      Lasts(before, config, i, k) && Cutoff(config, op.now) <= k.ts {
      LastsAppend(before, op, config, i, k);
    }
    if o.Some? && Cutoff(config, op.now) <= k.ts {
      StillFirst(before, op, config, k, o);
    }
  }

  lemma StillFirst(before: seq<Op>, op: Op, config: Config, k: Key, o: Option<Raw>)
    requires (op.Prune? ==> Cutoff(config, op.now) <= k.ts) && o.Some? && IsLasting(before, config, k, o)
    ensures IsLasting(before + [op], config, k, o)
  {
    var i :| FirstToLast(before, config, i, k) && Offer(before, config, i, k) == o;
    FirstToLastAppend(before, op, config, i, k);
    LastsAppend(before, op, config, i, k);
  }

  lemma OfferLasts(before: seq<Op>, op: Op, config: Config, k: Key)
    requires !op.Prune? && IsLasting(before, config, k, None)
    ensures IsLasting(before + [op], config, k, Offer(before + [op], config, |before|, k))
  {
    var ops := before + [op];
    OfferAtEnd(before, op, config, k);
    forall i | i < |before| ensures !Lasts(ops, config, i, k) {
      LastsAppend(before, op, config, i, k);
    }
    assert Lasts(ops, config, |before|, k) <==> Offer(ops, config, |before|, k).Some?;
  }

  /** The store of every run, key by key: a key is stored exactly if some delivery offers a row for
      it that no later retention run reaches, and what is stored is the offer of the first such
      delivery. */
  lemma {:induction false} StoreExactly(ops: seq<Op>, config: Config, k: Key)
    ensures IsLasting(ops, config, k, Under(Run(ops, config).observations, k))
  {
    if ops != [] {
      var n := |ops| - 1;
      var before, op := ops[..n], ops[n];
      var s := Run(before, config);
      assert ops == before + [op];
      StoreExactly(before, config, k);
      KeyAfter(s, op, config, k);
      OfferAtEnd(before, op, config, k);
      if op.Prune? {
        PruneLasts(before, op, config, k, Under(s.observations, k));
      } else if k in s.observations {
        StillFirst(before, op, config, k, Under(s.observations, k));
      } else {
        OfferLasts(before, op, config, k);
      }
    }
  }

  // --- which rows are stored --------------------------------------------------

  lemma {:induction false} GoodRowsAre(rows: seq<Raw>, now: int, config: Config)
    ensures forall o :: o in GoodRows(rows, now, config) <==> o in rows && Good(o, now, config)
  {
    if rows != [] {
      GoodRowsAre(rows[..|rows| - 1], now, config);
      assert rows == rows[..|rows| - 1] + [rows[|rows| - 1]];
    }
  }

  /** The i-th operation brings this row from an authorized source in time, and no later retention
      run reaches it. */
  ghost predicate ArrivesAt(ops: seq<Op>, config: Config, i: int, source: Address, o: Raw) {
    && 0 <= i < |ops| && ops[i].Deliver? && ops[i].source == source && o in ops[i].batch.observations
    && Authorized(Run(ops[..i], config), source, config)
    && Good(o, ops[i].now, config) && Storable(o) && Spared(ops, config, i, o.ts.v)
  }

  ghost predicate Arrives(ops: seq<Op>, config: Config, source: Address, o: Raw) {
    exists i :: ArrivesAt(ops, config, i, source, o)
  }

  /** What an operation offers for a key is a row it brings. */
  lemma OfferIsBrought(ops: seq<Op>, config: Config, i: int, k: Key)
    requires Lasts(ops, config, i, k)
    ensures var o := Offer(ops, config, i, k).value;
            ArrivesAt(ops, config, i, k.monitor, o) && KeyOf(k.monitor, o) == k
  {
    var rows, now := ops[i].batch.observations, ops[i].now;
    GoodRowsAre(rows, now, config);
    FirstWithIs(k.monitor, GoodRows(rows, now, config), k);
  }

  lemma ArrivalIsOffered(ops: seq<Op>, config: Config, i: int, source: Address, o: Raw)
    requires ArrivesAt(ops, config, i, source, o)
    ensures Lasts(ops, config, i, KeyOf(source, o))
  {
    var rows, now, k := ops[i].batch.observations, ops[i].now, KeyOf(source, o);
    var good := GoodRows(rows, now, config);
    GoodRowsAre(rows, now, config);
    var n :| 0 <= n < |good| && good[n] == o;
    FirstWithIs(source, good, k);
    assert HasKey(source, good[n], k);
  }

  /** Over every run: the key of every row that arrives is stored, and every stored row is one that
      arrives. */
  lemma StoredArrives(ops: seq<Op>, config: Config)
    ensures forall source, o :: Arrives(ops, config, source, o) ==> KeyOf(source, o) in Run(ops, config).observations
    ensures forall k :: k in Run(ops, config).observations ==>
              var o := Run(ops, config).observations[k];
              Arrives(ops, config, k.monitor, o) && KeyOf(k.monitor, o) == k
  {
    forall source, o | Arrives(ops, config, source, o) ensures KeyOf(source, o) in Run(ops, config).observations {
      var i :| ArrivesAt(ops, config, i, source, o);
      ArrivalIsOffered(ops, config, i, source, o);
      StoreExactly(ops, config, KeyOf(source, o));
    }
    forall k | k in Run(ops, config).observations
      ensures var o := Run(ops, config).observations[k];
              Arrives(ops, config, k.monitor, o) && KeyOf(k.monitor, o) == k
    {
      StoreExactly(ops, config, k);
      var i :| FirstToLast(ops, config, i, k) && Offer(ops, config, i, k) == Some(Run(ops, config).observations[k]);
      OfferIsBrought(ops, config, i, k);
    }
  }

  ghost predicate StoredInFull(ops: seq<Op>, config: Config, source: Address, o: Raw)
    requires ValidSchema(o)
  {
    Under(Run(ops, config).observations, KeyOf(source, o)) == Some(o)
  }

  /** Over every run: all rows of a source that arrive are stored in full exactly if no two different
      ones share their key. */
  lemma AllStoredInFullIff(ops: seq<Op>, config: Config, source: Address)
    ensures (forall o :: Arrives(ops, config, source, o) ==> StoredInFull(ops, config, source, o))
            <==> (forall o, o' | Arrives(ops, config, source, o) && Arrives(ops, config, source, o') ::
                    !Clash(source, o, o'))
  {
    StoredArrives(ops, config);
    if forall o :: Arrives(ops, config, source, o) ==> StoredInFull(ops, config, source, o) {
      forall o, o' | Arrives(ops, config, source, o) && Arrives(ops, config, source, o')
        ensures !Clash(source, o, o')
      {
        assert StoredInFull(ops, config, source, o) && StoredInFull(ops, config, source, o');
      }
    }
    forall o | Arrives(ops, config, source, o) && !StoredInFull(ops, config, source, o)
      ensures exists o' :: Arrives(ops, config, source, o') && Clash(source, o, o')
    {
      var o' := Run(ops, config).observations[KeyOf(source, o)];
      assert Arrives(ops, config, source, o') && Clash(source, o, o');
    }
  }

  // --- convergence ------------------------------------------------------------

  /** What a run received: the deliveries, whatever their order, number and time. */
  function Received(ops: seq<Op>): set<(Address, Batch)> {
    set op | op in ops && op.Deliver? :: (op.source, op.batch)
  }

  /** Every delivery found its source authorized and every well-formed row inside the window, and
      nothing was pruned. */
  ghost predicate AllInTime(ops: seq<Op>, config: Config) {
    forall i :: 0 <= i < |ops| ==>
      && !ops[i].Prune?
      && (ops[i].Deliver? ==>
            && Authorized(Run(ops[..i], config), ops[i].source, config)
            && (forall o :: o in ops[i].batch.observations && ValidSchema(o) ==>
                ValidTimestamp(o.ts.v, ops[i].now, config)))
  }

  /** The batch has this row, well-formed and with this key. */
  ghost predicate Brings(source: Address, batch: Batch, k: Key, o: Raw) {
    o in batch.observations && ValidSchema(o) && KeyOf(source, o) == k
  }

  /** The keys a set of deliveries stands for: those of its well-formed rows without null columns. */
  ghost predicate Carries(received: set<(Address, Batch)>, k: Key) {
    exists d, o :: d in received && Brings(d.0, d.1, k, o) && Storable(o)
  }

  ghost predicate BroughtBy(received: set<(Address, Batch)>, k: Key, o: Raw) {
    exists d :: d in received && Brings(d.0, d.1, k, o)
  }

  lemma ArrivalIsReceived(ops: seq<Op>, config: Config, source: Address, o: Raw)
    requires Arrives(ops, config, source, o)
    ensures BroughtBy(Received(ops), KeyOf(source, o), o)
  {
    var i :| ArrivesAt(ops, config, i, source, o);
    var d := (source, ops[i].batch);
    assert ops[i] in ops;
    assert d in Received(ops) && Brings(d.0, d.1, KeyOf(source, o), o);
  }

  lemma ReceivedInTimeArrives(ops: seq<Op>, config: Config, d: (Address, Batch), k: Key, o: Raw)
    requires AllInTime(ops, config) && d in Received(ops) && Brings(d.0, d.1, k, o) && Storable(o)
    ensures Arrives(ops, config, d.0, o)
  {
    var op :| op in ops && op.Deliver? && (op.source, op.batch) == d;
    var i :| 0 <= i < |ops| && ops[i] == op;
    assert ArrivesAt(ops, config, i, d.0, o);
  }

  /** On every run, in time or not: a stored row is, in full, a row of some batch received under
      its monitor's address. */
  lemma StoredRowsWereReceived(ops: seq<Op>, config: Config, k: Key)
    requires k in Run(ops, config).observations
    ensures BroughtBy(Received(ops), k, Run(ops, config).observations[k])
  {
    StoredArrives(ops, config);
    ArrivalIsReceived(ops, config, k.monitor, Run(ops, config).observations[k]);
  }

  lemma StoredIsCarried(ops: seq<Op>, config: Config, k: Key)
    requires AllInTime(ops, config)
    ensures k in Run(ops, config).observations <==> Carries(Received(ops), k)
  {
    StoredArrives(ops, config);
    if k in Run(ops, config).observations {
      StoredRowsWereReceived(ops, config, k);
    }
    if Carries(Received(ops), k) {
      var d, o :| d in Received(ops) && Brings(d.0, d.1, k, o) && Storable(o);
      ReceivedInTimeArrives(ops, config, d, k, o);
    }
  }

  lemma NothingCut(trace: seq<Event>)
    requires forall i :: 0 <= i < |trace| ==> trace[i].Try?
    ensures Table(trace) == FirstTried(trace)
  {
    assert Safe(trace) && forall k :: Survives(trace, k);
    SafeTable(trace);
  }

  /** After a run in which everything arrived in time, the stored keys are exactly those the
      received batches carry, each with the first row received for it. */
  lemma StoreIsReceived(ops: seq<Op>, config: Config)
    requires AllInTime(ops, config)
    ensures forall k :: k in Run(ops, config).observations <==> Carries(Received(ops), k)
    ensures Run(ops, config).observations == FirstTried(Trace(ops, config))
  {
    forall k ensures k in Run(ops, config).observations <==> Carries(Received(ops), k) {
      StoredIsCarried(ops, config, k);
    }
    RunIsTrace(ops, config);
    OnlyTriesInTime(ops, config);
    NothingCut(Trace(ops, config));
  }

  lemma {:induction false} OnlyTriesInTime(ops: seq<Op>, config: Config)
    requires forall i :: 0 <= i < |ops| ==> !ops[i].Prune?
    ensures forall i :: 0 <= i < |Trace(ops, config)| ==> Trace(ops, config)[i].Try?
  {
    if ops != [] {
      var n := |ops| - 1;
      OnlyTriesInTime(ops[..n], config);
      if ops[n].Deliver? {
        OnlyTries(ops[n].source, GoodRows(ops[n].batch.observations, ops[n].now, config));
      }
    }
  }

  lemma {:induction false} OnlyTries(source: Address, rows: seq<Raw>)
    requires AllValid(rows)
    ensures forall i :: 0 <= i < |Tries(source, rows)| ==> Tries(source, rows)[i].Try?
  {
    if rows != [] {
      OnlyTries(source, rows[..|rows| - 1]);
    }
  }

  /** The same rows arrive in two runs. */
  ghost predicate SameArrivals(ops1: seq<Op>, config1: Config, ops2: seq<Op>, config2: Config) {
    forall source, o :: Arrives(ops1, config1, source, o) <==> Arrives(ops2, config2, source, o)
  }

  /** No two different rows of a source that arrive share their key. */
  ghost predicate NoClash(ops: seq<Op>, config: Config) {
    forall source, o, o' | Arrives(ops, config, source, o) && Arrives(ops, config, source, o') :: !Clash(source, o, o')
  }

  /** For every key of a row that arrives, and no other, the table holds one of these rows. */
  ghost predicate Chooses(table: map<Key, Raw>, arrives: (Address, Raw) -> bool) {
    && (forall source, o :: arrives(source, o) ==> ValidSchema(o) && Storable(o) && KeyOf(source, o) in table)
    && (forall k :: k in table ==>
        ValidSchema(table[k]) && KeyOf(k.monitor, table[k]) == k && arrives(k.monitor, table[k]))
  }

  lemma ChoicesAgree(a: map<Key, Raw>, b: map<Key, Raw>, arrives: (Address, Raw) -> bool)
    requires Chooses(a, arrives) && Chooses(b, arrives)
    ensures a.Keys == b.Keys
    ensures (forall source, o, o' | arrives(source, o) && arrives(source, o') :: !Clash(source, o, o')) ==> a == b
  {
    forall k ensures k in a <==> k in b {
      assert k in a ==> arrives(k.monitor, a[k]);
      assert k in b ==> arrives(k.monitor, b[k]);
    }
    if forall source, o, o' | arrives(source, o) && arrives(source, o') :: !Clash(source, o, o') {
      forall k | k in a ensures a[k] == b[k] {
        assert arrives(k.monitor, a[k]) && arrives(k.monitor, b[k]);
        assert !Clash(k.monitor, a[k], b[k]);
      }
    }
  }

  lemma RunChooses(ops: seq<Op>, config: Config, arrives: (Address, Raw) -> bool)
    requires forall source, o :: arrives(source, o) <==> Arrives(ops, config, source, o)
    ensures Chooses(Run(ops, config).observations, arrives)
  {
    StoredArrives(ops, config);
  }

  /** Two collectors, whatever their histories, at which the same rows arrive hold the same keys,
      and the same rows if keys tell these apart. */
  lemma SameArrivalsAgree(ops1: seq<Op>, config1: Config, ops2: seq<Op>, config2: Config)
    requires SameArrivals(ops1, config1, ops2, config2)
    ensures Run(ops1, config1).observations.Keys == Run(ops2, config2).observations.Keys
    ensures NoClash(ops1, config1) ==> Run(ops1, config1).observations == Run(ops2, config2).observations
  {
    var arrives := (source, o) => Arrives(ops1, config1, source, o);
    RunChooses(ops1, config1, arrives);
    RunChooses(ops2, config2, arrives);
    ChoicesAgree(Run(ops1, config1).observations, Run(ops2, config2).observations, arrives);
    if NoClash(ops1, config1) {
      forall source, o, o' | arrives(source, o) && arrives(source, o') ensures !Clash(source, o, o') {
      }
    }
  }

  lemma InTimeArrivals(ops: seq<Op>, config: Config, source: Address, o: Raw)
    requires AllInTime(ops, config)
    ensures Arrives(ops, config, source, o)
            <==> ValidSchema(o) && Storable(o) && BroughtBy(Received(ops), KeyOf(source, o), o)
  {
    if Arrives(ops, config, source, o) {
      ArrivalIsReceived(ops, config, source, o);
    }
    if ValidSchema(o) && Storable(o) && BroughtBy(Received(ops), KeyOf(source, o), o) {
      var d :| d in Received(ops) && Brings(d.0, d.1, KeyOf(source, o), o);
      ReceivedInTimeArrives(ops, config, d, KeyOf(source, o), o);
    }
  }

  /** Two collectors that receive the same batches, in any orders, any numbers of times and at any
      times inside the window, end with the same keys, and with the same rows if keys tell these
      apart. */
  lemma Convergence(ops1: seq<Op>, ops2: seq<Op>, config: Config)
    requires AllInTime(ops1, config) && AllInTime(ops2, config) && Received(ops1) == Received(ops2)
    ensures Run(ops1, config).observations.Keys == Run(ops2, config).observations.Keys
    ensures NoClash(ops1, config) ==> Run(ops1, config).observations == Run(ops2, config).observations
  {
    forall source, o ensures Arrives(ops1, config, source, o) <==> Arrives(ops2, config, source, o) {
      InTimeArrivals(ops1, config, source, o);
      InTimeArrivals(ops2, config, source, o);
    }
    SameArrivalsAgree(ops1, config, ops2, config);
  }

  // --- monitors ---------------------------------------------------------------

  lemma {:induction false} InsertedMonitors(table: map<Key, Raw>, source: Address, rows: seq<Raw>)
    requires AllValid(rows)
    ensures forall k :: k in Inserted(table, source, rows) ==> k in table || k.monitor == source
  {
    if rows != [] {
      InsertedMonitors(table, source, rows[..|rows| - 1]);
    }
  }

  /** The foreign key holds in every run: the monitor of every stored row is registered. */
  lemma {:induction false} StoredMonitorsRegistered(ops: seq<Op>, config: Config)
    ensures forall k :: k in Run(ops, config).observations ==> k.monitor in Run(ops, config).monitors
  {
    if ops != [] {
      var n := |ops| - 1;
      StoredMonitorsRegistered(ops[..n], config);
      var op := ops[n];
      if op.Deliver? {
        InsertedMonitors(Run(ops[..n], config).observations, op.source,
                         GoodRows(op.batch.observations, op.now, config));
      }
    }
  }

  /** What the last allowlist command for a source said. */
  function LastCommand(ops: seq<Op>, a: Address): Option<bool> {
    if ops == [] then None
    else
      var op := ops[|ops| - 1];
      if op.Allow? && op.a == a then Some(op.allowed) else LastCommand(ops[..|ops| - 1], a)
  }

  predicate HeardFrom(ops: seq<Op>, a: Address) {
    exists i :: 0 <= i < |ops| && ops[i].Deliver? && ops[i].source == a
  }

  lemma HeardFromAppend(ops: seq<Op>, op: Op, a: Address)
    ensures HeardFrom(ops + [op], a) <==> HeardFrom(ops, a) || (op.Deliver? && op.source == a)
  {
    var all := ops + [op];
    assert all[|ops|] == op && forall i :: 0 <= i < |ops| ==> all[i] == ops[i];
  }

  /** Who is marked allowed: the last allowlist command for a source decides; without one, in open
      mode, having been heard from, and in explicit mode nobody is. The same sources are known. */
  lemma {:induction false} AllowedExactly(ops: seq<Op>, config: Config, a: Address)
    ensures IsAllowed(Run(ops, config), a)
            <==> match LastCommand(ops, a)
                 case Some(allowed) => allowed
                 case None => config.open && HeardFrom(ops, a)
    ensures a in Run(ops, config).monitors <==> LastCommand(ops, a).Some? || (config.open && HeardFrom(ops, a))
  {
    if ops != [] {
      var n := |ops| - 1;
      AllowedExactly(ops[..n], config, a);
      HeardFromAppend(ops[..n], ops[n], a);
      assert ops == ops[..n] + [ops[n]];
    }
  }
}
