/** The collector's write path (`collector/ingest.py`, `collector/storage.py`, the counters of
    `collector/stats.py`): authorization, validation, idempotent insertion and retention. */
module Collector {
  import opened Text
  import opened Sets

  type Address = string

  /** A value of a decoded batch, as far as the validation looks at it. */
  datatype Value = Absent | Null | Boolean(b: bool) | Number(v: real) | Str(s: string)

  /** The value of a key that may be missing: that reads like a null. */
  type Optional = v: Value | !v.Absent? witness Null

  /** One element of a batch's observation list: a dictionary, or something else. */
  datatype Raw =
    | NotADict
    | Dict(ts: Value, mode: Value, band: Value, freq: Value,
           txLat: Value, txLon: Value, txGrid: Value,
           rxLat: Value, rxLon: Value, rxGrid: Value,
           snr: Value, kind: Value,
           txCall: Optional, rxCall: Optional, powerDbm: Optional)

  datatype Config = Config(open: bool, retentionDays: int, rejectOlderThan: int, rejectFutureSkew: int)

  datatype IngestResult = IngestResult(
    accepted: nat, duplicates: nat, rejectedAllowlist: nat, rejectedTimestamp: nat, rejectedSchema: nat)

  const NOTHING := IngestResult(0, 0, 0, 0, 0)

  function Total(r: IngestResult): nat {
    r.accepted + r.duplicates + r.rejectedAllowlist + r.rejectedTimestamp + r.rejectedSchema
  }

  function Plus(r: IngestResult, s: IngestResult): IngestResult {
    IngestResult(r.accepted + s.accepted, r.duplicates + s.duplicates,
                 r.rejectedAllowlist + s.rejectedAllowlist,
                 r.rejectedTimestamp + s.rejectedTimestamp,
                 r.rejectedSchema + s.rejectedSchema)
  }

  // --- validation -------------------------------------------------------------

  predicate IsNum(v: Value) {
    v.Number?
  }

  predicate NumWithin(lo: real, v: Value, hi: real) {
    v.Number? && lo <= v.v <= hi
  }

  const SNR_MIN := -50.0
  const SNR_MAX := 30.0

  predicate HasAllFields(o: Raw)
    requires o.Dict?
  {
    && !o.ts.Absent? && !o.mode.Absent? && !o.band.Absent? && !o.freq.Absent?
    && !o.txLat.Absent? && !o.txLon.Absent? && !o.txGrid.Absent?
    && !o.rxLat.Absent? && !o.rxLon.Absent? && !o.rxGrid.Absent?
    && !o.snr.Absent? && !o.kind.Absent?
  }

  /** `_valid_schema`, and that the element is a dictionary at all. */
  predicate ValidSchema(o: Raw) {
    && o.Dict?
    && HasAllFields(o)
    && (o.kind == Str("direct") || o.kind == Str("indirect"))
    && NumWithin(-90.0, o.txLat, 90.0) && NumWithin(-90.0, o.rxLat, 90.0)
    && NumWithin(-180.0, o.txLon, 180.0) && NumWithin(-180.0, o.rxLon, 180.0)
    && NumWithin(SNR_MIN, o.snr, SNR_MAX)
    && IsNum(o.freq) && IsNum(o.ts)
  }

  predicate ValidTimestamp(ts: real, now: int, config: Config) {
    (now - config.rejectOlderThan) as real <= ts <= (now + config.rejectFutureSkew) as real
  }

  // --- storage ----------------------------------------------------------------

  /** The unique dedup index. */
  datatype Key = Key(monitor: Address, ts: real, freq: real, txGrid: Value)

  /** What a monitor says about itself; a field it does not send is None. */
  datatype Meta = Meta(grid: Option<string>, lat: Option<real>, lon: Option<real>, swVersion: Option<string>)

  const NO_META := Meta(None, None, None, None)

  datatype MonitorRow = MonitorRow(meta: Meta, firstSeen: int, lastSeen: int, allowed: bool, notes: Option<string>)

  function KeyOf(monitor: Address, o: Raw): Key
    requires ValidSchema(o)
  {
    Key(monitor, o.ts.v, o.freq.v, o.txGrid)
  }

  /** The columns the validation does not look into must not be null to be stored. */
  predicate Storable(o: Raw)
    requires ValidSchema(o)
  {
    !o.mode.Null? && !o.band.Null? && !o.txGrid.Null? && !o.rxGrid.Null?
  }

  /** The observations and monitors tables. */
  datatype Store = Store(observations: map<Key, Raw>, monitors: map<Address, MonitorRow>)

  const EMPTY := Store(map[], map[])

  predicate IsAllowed(s: Store, a: Address) {
    a in s.monitors && s.monitors[a].allowed
  }

  function Upserted(monitors: map<Address, MonitorRow>, a: Address, meta: Meta, now: int): map<Address, MonitorRow> {
    if a in monitors then monitors[a := monitors[a].(meta := meta, lastSeen := now)]
    else monitors[a := MonitorRow(meta, now, now, true, None)]
  }

  function WithAllowed(monitors: map<Address, MonitorRow>, a: Address, allowed: bool, notes: Option<string>, now: int)
    : map<Address, MonitorRow>
  {
    if a in monitors then monitors[a := monitors[a].(allowed := allowed, notes := notes)]
    else monitors[a := MonitorRow(NO_META, now, now, allowed, notes)]
  }

  /** INSERT OR IGNORE of one row: nothing happens on a known key or a null column. */
  function InsertedOne(table: map<Key, Raw>, monitor: Address, o: Raw): map<Key, Raw>
    requires ValidSchema(o)
  {
    var k := KeyOf(monitor, o);
    if k in table || !Storable(o) then table else table[k := o]
  }

  predicate AllValid(rows: seq<Raw>) {
    forall i :: 0 <= i < |rows| ==> ValidSchema(rows[i])
  }

  function Inserted(table: map<Key, Raw>, monitor: Address, rows: seq<Raw>): map<Key, Raw>
    requires AllValid(rows)
  {
    if rows == [] then table
    else InsertedOne(Inserted(table, monitor, rows[..|rows| - 1]), monitor, rows[|rows| - 1])
  }

  function Cutoff(config: Config, now: int): real {
    (now - config.retentionDays * 86400) as real
  }

  function PrunedTable(table: map<Key, Raw>, cutoff: real): map<Key, Raw> {
    map k | k in table && k.ts >= cutoff :: table[k]
  }

  // --- ingest on values -------------------------------------------------------

  /** A batch as `ingest_batch` sees it: the monitor block and the observation list. */
  datatype Batch = Batch(meta: Meta, observations: seq<Raw>)

  /** What a source may have sent: something that is no dictionary, or one that may lack parts. */
  datatype Payload = NotABatch | Parts(meta: Option<Meta>, observations: Option<seq<Raw>>)

  function BatchOf(p: Payload): Batch {
    match p
    case NotABatch => Batch(NO_META, [])
    case Parts(meta, observations) =>
      Batch(if meta.Some? then meta.value else NO_META, if observations.Some? then observations.value else [])
  }

  predicate Authorized(s: Store, source: Address, config: Config) {
    config.open || IsAllowed(s, source)
  }

  predicate Good(o: Raw, now: int, config: Config) {
    ValidSchema(o) && ValidTimestamp(o.ts.v, now, config)
  }

  function GoodRows(rows: seq<Raw>, now: int, config: Config): (good: seq<Raw>)
    ensures AllValid(good) && |good| <= |rows|
  {
    if rows == [] then []
    else
      var before, o := GoodRows(rows[..|rows| - 1], now, config), rows[|rows| - 1];
      if Good(o, now, config) then before + [o] else before
  }

  /** How many rows fail the schema. */
  function SchemaFailures(rows: seq<Raw>): nat {
    if rows == [] then 0
    else SchemaFailures(rows[..|rows| - 1]) + if ValidSchema(rows[|rows| - 1]) then 0 else 1
  }

  /** How many rows pass the schema but not the clock. */
  function TimestampFailures(rows: seq<Raw>, now: int, config: Config): nat {
    if rows == [] then 0
    else
      var o := rows[|rows| - 1];
      TimestampFailures(rows[..|rows| - 1], now, config)
        + if ValidSchema(o) && !ValidTimestamp(o.ts.v, now, config) then 1 else 0
  }

  function Ingested(s: Store, source: Address, batch: Batch, config: Config, now: int): Store {
    if !Authorized(s, source, config) then s
    else Store(Inserted(s.observations, source, GoodRows(batch.observations, now, config)),
               Upserted(s.monitors, source, batch.meta, now))
  }

  /** What `ingest_batch` reports. */
  function Report(s: Store, source: Address, batch: Batch, config: Config, now: int): (r: IngestResult) {
    if !Authorized(s, source, config) then NOTHING.(rejectedAllowlist := |batch.observations|)
    else
      var good := GoodRows(batch.observations, now, config);
      InsertedGrows(s.observations, source, good);
      var accepted: nat := |Inserted(s.observations, source, good)| - |s.observations|;
      IngestResult(accepted, |good| - accepted, 0,
                   TimestampFailures(batch.observations, now, config), SchemaFailures(batch.observations))
  }

  lemma InsertedGrows(table: map<Key, Raw>, monitor: Address, rows: seq<Raw>)
    requires AllValid(rows)
    ensures 0 <= |Inserted(table, monitor, rows)| - |table| <= |rows|
    ensures table.Keys <= Inserted(table, monitor, rows).Keys
  {
    if rows != [] {
      InsertedGrows(table, monitor, rows[..|rows| - 1]);
    }
  }

  // --- the collector object ---------------------------------------------------

  function CountOf(counts: map<Address, nat>, source: Address): nat {
    if source in counts then counts[source] else 0
  }

  class Collection {
    const config: Config
    var observations: map<Key, Raw>
    var monitors: map<Address, MonitorRow>
    var ingest: IngestResult
    var queryCounts: map<Address, nat>

    constructor (config: Config)
      ensures this.config == config && State() == EMPTY && ingest == NOTHING && queryCounts == map[]
    {
      this.config := config;
      observations, monitors, ingest, queryCounts := map[], map[], NOTHING, map[];
    }

    function State(): Store
      reads this
    {
      Store(observations, monitors)
    }

    method UpsertMonitor(a: Address, meta: Meta, now: int)
      modifies this`monitors
      ensures monitors == Upserted(old(monitors), a, meta, now)
    {
      if a in monitors {
        monitors := monitors[a := monitors[a].(meta := meta, lastSeen := now)];
      } else {
        monitors := monitors[a := MonitorRow(meta, now, now, true, None)];
      }
    }

    method SetAllowed(a: Address, allowed: bool, notes: Option<string>, now: int)
      modifies this`monitors
      ensures monitors == WithAllowed(old(monitors), a, allowed, notes, now)
    {
      if a in monitors {
        monitors := monitors[a := monitors[a].(allowed := allowed, notes := notes)];
      } else {
        monitors := monitors[a := MonitorRow(NO_META, now, now, allowed, notes)];
      }
    }

    method InsertObservations(monitor: Address, rows: seq<Raw>) returns (inserted: nat)
      requires AllValid(rows)
      modifies this`observations
      ensures observations == Inserted(old(observations), monitor, rows)
      ensures inserted == |observations| - |old(observations)|
    {
      inserted := 0;
      for i := 0 to |rows|
        invariant AllValid(rows[..i])
        invariant observations == Inserted(old(observations), monitor, rows[..i])
        invariant inserted == |observations| - |old(observations)|
      {
        assert rows[..i + 1][..i] == rows[..i];
        var k := KeyOf(monitor, rows[i]);
        if k !in observations && Storable(rows[i]) {
          observations := observations[k := rows[i]];
          inserted := inserted + 1;
        }
      }
      assert rows[..|rows|] == rows;
    }

    method Prune(now: int) returns (deleted: nat)
      modifies this`observations
      ensures observations == PrunedTable(old(observations), Cutoff(config, now))
      ensures deleted == |old(observations)| - |observations|
    {
      var kept := PrunedTable(observations, Cutoff(config, now));
      PrunedShrinks(observations, Cutoff(config, now));
      deleted := |observations| - |kept|;
      observations := kept;
    }

    method IngestBatch(source: Address, payload: Payload, now: int) returns (result: IngestResult)
      modifies this`observations, this`monitors
      ensures State() == Ingested(old(State()), source, BatchOf(payload), config, now)
      ensures result == Report(old(State()), source, BatchOf(payload), config, now)
    {
      result := NOTHING;
      var rows := if payload.Parts? && payload.observations.Some? then payload.observations.value else [];
      if !config.open && !(source in monitors && monitors[source].allowed) {
        result := result.(rejectedAllowlist := |rows|);
        return;
      }
      UpsertMonitor(source, if payload.Parts? && payload.meta.Some? then payload.meta.value else NO_META, now);
      var good: seq<Raw> := [];
      for i := 0 to |rows|
        invariant good == GoodRows(rows[..i], now, config)
        invariant result == NOTHING.(rejectedSchema := SchemaFailures(rows[..i]),
                                     rejectedTimestamp := TimestampFailures(rows[..i], now, config))
      {
        assert rows[..i + 1][..i] == rows[..i];
        var o := rows[i];
        if !ValidSchema(o) {
          result := result.(rejectedSchema := result.rejectedSchema + 1);
        } else if !ValidTimestamp(o.ts.v, now, config) {
          result := result.(rejectedTimestamp := result.rejectedTimestamp + 1);
        } else {
          good := good + [o];
        }
      }
      assert rows[..|rows|] == rows;
      var inserted := InsertObservations(source, good);
      InsertedGrows(old(observations), source, good);
      result := result.(accepted := inserted, duplicates := |good| - inserted);
    }

    /** `Stats.record_query`. */
    method RecordQuery(source: Address)
      modifies this`queryCounts
      ensures queryCounts == old(queryCounts)[source := CountOf(old(queryCounts), source) + 1]
    {
      queryCounts := queryCounts[source := CountOf(queryCounts, source) + 1];
    }

    /** `Stats.record_ingest`. */
    method RecordIngest(result: IngestResult)
      modifies this`ingest
      ensures ingest == Plus(old(ingest), result)
    {
      ingest := IngestResult(ingest.accepted + result.accepted,
                             ingest.duplicates + result.duplicates,
                             ingest.rejectedAllowlist + result.rejectedAllowlist,
                             ingest.rejectedTimestamp + result.rejectedTimestamp,
                             ingest.rejectedSchema + result.rejectedSchema);
    }
  }

  lemma PrunedShrinks(table: map<Key, Raw>, cutoff: real)
    ensures |PrunedTable(table, cutoff)| <= |table|
  {
    assert PrunedTable(table, cutoff).Keys <= table.Keys;
    SubsetSize(PrunedTable(table, cutoff).Keys, table.Keys);
  }

  // --- the monitors table -----------------------------------------------------

  /** Hearing from a monitor refreshes it but keeps when it was first seen, whether it is allowed
      and the notes; an allowlist command changes only the last two. Other monitors are
      untouched. */
  lemma MonitorRowsKeep(monitors: map<Address, MonitorRow>, a: Address, meta: Meta, allowed: bool,
                        notes: Option<string>, now: int)
    ensures var m := Upserted(monitors, a, meta, now);
            && m.Keys == monitors.Keys + {a} && m[a].lastSeen == now && m[a].meta == meta
            && (a in monitors ==> && m[a].firstSeen == monitors[a].firstSeen && m[a].allowed == monitors[a].allowed
                                  && m[a].notes == monitors[a].notes)
            && (a !in monitors ==> m[a].firstSeen == now && m[a].allowed && m[a].notes == None)
            && (forall b :: b in monitors && b != a ==> m[b] == monitors[b])
    ensures var m := WithAllowed(monitors, a, allowed, notes, now);
            && m.Keys == monitors.Keys + {a} && m[a].allowed == allowed && m[a].notes == notes
            && (a in monitors ==> && m[a].firstSeen == monitors[a].firstSeen && m[a].lastSeen == monitors[a].lastSeen
                                  && m[a].meta == monitors[a].meta)
            && (a !in monitors ==> m[a].firstSeen == now && m[a].lastSeen == now && m[a].meta == NO_META)
            && (forall b :: b in monitors && b != a ==> m[b] == monitors[b])
  {
  }

  // --- one batch --------------------------------------------------------------

  lemma {:induction false} RejectsCount(rows: seq<Raw>, now: int, config: Config)
    ensures |GoodRows(rows, now, config)| + SchemaFailures(rows) + TimestampFailures(rows, now, config) == |rows|
  {
    if rows != [] {
      RejectsCount(rows[..|rows| - 1], now, config);
    }
  }

  /** Every observation of a batch falls into exactly one of the five counters. */
  lemma CountersPartitionBatch(s: Store, source: Address, batch: Batch, config: Config, now: int)
    ensures Total(Report(s, source, batch, config, now)) == |batch.observations|
  {
    RejectsCount(batch.observations, now, config);
  }

  /** The first storable row of a list with this key. */
  function FirstWith(source: Address, rows: seq<Raw>, k: Key): Option<Raw>
    requires AllValid(rows)
  {
    if rows == [] then None
    else
      var before, o := FirstWith(source, rows[..|rows| - 1], k), rows[|rows| - 1];
      if before.None? && Storable(o) && KeyOf(source, o) == k then Some(o) else before
  }

  /** The row that has a key once a list was offered to a table: the one in the table, or else the
      first one of the list. */
  function Holder(table: map<Key, Raw>, source: Address, rows: seq<Raw>, k: Key): Option<Raw>
    requires AllValid(rows)
  {
    if k in table then Some(table[k]) else FirstWith(source, rows, k)
  }

  /** The genuine repeats of a list of validated rows: rows that their key's holder before them
      equals in full. */
  function Repeats(table: map<Key, Raw>, source: Address, rows: seq<Raw>): nat
    requires AllValid(rows)
  {
    if rows == [] then 0
    else
      var n := |rows| - 1;
      Repeats(table, source, rows[..n])
        + if Storable(rows[n]) && Holder(table, source, rows[..n], KeyOf(source, rows[n])) == Some(rows[n]) then 1
          else 0
  }

  /** The rows of the list that find their key held by a different row, and are lost. */
  function Collisions(table: map<Key, Raw>, source: Address, rows: seq<Raw>): nat
    requires AllValid(rows)
  {
    if rows == [] then 0
    else
      var n := |rows| - 1;
      Collisions(table, source, rows[..n])
        + if Storable(rows[n]) && Holder(table, source, rows[..n], KeyOf(source, rows[n])) !in {None, Some(rows[n])}
          then 1 else 0
  }

  /** The rows of a list that have a null column. */
  function Nulls(rows: seq<Raw>): nat
    requires AllValid(rows)
  {
    if rows == [] then 0 else Nulls(rows[..|rows| - 1]) + if Storable(rows[|rows| - 1]) then 0 else 1
  }

  /** A storable row with this key. */
  predicate HasKey(source: Address, o: Raw, k: Key)
    requires ValidSchema(o)
  {
    Storable(o) && KeyOf(source, o) == k
  }

  lemma {:induction false} FirstWithIs(source: Address, rows: seq<Raw>, k: Key)
    requires AllValid(rows)
    ensures FirstWith(source, rows, k).None? <==> forall i :: 0 <= i < |rows| ==> !HasKey(source, rows[i], k)
    ensures FirstWith(source, rows, k).Some? ==>
              exists i :: 0 <= i < |rows| && HasKey(source, rows[i], k) && FirstWith(source, rows, k) == Some(rows[i])
  {
    if rows != [] {
      var n := |rows| - 1;
      var before := rows[..n];
      FirstWithIs(source, before, k);
      assert forall i :: 0 <= i < n ==> before[i] == rows[i];
      assert HasKey(source, rows[n], k) <==> Storable(rows[n]) && KeyOf(source, rows[n]) == k;
    }
  }

  lemma {:induction false} InsertedHolds(table: map<Key, Raw>, source: Address, rows: seq<Raw>, k: Key)
    requires AllValid(rows)
    ensures Holder(table, source, rows, k)
            == if k in Inserted(table, source, rows) then Some(Inserted(table, source, rows)[k]) else None
  {
    if rows != [] {
      InsertedHolds(table, source, rows[..|rows| - 1], k);
    }
  }

  lemma {:induction false} InsertedCount(table: map<Key, Raw>, source: Address, rows: seq<Raw>)
    requires AllValid(rows)
    ensures |Inserted(table, source, rows)| - |table|
            + Repeats(table, source, rows) + Collisions(table, source, rows) + Nulls(rows) == |rows|
  {
    if rows != [] {
      var n := |rows| - 1;
      InsertedCount(table, source, rows[..n]);
      InsertedHolds(table, source, rows[..n], KeyOf(source, rows[n]));
    }
  }

  lemma {:induction false} NullsExactly(rows: seq<Raw>)
    requires AllValid(rows)
    ensures Nulls(rows) == 0 <==> forall i :: 0 <= i < |rows| ==> Storable(rows[i])
  {
    if rows != [] {
      var n := |rows| - 1;
      var before := rows[..n];
      NullsExactly(before);
      assert forall i :: 0 <= i < n ==> before[i] == rows[i];
    }
  }

  /** No storable row has the key of a different row in the table or in the list. */
  ghost predicate KeysTellRowsApart(table: map<Key, Raw>, source: Address, rows: seq<Raw>)
    requires AllValid(rows)
  {
    && (forall i :: 0 <= i < |rows| ==> Undisputed(table, source, rows[i]))
    && (forall i, j :: 0 <= i < j < |rows| ==> !Clash(source, rows[i], rows[j]))
  }

  predicate Undisputed(table: map<Key, Raw>, source: Address, o: Raw)
    requires ValidSchema(o)
  {
    Storable(o) && KeyOf(source, o) in table ==> table[KeyOf(source, o)] == o
  }

  /** Two different storable rows with one key. */
  predicate Clash(source: Address, o: Raw, o': Raw)
    requires ValidSchema(o) && ValidSchema(o')
  {
    Storable(o) && Storable(o') && KeyOf(source, o) == KeyOf(source, o') && o != o'
  }

  /** One row's share of `CollisionsExactly`. */
  lemma LastCollides(table: map<Key, Raw>, source: Address, before: seq<Raw>, o: Raw)
    requires AllValid(before) && ValidSchema(o) && KeysTellRowsApart(table, source, before)
    ensures Storable(o) && Holder(table, source, before, KeyOf(source, o)) !in {None, Some(o)}
            <==> !Undisputed(table, source, o) || exists i :: 0 <= i < |before| && Clash(source, before[i], o)
  {
    var k := KeyOf(source, o);
    FirstWithIs(source, before, k);
    if Storable(o) && k !in table && FirstWith(source, before, k).Some? {
      var i :| 0 <= i < |before| && HasKey(source, before[i], k) && FirstWith(source, before, k) == Some(before[i]);
      if before[i] == o {
        forall j | 0 <= j < |before| ensures !Clash(source, before[j], o) {
          assert !Clash(source, before[if j < i then j else i], before[if j < i then i else j]) || i == j;
        }
      } else {
        assert Clash(source, before[i], o);
      }
    }
    if Storable(o) && k in table && table[k] == o {
      forall j | 0 <= j < |before| ensures !Clash(source, before[j], o) {
        assert Undisputed(table, source, before[j]);
      }
    }
    if Storable(o) && k !in table && FirstWith(source, before, k).None? {
      forall j | 0 <= j < |before| ensures !Clash(source, before[j], o) {
        assert !HasKey(source, before[j], k);
      }
    }
  }

  lemma KeysTellAppend(table: map<Key, Raw>, source: Address, before: seq<Raw>, o: Raw)
    requires AllValid(before) && ValidSchema(o)
    ensures AllValid(before + [o])
    ensures KeysTellRowsApart(table, source, before + [o])
            <==> && KeysTellRowsApart(table, source, before) && Undisputed(table, source, o)
                 && forall i :: 0 <= i < |before| ==> !Clash(source, before[i], o)
  {
    var rows := before + [o];
    assert rows[|before|] == o && forall i :: 0 <= i < |before| ==> rows[i] == before[i];
  }

  lemma {:induction false} CollisionsExactly(table: map<Key, Raw>, source: Address, rows: seq<Raw>)
    requires AllValid(rows)
    ensures Collisions(table, source, rows) == 0 <==> KeysTellRowsApart(table, source, rows)
  {
    if rows != [] {
      var n := |rows| - 1;
      CollisionsExactly(table, source, rows[..n]);
      KeysTellAppend(table, source, rows[..n], rows[n]);
      assert rows == rows[..n] + [rows[n]];
      if KeysTellRowsApart(table, source, rows[..n]) {
        LastCollides(table, source, rows[..n], rows[n]);
      }
    }
  }

  /** "Duplicates" are not all duplicates: in every batch let in, the counter also has the rows
      with a null column and the rows that lost their key to a different row, though neither was
      ever stored. It counts the genuine repeats alone exactly if no row that passes the checks has
      a null column and keys tell these rows apart, among themselves and from those stored. */
  lemma DuplicatesExactly(s: Store, source: Address, batch: Batch, config: Config, now: int)
    requires Authorized(s, source, config)
    ensures var good := GoodRows(batch.observations, now, config);
            var duplicates := Report(s, source, batch, config, now).duplicates;
            var repeats := Repeats(s.observations, source, good);
            && duplicates == repeats + Collisions(s.observations, source, good) + Nulls(good)
            && (duplicates == repeats
                <==> && (forall i :: 0 <= i < |good| ==> Storable(good[i]))
                     && KeysTellRowsApart(s.observations, source, good))
  {
    var good := GoodRows(batch.observations, now, config);
    InsertedCount(s.observations, source, good);
    NullsExactly(good);
    CollisionsExactly(s.observations, source, good);
  }

  lemma OneGoodRow(table: map<Key, Raw>, source: Address, o: Raw, config: Config, now: int)
    requires Good(o, now, config)
    ensures GoodRows([o], now, config) == [o]
    ensures Inserted(table, source, [o]) == InsertedOne(table, source, o)
  {
    var rows := [o];
    assert rows[..0] == [] && GoodRows(rows[..0], now, config) == [] && Inserted(table, source, rows[..0]) == table;
  }
}
