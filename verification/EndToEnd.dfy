/** From the lines a monitor hears to the collector's store. */
module EndToEnd {
  import opened Text
  import opened Locator
  import opened Observations
  import CallsignCache
  import Ft8Parser
  import Ft8Pipeline
  import BlacklistExact
  import Telemetry
  import Monitor
  import opened Collector
  import opened CollectorRuns

  function CallValue(call: Option<string>): Optional {
    match call
    case None => Null
    case Some(c) => Str(c)
  }

  function PowerValue(power: Option<int>): Optional {
    match power
    case None => Null
    case Some(p) => Number(p as real)
  }

  /** A telemetry row as the collector decodes it. */
  function ToRaw(r: Telemetry.Row): Raw {
    Dict(Number(r.ts as real), Str(r.mode), Str(r.band), Number(r.freq as real),
         Number(r.txLat), Number(r.txLon), Str(r.txGrid),
         Number(r.rxLat), Number(r.rxLon), Str(r.rxGrid),
         Number(r.snr as real), Str(if r.kind == Direct then "direct" else "indirect"),
         CallValue(r.txCall), CallValue(r.rxCall), PowerValue(r.powerDbm))
  }

  function ToRaws(rows: seq<Telemetry.Row>): (raws: seq<Raw>)
    ensures |raws| == |rows| && forall i :: 0 <= i < |rows| ==> raws[i] == ToRaw(rows[i])
  {
    seq(|rows|, i requires 0 <= i < |rows| => ToRaw(rows[i]))
  }

  function ToBatch(meta: Telemetry.Meta, rows: seq<Telemetry.Row>): Batch {
    Batch(Meta(Some(meta.grid), Some(meta.lat), Some(meta.lon), Some(meta.swVersion)), ToRaws(rows))
  }

  /** A row the monitor may send passes the collector's schema exactly when its SNR, a decode's or
      a report's, is in the collector's range; it never has a null column. */
  lemma GoodRowsPassSchema(r: Telemetry.Row, bl: Blacklist)
    requires Monitor.GoodRow(r, bl)
    ensures ValidSchema(ToRaw(r)) <==> -50 <= r.snr <= 30
    ensures ValidSchema(ToRaw(r)) ==> Storable(ToRaw(r))
  {
    CenterIsOnEarth(r.txGrid);
    CenterIsOnEarth(r.rxGrid);
  }

  // --- rows and their keys ----------------------------------------------------

  predicate SameKey(r: Telemetry.Row, r': Telemetry.Row) {
    r.ts == r'.ts && r.freq == r'.freq && r.txGrid == r'.txGrid
  }

  lemma ToRawTellsApart(r: Telemetry.Row, r': Telemetry.Row)
    ensures ToRaw(r) == ToRaw(r') <==> r == r'
  {
  }

  lemma KeysAre(m: Address, r: Telemetry.Row, r': Telemetry.Row)
    requires ValidSchema(ToRaw(r)) && ValidSchema(ToRaw(r'))
    ensures KeyOf(m, ToRaw(r)) == KeyOf(m, ToRaw(r')) <==> SameKey(r, r')
  {
  }

  // --- what is stored was heard -----------------------------------------------

  /** The observation list of a delivery is that of some batch the monitor handed to its sender. */
  ghost predicate FromAttempts(batch: Batch, attempts: seq<Telemetry.Attempt>) {
    exists j :: 0 <= j < |attempts| && batch.observations == ToRaws(attempts[j].rows)
  }

  /** What arrives under the monitor's address are batches handed to its sender, perhaps
      reported as failed, perhaps several times. */
  ghost predicate OnlyAttempts(ops: seq<Op>, m: Address, attempts: seq<Telemetry.Attempt>) {
    forall d :: d in Received(ops) && d.0 == m ==> FromAttempts(d.1, attempts)
  }

  ghost predicate AllSegments(attempts: seq<Telemetry.Attempt>, emitted: seq<Telemetry.Row>) {
    forall j :: 0 <= j < |attempts| ==> Telemetry.IsSegment(attempts[j].rows, emitted)
  }

  lemma SegmentRow(rows: seq<Telemetry.Row>, emitted: seq<Telemetry.Row>, n: nat)
    requires Telemetry.IsSegment(rows, emitted) && n < |rows|
    ensures rows[n] in emitted
  {
    var from, to :| 0 <= from <= to <= |emitted| && emitted[from..to] == rows;
    assert rows[n] == emitted[from + n];
  }

  /** A stored row of the monitor is, in full, one it emitted. */
  lemma StoredRowWasEmitted(ops: seq<Op>, config: Config, m: Address, attempts: seq<Telemetry.Attempt>,
                            emitted: seq<Telemetry.Row>, k: Key)
    returns (r: Telemetry.Row)
    requires OnlyAttempts(ops, m, attempts) && AllSegments(attempts, emitted)
    requires k in Run(ops, config).observations && k.monitor == m
    ensures r in emitted && Run(ops, config).observations[k] == ToRaw(r) && ValidSchema(ToRaw(r))
  {
    var o := Run(ops, config).observations[k];
    StoredRowsWereReceived(ops, config, k);
    var d :| d in Received(ops) && Brings(d.0, d.1, k, o);
    var j :| 0 <= j < |attempts| && d.1.observations == ToRaws(attempts[j].rows);
    var n :| 0 <= n < |d.1.observations| && d.1.observations[n] == o;
    r := attempts[j].rows[n];
    SegmentRow(attempts[j].rows, emitted, n);
  }

  /** The stored row comes from a row of the monitor that is good and in the SNR range. */
  ghost predicate FromGoodRow(o: Raw, emitted: seq<Telemetry.Row>, bl: Blacklist) {
    exists r :: r in emitted && Monitor.GoodRow(r, bl) && -50 <= r.snr <= 30 && o == ToRaw(r)
  }

  /** Safety from the line to the store, over every run of the monitor from a cache without fresh
      blacklisted entries and every run of the collector that receives under its address only what
      it handed to its sender, however late, often or out of order: every row stored for it is, in
      full, one it emitted, on a slot boundary, at the centres of its locators, in the SNR range
      and free of blacklisted data. */
  lemma StoredRowsWereHeard(setup: Monitor.Setup, events: seq<Monitor.Event>, t0: real, maxPending: nat,
                            sendEmpty: bool,
                            ops: seq<Op>, config: Config, m: Address)
    requires Ft8Pipeline.CleanFrom(setup.start, setup.site.blacklist, setup.ttl, t0, setup.max)
    requires Monitor.HeardFrom(events, t0)
    requires OnlyAttempts(ops, m, Telemetry.Attempts(Monitor.LinkEvents(setup, events), maxPending, sendEmpty))
    ensures forall k :: k in Run(ops, config).observations && k.monitor == m ==>
              FromGoodRow(Run(ops, config).observations[k], Telemetry.EmittedRows(Monitor.LinkEvents(setup, events)),
                          setup.site.blacklist)
  {
    var links, bl := Monitor.LinkEvents(setup, events), setup.site.blacklist;
    var attempts, emitted := Telemetry.Attempts(links, maxPending, sendEmpty), Telemetry.EmittedRows(links);
    Monitor.EmittedRowsAreGood(setup, events, t0);
    Telemetry.AttemptsAreEmitted(links, maxPending, sendEmpty);
    forall k | k in Run(ops, config).observations && k.monitor == m
      ensures FromGoodRow(Run(ops, config).observations[k], emitted, bl)
    {
      var r := StoredRowWasEmitted(ops, config, m, attempts, emitted, k);
      assert Monitor.GoodRow(r, bl);
      GoodRowsPassSchema(r, bl);
    }
  }

  // --- what was heard is stored -----------------------------------------------

  /** The row is in the SNR range and the d-th operation brings a batch it is in, from the monitor,
      let in, in time for the row and with no later retention run that reaches it. */
  ghost predicate BroughtInTime(ops: seq<Op>, config: Config, d: int, m: Address, meta: Telemetry.Meta,
                                rows: seq<Telemetry.Row>, i: int)
  {
    && 0 <= d < |ops| && ops[d].Deliver? && ops[d].source == m && ops[d].batch == ToBatch(meta, rows)
    && Authorized(Run(ops[..d], config), m, config)
    && 0 <= i < |rows| && -50 <= rows[i].snr <= 30 && ValidTimestamp(rows[i].ts as real, ops[d].now, config)
    && Spared(ops, config, d, rows[i].ts as real)
  }

  /** A row of the monitor arrives at the collector. */
  ghost predicate Arrived(ops: seq<Op>, config: Config, m: Address, r: Telemetry.Row) {
    Arrives(ops, config, m, ToRaw(r))
  }

  ghost predicate IsStored(ops: seq<Op>, config: Config, m: Address, r: Telemetry.Row) {
    ValidSchema(ToRaw(r)) && StoredInFull(ops, config, m, ToRaw(r))
  }

  /** Some emitted row with the same key that arrived is stored in full. */
  ghost predicate KeyIsStored(ops: seq<Op>, config: Config, m: Address, emitted: seq<Telemetry.Row>, r: Telemetry.Row) {
    exists r' :: r' in emitted && SameKey(r, r') && Arrived(ops, config, m, r') && IsStored(ops, config, m, r')
  }

  lemma BroughtArrives(ops: seq<Op>, config: Config, d: int, m: Address, meta: Telemetry.Meta,
                       rows: seq<Telemetry.Row>, i: int, bl: Blacklist)
    requires BroughtInTime(ops, config, d, m, meta, rows, i) && Monitor.GoodRow(rows[i], bl)
    ensures Arrived(ops, config, m, rows[i])
  {
    GoodRowsPassSchema(rows[i], bl);
    assert ops[d].batch.observations[i] == ToRaw(rows[i]);
    assert ArrivesAt(ops, config, d, m, ToRaw(rows[i]));
  }

  /** Of the rows that arrived under one key, one is stored in full. */
  lemma ArrivedKeyIsStored(ops: seq<Op>, config: Config, m: Address, attempts: seq<Telemetry.Attempt>,
                           emitted: seq<Telemetry.Row>, r: Telemetry.Row)
    requires OnlyAttempts(ops, m, attempts) && AllSegments(attempts, emitted) && Arrived(ops, config, m, r)
    ensures KeyIsStored(ops, config, m, emitted, r)
  {
    var k := KeyOf(m, ToRaw(r));
    StoredArrives(ops, config);
    var r' := StoredRowWasEmitted(ops, config, m, attempts, emitted, k);
    KeysAre(m, r, r');
    assert Arrived(ops, config, m, r') && IsStored(ops, config, m, r');
  }

  /** All emitted rows that arrived are stored in full exactly if no two different ones of them
      share time, frequency and transmitter grid. */
  ghost predicate StoredUnlessClashing(ops: seq<Op>, config: Config, m: Address, emitted: seq<Telemetry.Row>) {
    (forall r | r in emitted && Arrived(ops, config, m, r) :: IsStored(ops, config, m, r))
    <==> (forall r, r' | r in emitted && r' in emitted && Arrived(ops, config, m, r) && Arrived(ops, config, m, r') ::
            SameKey(r, r') ==> r == r')
  }

  lemma NeverBoth(ops: seq<Op>, config: Config, m: Address, r: Telemetry.Row, r': Telemetry.Row)
    requires r != r' && SameKey(r, r')
    ensures !IsStored(ops, config, m, r) || !IsStored(ops, config, m, r')
  {
    ToRawTellsApart(r, r');
  }

  lemma StoredIff(ops: seq<Op>, config: Config, m: Address, attempts: seq<Telemetry.Attempt>,
                  emitted: seq<Telemetry.Row>)
    requires OnlyAttempts(ops, m, attempts) && AllSegments(attempts, emitted)
    ensures StoredUnlessClashing(ops, config, m, emitted)
  {
    if forall r | r in emitted && Arrived(ops, config, m, r) :: IsStored(ops, config, m, r) {
      forall r, r' | r in emitted && r' in emitted && Arrived(ops, config, m, r) && Arrived(ops, config, m, r')
        && SameKey(r, r')
        ensures r == r'
      {
        assert IsStored(ops, config, m, r) && IsStored(ops, config, m, r');
        ToRawTellsApart(r, r');
      }
    }
    forall r | r in emitted && Arrived(ops, config, m, r) && !IsStored(ops, config, m, r)
      ensures exists r' :: r' in emitted && Arrived(ops, config, m, r') && SameKey(r, r') && r != r'
    {
      ArrivedKeyIsStored(ops, config, m, attempts, emitted, r);
    }
  }

  /** Delivery from the line to the store, over every run of the monitor from a harmless cache and
      every run of the collector, with whatever other sources, commands and retention runs: the key
      of every row in range that a batch brings in time is stored, with one of the rows that arrived
      under it; all rows that arrived are stored in full exactly if no two different ones share
      their key; and of everything emitted, what is in no acknowledged batch is accounted for row
      by row as reported lost, counted lost or still pending. */
  lemma HeardRowsAreStored(setup: Monitor.Setup, events: seq<Monitor.Event>, t0: real, maxPending: nat, sendEmpty: bool,
                           meta: Telemetry.Meta, ops: seq<Op>, config: Config, m: Address)
    requires Ft8Pipeline.CleanFrom(setup.start, setup.site.blacklist, setup.ttl, t0, setup.max)
    requires Monitor.HeardFrom(events, t0)
    requires OnlyAttempts(ops, m, Telemetry.Attempts(Monitor.LinkEvents(setup, events), maxPending, sendEmpty))
    ensures var links := Monitor.LinkEvents(setup, events);
            var attempts, emitted := Telemetry.Attempts(links, maxPending, sendEmpty), Telemetry.EmittedRows(links);
            var link := Telemetry.Run(links, maxPending, sendEmpty);
            && (forall j, d, i | 0 <= j < |attempts| && BroughtInTime(ops, config, d, m, meta, attempts[j].rows, i) ::
                  Arrived(ops, config, m, attempts[j].rows[i])
                    && KeyIsStored(ops, config, m, emitted, attempts[j].rows[i]))
            && StoredUnlessClashing(ops, config, m, emitted)
            && Telemetry.Accounts(emitted, Telemetry.Acked(attempts), link.dropped, link.queue + link.obs)
  {
    var links := Monitor.LinkEvents(setup, events);
    var attempts, emitted := Telemetry.Attempts(links, maxPending, sendEmpty), Telemetry.EmittedRows(links);
    Telemetry.LossAccounting(links, maxPending, sendEmpty);
    Telemetry.AttemptsAreEmitted(links, maxPending, sendEmpty);
    StoredIff(ops, config, m, attempts, emitted);
    forall j, d, i | 0 <= j < |attempts| && BroughtInTime(ops, config, d, m, meta, attempts[j].rows, i)
      ensures Arrived(ops, config, m, attempts[j].rows[i]) && KeyIsStored(ops, config, m, emitted, attempts[j].rows[i])
    {
      Monitor.SentRowsAreGood(setup, events, t0, maxPending, sendEmpty, j);
      BroughtArrives(ops, config, d, m, meta, attempts[j].rows, i, setup.site.blacklist);
      ArrivedKeyIsStored(ops, config, m, attempts, emitted, attempts[j].rows[i]);
    }
  }

  // --- when rows clash --------------------------------------------------------

  lemma RowsOfTwo(a: (Observation, int), b: (Observation, int), receiver: Monitor.Receiver, ts: int,
                  indirect: bool, callsigns: bool)
    ensures var rows := Monitor.RowsOf([a, b], receiver, ts, indirect, callsigns);
            && |rows| <= 2 && (indirect ==> |rows| == 2)
            && (|rows| == 2 ==>
                && rows[0] == Telemetry.MakeRow(a.0, ts, a.1, receiver.band, Upper(receiver.mode), callsigns)
                && rows[1] == Telemetry.MakeRow(b.0, ts, b.1, receiver.band, Upper(receiver.mode), callsigns))
  {
    assert [a, b][..1] == [a] && [a][..0] == [];
    assert Monitor.RowsOf([a][..0], receiver, ts, indirect, callsigns) == [];
    var first := Monitor.RowsOf([a], receiver, ts, indirect, callsigns);
    assert first == if a.0.kind == Indirect && !indirect then []
                    else [Telemetry.MakeRow(a.0, ts, a.1, receiver.band, Upper(receiver.mode), callsigns)];
  }

  lemma RowsOfFew(emitted: seq<(Observation, int)>, receiver: Monitor.Receiver, ts: int, indirect: bool,
                  callsigns: bool)
    requires |emitted| <= 1
    ensures |Monitor.RowsOf(emitted, receiver, ts, indirect, callsigns)| <= 1
  {
    if |emitted| == 1 {
      assert emitted[..0] == [];
    }
  }

  /** What two observations of one decode are: different ones, with the same frequency, that meet
      in the station that reported. */
  ghost predicate IsPair(emitted: seq<(Observation, int)>) {
    && |emitted| == 2 && emitted[0].1 == emitted[1].1
    && emitted[0].0.kind == Direct && emitted[1].0.kind == Indirect && emitted[0].0.txGrid == emitted[1].0.rxGrid
  }

  lemma EmittedPairs(site: Ft8Pipeline.Site, line: Ft8Pipeline.Line, items: seq<CallsignCache.Item>, max: nat,
                     ttl: real)
    ensures var emitted := Ft8Pipeline.EmittedBy(Ft8Pipeline.Ingest(site, line, items, max, ttl).result);
            |emitted| <= 1 || IsPair(emitted)
  {
    if line.decode.Some? {
      var d := line.decode.value;
      var msg := Ft8Parser.Classify(d.message);
      var learned := Ft8Pipeline.AfterLearn(msg, items, max, line.ts);
      Ft8Parser.ClassifiedShape(d.message);
      Ft8Pipeline.PathsAreOriented(msg, d.snr, site, learned, ttl, line.ts);
      Ft8Pipeline.PathsMeet(msg, d.snr, site, learned, ttl, line.ts);
    }
  }

  lemma PairClashesIff(emitted: seq<(Observation, int)>, receiver: Monitor.Receiver, ts: int, indirect: bool,
                       callsigns: bool)
    requires IsPair(emitted)
    ensures var rows := Monitor.RowsOf(emitted, receiver, ts, indirect, callsigns);
            && |rows| <= 2 && (indirect ==> |rows| == 2)
            && (|rows| == 2 ==> rows[0] != rows[1] && (SameKey(rows[0], rows[1]) <==> rows[1].txGrid == rows[1].rxGrid)
                                && rows[1].txGrid == emitted[1].0.txGrid)
  {
    assert emitted == [emitted[0], emitted[1]];
    RowsOfTwo(emitted[0], emitted[1], receiver, ts, indirect, callsigns);
  }

  /** One decode makes at most two rows. They always differ, and they share their key exactly if the
      station reported on and the station reporting have the same cached grid. */
  lemma RowsOfDecodeClashIff(setup: Monitor.Setup, e: Monitor.Event, items: seq<CallsignCache.Item>)
    requires e.Heard?
    ensures var rows := Monitor.RowsNext(setup, e, items);
            && |rows| <= 2
            && (|rows| == 2 ==> rows[0] != rows[1] && (SameKey(rows[0], rows[1]) <==> rows[1].txGrid == rows[1].rxGrid))
  {
    var emitted := Ft8Pipeline.EmittedBy(Monitor.HandledNext(setup, e, items).result);
    HandledPairs(setup, e, items);
    if IsPair(emitted) {
      PairClashesIff(emitted, e.receiver, Monitor.Slot(e.now), setup.indirect, setup.callsigns);
    } else {
      RowsOfFew(emitted, e.receiver, Monitor.Slot(e.now), setup.indirect, setup.callsigns);
    }
  }

  lemma HandledPairs(setup: Monitor.Setup, e: Monitor.Event, items: seq<CallsignCache.Item>)
    requires e.Heard?
    ensures var emitted := Ft8Pipeline.EmittedBy(Monitor.HandledNext(setup, e, items).result);
            |emitted| <= 1 || IsPair(emitted)
  {
    if e.receiver.mode != "wspr" {
      EmittedPairs(setup.site, Monitor.LineOf(e.receiver, e.text, e.now), items, setup.max, setup.ttl);
    }
  }

  /** It happens: whenever two stations with fresh entries of one grid are cached, a receiver can
      hear a report between them whose two rows share their key. */
  lemma ReportInOneGridClashes(site: Ft8Pipeline.Site, items: seq<CallsignCache.Item>, max: nat, ttl: real, freqHz: int,
                               ts: real, i: nat, j: nat, receiver: Monitor.Receiver, callsigns: bool)
    returns (line: Ft8Pipeline.Line)
    requires CallsignCache.Distinct(items) && i < |items| && j < |items|
    requires BlacklistExact.WellFormedItem(items[i]) && BlacklistExact.WellFormedItem(items[j])
    requires items[i].entry.grid == items[j].entry.grid
    requires !CallsignCache.Expired(items[i].entry, ttl, ts) && !CallsignCache.Expired(items[j].entry, ttl, ts)
    requires GridToLatLon(site.grid).Some? && !site.blacklist.ListsFreq(freqHz)
    requires !site.blacklist.ListsCall(Some(items[j].call))
    ensures line.ts == ts && line.dialHz == receiver.freq && line.minSnr == receiver.minSnr
    ensures line.ceiling == receiver.ceiling
    ensures var emitted := Ft8Pipeline.EmittedBy(Ft8Pipeline.Ingest(site, line, items, max, ttl).result);
            var rows := Monitor.RowsOf(emitted, receiver, Monitor.Slot(ts), true, callsigns);
            |rows| == 2 && rows[0] != rows[1] && SameKey(rows[0], rows[1])
  {
    var rx := BlacklistExact.Tuning(receiver.freq, receiver.minSnr, receiver.ceiling);
    var emitted;
    line, emitted := BlacklistExact.ReportYieldsTwo(site, items, max, ttl, rx, freqHz, ts, i, j);
    EmittedPairs(site, line, items, max, ttl);
    PairClashesIff(emitted, receiver, Monitor.Slot(ts), true, callsigns);
  }

  /** One delivery of two such rows to a new open collector loses the second, which is counted as a
      duplicate although nothing was repeated. */
  lemma ClashingRowIsLost(config: Config, m: Address, meta: Telemetry.Meta, now: int,
                          r: Telemetry.Row, r': Telemetry.Row, bl: Blacklist)
    requires config.open && Monitor.GoodRow(r, bl) && Monitor.GoodRow(r', bl) && r != r' && SameKey(r, r')
    requires -50 <= r.snr <= 30 && -50 <= r'.snr <= 30 && ValidTimestamp(r.ts as real, now, config)
    ensures var batch := ToBatch(meta, [r, r']);
            var good := GoodRows(batch.observations, now, config);
            && good == [ToRaw(r), ToRaw(r')]
            && Report(EMPTY, m, batch, config, now) == NOTHING.(accepted := 1, duplicates := 1)
            && Repeats(map[], m, good) == 0 && Collisions(map[], m, good) == 1 && Nulls(good) == 0
            && Ingested(EMPTY, m, batch, config, now).observations == map[KeyOf(m, ToRaw(r)) := ToRaw(r)]
  {
    var o, o' := ToRaw(r), ToRaw(r');
    GoodRowsPassSchema(r, bl);
    GoodRowsPassSchema(r', bl);
    KeysAre(m, r, r');
    ToRawTellsApart(r, r');
    TwoClashing(config, m, o, o', now);
    assert ToBatch(meta, [r, r']).observations == [o, o'];
    RejectsCount([o, o'], now, config);
    InsertedCount(map[], m, [o, o']);
  }

  lemma OneRowIsNew(m: Address, o: Raw)
    requires ValidSchema(o) && Storable(o)
    ensures FirstWith(m, [o], KeyOf(m, o)) == Some(o)
    ensures Repeats(map[], m, [o]) == 0 && Collisions(map[], m, [o]) == 0 && Nulls([o]) == 0
  {
    var one := [o];
    assert one[..0] == [];
    assert FirstWith(m, one[..0], KeyOf(m, o)) == None;
    assert Repeats(map[], m, one[..0]) == 0 && Collisions(map[], m, one[..0]) == 0 && Nulls(one[..0]) == 0;
  }

  lemma TwoClashing(config: Config, m: Address, o: Raw, o': Raw, now: int)
    requires Good(o, now, config) && Good(o', now, config) && Clash(m, o, o')
    ensures GoodRows([o, o'], now, config) == [o, o']
    ensures Inserted(map[], m, [o, o']) == map[KeyOf(m, o) := o]
    ensures Repeats(map[], m, [o, o']) == 0 && Collisions(map[], m, [o, o']) == 1 && Nulls([o, o']) == 0
  {
    assert [o, o'][..1] == [o];
    OneGoodRow(map[], m, o, config, now);
    OneRowIsNew(m, o);
  }
}
