/** The monitor (`monitor/monitor.py`): decode lines go through the pipeline of their mode into the
    batcher, a timer flushes, and each decode is noted for the watchdog. */
module Monitor {
  import opened Text
  import opened Locator
  import opened Observations
  import CallsignCache
  import Ft8Parser
  import opened LineParser
  import opened Ft8Pipeline
  import opened WsprPipeline
  import Telemetry
  import opened Watchdog

  const SLOT_SECONDS := 15

  /** Python's `int(x)`: towards zero. */
  function Truncate(x: real): int {
    if x >= 0.0 then x.Floor else -(-x).Floor
  }

  /** `_slot`: the start of the transmit slot a time falls into. */
  function Slot(now: real): int {
    Truncate(now) / SLOT_SECONDS * SLOT_SECONDS
  }

  lemma SlotContains(now: real)
    ensures Slot(now) % SLOT_SECONDS == 0
    ensures now >= 0.0 ==> Slot(now) as real <= now < (Slot(now) + SLOT_SECONDS) as real
  {
  }

  datatype Receiver = Receiver(name: string, mode: string, band: string, freq: int, minSnr: int, ceiling: seq<Cap>)

  /** A line of text from a receiver as its pipeline reads it. */
  function LineOf(receiver: Receiver, text: string, now: real): Line {
    Line(if receiver.mode == "wspr" then ParseWspr(text) else ParseFt8(text),
         receiver.freq, receiver.minSnr, receiver.ceiling, now)
  }

  /** What the pipeline of the receiver's mode makes of a line; WSPR leaves the cache alone. */
  function Handled(site: Site, receiver: Receiver, line: Line, items: seq<CallsignCache.Item>, max: nat, ttl: real)
    : Step<Outcome>
  {
    if receiver.mode == "wspr" then Step(Wspr(site, line), items) else Ingest(site, line, items, max, ttl)
  }

  /** The rows that the observations of one decode become. */
  function RowsOf(emitted: seq<(Observation, int)>, receiver: Receiver, ts: int, indirect: bool, callsigns: bool)
    : seq<Telemetry.Row>
  {
    if emitted == [] then []
    else
      var n := |emitted| - 1;
      var before, (o, freqHz) := RowsOf(emitted[..n], receiver, ts, indirect, callsigns), emitted[n];
      if o.kind == Indirect && !indirect then before
      else before + [Telemetry.MakeRow(o, ts, freqHz, receiver.band, Upper(receiver.mode), callsigns)]
  }

  /** What handling lines changes outside the cache. */
  datatype Books = Books(obs: seq<Telemetry.Row>, decodesSeen: nat, windowDecodes: map<string, nat>)

  /** The books after one handled line. */
  function Entered(b: Books, outcome: Outcome, receiver: Receiver, ts: int, indirect: bool, callsigns: bool): Books {
    if !outcome.Decoded? then b
    else Books(b.obs + RowsOf(outcome.emitted, receiver, ts, indirect, callsigns),
               b.decodesSeen + 1,
               b.windowDecodes[receiver.name := Get(b.windowDecodes, receiver.name) + 1])
  }

  /** The cache the monitor starts with: what was saved, if the cache is on and a file was read. */
  function Restored(enabled: bool, saved: Option<seq<CallsignCache.Item>>, maxEntries: nat): seq<CallsignCache.Item> {
    if enabled && saved.Some? then CallsignCache.Newest(CallsignCache.AllAssigned([], saved.value), maxEntries) else []
  }

  /** A disabled cache is modelled as one without room: it learns nothing and answers nothing. */
  lemma CacheWithoutRoom(call: string, grid: string, ttl: real, ts: real)
    ensures CallsignCache.Updated([], 0, call, grid, ts) == []
    ensures CallsignCache.Found([], ttl, call, ts) == None && CallsignCache.AfterLookup([], ttl, call, ts) == []
  {
  }

  class Monitor {
    const site: Site
    const meta: Telemetry.Meta
    const indirect: bool
    const sendEmpty: bool
    const cache: CallsignCache.Cache
    const batcher: Telemetry.Batcher
    const queue: Telemetry.PendingQueue
    const guard: Guard
    var windowStart: int

    constructor (site: Site, meta: Telemetry.Meta, indirect: bool, callsigns: bool, sendEmpty: bool,
                 cacheEnabled: bool, saved: Option<seq<CallsignCache.Item>>, maxEntries: nat, ttl: real,
                 maxPending: nat, interval: nat, silentLimit: map<string, int>, now: real)
      ensures this.site == site && this.meta == meta && this.indirect == indirect && this.sendEmpty == sendEmpty
      ensures cache.Valid() && cache.items == Restored(cacheEnabled, saved, maxEntries)
      ensures cache.maxEntries == (if cacheEnabled then maxEntries else 0) && cache.entryTtlSec == ttl
      ensures CurrentLink() == Telemetry.NEW_LINK && batcher.includeCallsigns == callsigns
      ensures queue.maxObservations == maxPending
      ensures guard.windowDecodes == map[] && guard.silentSec == map[] && windowStart == Truncate(now)
      ensures fresh({cache, batcher, queue, guard})
    {
      this.site, this.meta, this.indirect, this.sendEmpty := site, meta, indirect, sendEmpty;
      var c := new CallsignCache.Cache(if cacheEnabled then maxEntries else 0, ttl);
      if cacheEnabled && saved.Some? {
        c.Load(saved.value);
      }
      cache := c;
      batcher := new Telemetry.Batcher(callsigns);
      queue := new Telemetry.PendingQueue(maxPending);
      guard := new Guard(interval, silentLimit);
      windowStart := Truncate(now);
    }

    /** The batcher's rows and counter and the queue. */
    function CurrentLink(): Telemetry.Link
      reads batcher, queue
    {
      Telemetry.Link(batcher.obs, batcher.decodesSeen, queue.items, queue.dropped)
    }

    /** The batcher's rows and counter and the watchdog's counts. */
    function CurrentBooks(): Books
      reads batcher, guard
    {
      Books(batcher.obs, batcher.decodesSeen, guard.windowDecodes)
    }

    /** `handle_line`. When the pipeline raises, nothing after the cache changes: the decode is
        counted neither in the window nor for the watchdog. */
    method HandleLine(receiver: Receiver, text: string, now: real) returns (outcome: Outcome)
      requires cache.Valid()
      modifies cache, batcher, guard`windowDecodes
      ensures cache.Valid()
      ensures Step(outcome, cache.items)
              == Handled(site, receiver, LineOf(receiver, text, now), old(cache.items), cache.maxEntries,
                         cache.entryTtlSec)
      ensures CurrentBooks() == Entered(old(CurrentBooks()), outcome, receiver, Slot(now), indirect,
                                        batcher.includeCallsigns)
    {
      outcome := Dispatch(receiver, LineOf(receiver, text, now));
      Record(outcome, receiver, Slot(now));
    }

    method Dispatch(receiver: Receiver, line: Line) returns (outcome: Outcome)
      requires cache.Valid()
      modifies cache
      ensures cache.Valid()
      ensures Step(outcome, cache.items)
                == Handled(site, receiver, line, old(cache.items), cache.maxEntries, cache.entryTtlSec)
    {
      if receiver.mode == "wspr" {
        outcome := IngestWspr(site, line);
      } else {
        outcome := IngestLine(site, line, cache);
      }
    }

    /** The part of `handle_line` after the pipeline. */
    method Record(outcome: Outcome, receiver: Receiver, ts: int)
      modifies batcher, guard`windowDecodes
      ensures CurrentBooks() == Entered(old(CurrentBooks()), outcome, receiver, ts, indirect, batcher.includeCallsigns)
    {
      if outcome.Decoded? {
        batcher.NoteDecode();
        guard.NoteDecode(receiver.name);
        AddRows(outcome.emitted, receiver, ts);
      }
    }

    method AddRows(emitted: seq<(Observation, int)>, receiver: Receiver, ts: int)
      modifies batcher`obs
      ensures batcher.obs == old(batcher.obs) + RowsOf(emitted, receiver, ts, indirect, batcher.includeCallsigns)
    {
      for i := 0 to |emitted|
        invariant batcher.obs == old(batcher.obs)
                    + RowsOf(emitted[..i], receiver, ts, indirect, batcher.includeCallsigns)
      {
        assert emitted[..i + 1][..i] == emitted[..i];
        var (o, freqHz) := emitted[i];
        if !(o.kind == Indirect && !indirect) {
          batcher.Add(o, ts, freqHz, receiver.band, Upper(receiver.mode));
        }
      }
      assert emitted[..|emitted|] == emitted;
    }

    /** `flush`: one window closes and the next begins; `sent` is the sender's answer. */
    method Flush(sent: bool, now: real) returns (ok: bool, batch: Option<Telemetry.Batch>)
      modifies batcher, queue, this`windowStart
      ensures var before := old(CurrentLink());
              && CurrentLink() == Telemetry.Flushed(before, queue.maxObservations, sendEmpty, sent)
              && ok == (Telemetry.Skips(before, sendEmpty) || sent)
              && batch == if Telemetry.Skips(before, sendEmpty) then None
                          else Some(Telemetry.BuildBatch(meta, old(windowStart), Truncate(now),
                                                         before.queue + before.obs, before.decodesSeen,
                                                         before.dropped, |cache.items|))
      ensures windowStart == Truncate(now)
    {
      ok, batch := Telemetry.FlushWindow(batcher, queue, sent, meta, windowStart, Truncate(now), |cache.items|,
                                         sendEmpty);
      windowStart := Truncate(now);
    }
  }

  // --- whole runs -------------------------------------------------------------

  datatype Event = Heard(receiver: Receiver, text: string, now: real) | Flush(sent: bool, now: real)

  /** What a run starts from and depends on. */
  datatype Setup = Setup(site: Site, start: seq<CallsignCache.Item>, max: nat, ttl: real, indirect: bool,
                         callsigns: bool)

  function EventLines(e: Event): seq<Line> {
    if e.Heard? && e.receiver.mode != "wspr" then [LineOf(e.receiver, e.text, e.now)] else []
  }

  /** The lines of a run that go through the cache. */
  function Ft8Lines(events: seq<Event>): seq<Line> {
    if events == [] then [] else Ft8Lines(events[..|events| - 1]) + EventLines(events[|events| - 1])
  }

  function CacheOf(setup: Setup, events: seq<Event>): seq<CallsignCache.Item> {
    CacheAfter(setup.site, Ft8Lines(events), setup.start, setup.max, setup.ttl)
  }

  function HandledNext(setup: Setup, e: Event, items: seq<CallsignCache.Item>): Step<Outcome>
    requires e.Heard?
  {
    Handled(setup.site, e.receiver, LineOf(e.receiver, e.text, e.now), items, setup.max, setup.ttl)
  }

  function RowsNext(setup: Setup, e: Event, items: seq<CallsignCache.Item>): seq<Telemetry.Row>
    requires e.Heard?
  {
    RowsOf(EmittedBy(HandledNext(setup, e, items).result), e.receiver, Slot(e.now), setup.indirect, setup.callsigns)
  }

  /** What an event amounts to for the telemetry side, given the cache before it. */
  function EventLinks(setup: Setup, e: Event, items: seq<CallsignCache.Item>): seq<Telemetry.Event> {
    if e.Flush? then [Telemetry.Flush(e.sent)]
    else if HandledNext(setup, e, items).result.Decoded?
    then [Telemetry.Decode] + Telemetry.EmitAll(RowsNext(setup, e, items))
    else []
  }

  function LinkEvents(setup: Setup, events: seq<Event>): seq<Telemetry.Event> {
    if events == [] then []
    else
      var n := |events| - 1;
      LinkEvents(setup, events[..n]) + EventLinks(setup, events[n], CacheOf(setup, events[..n]))
  }

  /** The batches handed to the sender carry what the attempts say. */
  ghost predicate AreBatches(batches: seq<Telemetry.Batch>, attempts: seq<Telemetry.Attempt>, meta: Telemetry.Meta) {
    && |batches| == |attempts|
    && forall k :: 0 <= k < |batches| ==> IsBatch(batches[k], attempts[k], meta)
  }

  ghost predicate IsBatch(b: Telemetry.Batch, a: Telemetry.Attempt, meta: Telemetry.Meta) {
    && b.version == Telemetry.TELEMETRY_VERSION && b.monitor == meta && b.observations == a.rows
    && b.stats.decodesSeen == a.decodesSeen && b.stats.obsEmitted == |a.rows| && b.stats.obsDroppedQueue == a.dropped
  }

  /** The cache and the link after one more event. */
  lemma OneMoreEvent(setup: Setup, events: seq<Event>, e: Event)
    ensures LinkEvents(setup, events + [e]) == LinkEvents(setup, events) + EventLinks(setup, e, CacheOf(setup, events))
    ensures CacheOf(setup, events + [e])
            == if e.Heard? then HandledNext(setup, e, CacheOf(setup, events)).items else CacheOf(setup, events)
  {
    var lines, more := Ft8Lines(events), EventLines(e);
    assert (events + [e])[..|events|] == events;
    assert lines + [] == lines;
    if more != [] {
      assert (lines + more)[..|lines|] == lines;
    }
  }

  ghost predicate SetUp(m: Monitor, setup: Setup) {
    && setup.site == m.site && setup.max == m.cache.maxEntries && setup.ttl == m.cache.entryTtlSec
    && setup.indirect == m.indirect && setup.callsigns == m.batcher.includeCallsigns
  }

  /** One event on the object. */
  method Perform(m: Monitor, e: Event, ghost setup: Setup) returns (batch: Option<Telemetry.Batch>)
    requires m.cache.Valid() && SetUp(m, setup)
    modifies m`windowStart, m.cache, m.batcher, m.queue, m.guard`windowDecodes
    ensures m.cache.Valid()
    ensures m.cache.items == if e.Heard? then HandledNext(setup, e, old(m.cache.items)).items else old(m.cache.items)
    ensures m.CurrentLink() == Telemetry.ApplyAll(old(m.CurrentLink()), m.queue.maxObservations, m.sendEmpty,
                                                  EventLinks(setup, e, old(m.cache.items)))
    ensures batch.Some? <==> e.Flush? && !Telemetry.Skips(old(m.CurrentLink()), m.sendEmpty)
    ensures e.Flush? && batch.Some? ==> IsBatch(batch.value, Telemetry.AttemptOf(old(m.CurrentLink()), e.sent), m.meta)
  {
    batch := None;
    ghost var link := m.CurrentLink();
    match e
    case Flush(sent, now) =>
      var ok;
      ok, batch := m.Flush(sent, now);
      Telemetry.ApplyOne(link, m.queue.maxObservations, m.sendEmpty, Telemetry.Flush(sent));
    case Heard(receiver, text, now) =>
      ghost var items := m.cache.items;
      var outcome := m.HandleLine(receiver, text, now);
      if outcome.Decoded? {
        Telemetry.ApplyDecoded(link, m.queue.maxObservations, m.sendEmpty, RowsNext(setup, e, items));
      }
  }

  /** The monitor stands where the run functions say, and has handed over what they say. */
  ghost predicate Follows(setup: Setup, events: seq<Event>, items: seq<CallsignCache.Item>, link: Telemetry.Link,
                          batches: seq<Telemetry.Batch>, meta: Telemetry.Meta, max: nat, sendEmpty: bool)
  {
    && items == CacheOf(setup, events)
    && link == Telemetry.Run(LinkEvents(setup, events), max, sendEmpty)
    && AreBatches(batches, Telemetry.Attempts(LinkEvents(setup, events), max, sendEmpty), meta)
  }

  function Answer(e: Event): Option<bool> {
    if e.Flush? then Some(e.sent) else None
  }

  ghost predicate FlushesOnly(links: seq<Telemetry.Event>, flush: Option<bool>) {
    match flush
    case Some(sent) => links == [Telemetry.Flush(sent)]
    case None => forall i :: 0 <= i < |links| ==> !links[i].Flush?
  }

  lemma EventLinksFlush(setup: Setup, e: Event, items: seq<CallsignCache.Item>)
    ensures FlushesOnly(EventLinks(setup, e, items), Answer(e))
  {
  }

  lemma FollowsNext(setup: Setup, events: seq<Event>, items: seq<CallsignCache.Item>, link: Telemetry.Link,
                    batches: seq<Telemetry.Batch>, meta: Telemetry.Meta, max: nat, sendEmpty: bool, all: seq<Event>,
                    links: seq<Telemetry.Event>, items': seq<CallsignCache.Item>, link': Telemetry.Link,
                    flush: Option<bool>, batch: Option<Telemetry.Batch>)
    requires Follows(setup, events, items, link, batches, meta, max, sendEmpty)
    requires items' == CacheOf(setup, all) && LinkEvents(setup, all) == LinkEvents(setup, events) + links
    requires FlushesOnly(links, flush) && link' == Telemetry.ApplyAll(link, max, sendEmpty, links)
    requires batch.Some? <==> flush.Some? && !Telemetry.Skips(link, sendEmpty)
    requires batch.Some? ==> IsBatch(batch.value, Telemetry.AttemptOf(link, flush.value), meta)
    ensures Follows(setup, all, items', link', if batch.Some? then batches + [batch.value] else batches,
                    meta, max, sendEmpty)
  {
    LinkNext(LinkEvents(setup, events), links, link, link', batches, meta, max, sendEmpty, flush, batch);
  }

  /** The telemetry side of `FollowsNext`. */
  lemma LinkNext(before: seq<Telemetry.Event>, links: seq<Telemetry.Event>, link: Telemetry.Link, link': Telemetry.Link,
                 batches: seq<Telemetry.Batch>, meta: Telemetry.Meta, max: nat, sendEmpty: bool,
                 flush: Option<bool>, batch: Option<Telemetry.Batch>)
    requires FlushesOnly(links, flush)
    requires link == Telemetry.Run(before, max, sendEmpty) && link' == Telemetry.ApplyAll(link, max, sendEmpty, links)
    requires AreBatches(batches, Telemetry.Attempts(before, max, sendEmpty), meta)
    requires batch.Some? <==> flush.Some? && !Telemetry.Skips(link, sendEmpty)
    requires batch.Some? ==> IsBatch(batch.value, Telemetry.AttemptOf(link, flush.value), meta)
    ensures link' == Telemetry.Run(before + links, max, sendEmpty)
    ensures AreBatches(if batch.Some? then batches + [batch.value] else batches,
                       Telemetry.Attempts(before + links, max, sendEmpty), meta)
  {
    Telemetry.RunAppend(before, links, max, sendEmpty);
    AttemptsNext(before, links, max, sendEmpty, flush);
    if batch.Some? {
      BatchesNext(batches, Telemetry.Attempts(before, max, sendEmpty), meta, batch.value,
                  Telemetry.AttemptOf(link, flush.value));
    }
  }

  method Advance(m: Monitor, ghost before: seq<Event>, e: Event, batches: seq<Telemetry.Batch>, ghost setup: Setup)
    returns (batches': seq<Telemetry.Batch>)
    requires m.cache.Valid() && SetUp(m, setup)
    requires Follows(setup, before, m.cache.items, m.CurrentLink(), batches, m.meta, m.queue.maxObservations,
                     m.sendEmpty)
    modifies m`windowStart, m.cache, m.batcher, m.queue, m.guard`windowDecodes
    ensures m.cache.Valid()
    ensures Follows(setup, before + [e], m.cache.items, m.CurrentLink(), batches', m.meta, m.queue.maxObservations,
                    m.sendEmpty)
  {
    ghost var items, link := m.cache.items, m.CurrentLink();
    var batch := Perform(m, e, setup);
    OneMoreEvent(setup, before, e);
    EventLinksFlush(setup, e, items);
    FollowsNext(setup, before, items, link, batches, m.meta, m.queue.maxObservations, m.sendEmpty, before + [e],
                EventLinks(setup, e, items), m.cache.items, m.CurrentLink(), Answer(e), batch);
    batches' := if batch.Some? then batches + [batch.value] else batches;
  }

  /** A whole run on the object: its cache and link are those of the run functions, and the
      batches it hands to the sender are the attempts. */
  method Work(m: Monitor, events: seq<Event>, ghost setup: Setup) returns (batches: seq<Telemetry.Batch>)
    requires m.cache.Valid() && m.CurrentLink() == Telemetry.NEW_LINK
    requires SetUp(m, setup) && setup.start == m.cache.items
    modifies m`windowStart, m.cache, m.batcher, m.queue, m.guard`windowDecodes
    ensures m.cache.Valid()
    ensures Follows(setup, events, m.cache.items, m.CurrentLink(), batches, m.meta, m.queue.maxObservations,
                    m.sendEmpty)
  {
    batches := [];
    for i := 0 to |events|
      invariant m.cache.Valid()
      invariant Follows(setup, events[..i], m.cache.items, m.CurrentLink(), batches, m.meta, m.queue.maxObservations,
                        m.sendEmpty)
    {
      assert events[..i + 1] == events[..i] + [events[i]];
      batches := Advance(m, events[..i], events[i], batches, setup);
    }
    assert events[..|events|] == events;
  }

  lemma AttemptsNext(before: seq<Telemetry.Event>, links: seq<Telemetry.Event>, max: nat, sendEmpty: bool,
                     flush: Option<bool>)
    requires FlushesOnly(links, flush)
    ensures var link := Telemetry.Run(before, max, sendEmpty);
            Telemetry.Attempts(before + links, max, sendEmpty)
            == Telemetry.Attempts(before, max, sendEmpty)
               + if flush.Some? && !Telemetry.Skips(link, sendEmpty)
                 then [Telemetry.AttemptOf(link, flush.value)] else []
  {
    if flush.Some? {
      assert (before + links)[..|before|] == before;
    } else {
      Telemetry.NoAttempts(before, links, max, sendEmpty);
    }
  }

  lemma BatchesNext(batches: seq<Telemetry.Batch>, attempts: seq<Telemetry.Attempt>, meta: Telemetry.Meta,
                    batch: Telemetry.Batch, attempt: Telemetry.Attempt)
    requires AreBatches(batches, attempts, meta) && IsBatch(batch, attempt, meta)
    ensures AreBatches(batches + [batch], attempts + [attempt], meta)
  {
  }

  /** A row the monitor may send: on a slot boundary, at the centres of its locators, and free of
      blacklisted grids and frequencies. */
  ghost predicate GoodRow(row: Telemetry.Row, bl: Blacklist) {
    && row.ts % SLOT_SECONDS == 0
    && GridToLatLon(row.txGrid) == Some((row.txLat, row.txLon))
    && GridToLatLon(row.rxGrid) == Some((row.rxLat, row.rxLon))
    && !bl.ListsGrid(row.txGrid) && !bl.ListsFreq(row.freq) && !bl.ListsCall(row.txCall)
    && (row.kind == Indirect ==> !bl.ListsGrid(row.rxGrid) && !bl.ListsCall(row.rxCall))
  }

  ghost predicate Placed(o: Observation) {
    GridToLatLon(o.txGrid) == Some((o.txLat, o.txLon)) && GridToLatLon(o.rxGrid) == Some((o.rxLat, o.rxLon))
  }

  lemma IngestIsPlaced(site: Site, line: Line, items: seq<CallsignCache.Item>, max: nat, ttl: real)
    ensures forall i :: 0 <= i < |EmittedBy(Ingest(site, line, items, max, ttl).result)| ==>
              Placed(EmittedBy(Ingest(site, line, items, max, ttl).result)[i].0)
  {
    if line.decode.Some? {
      MessageIsPlaced(site, line, line.decode.value, Ft8Parser.Classify(line.decode.value.message), items, max, ttl);
    }
  }

  ghost predicate AllPlaced(obs: Option<seq<Observation>>) {
    obs.Some? ==> forall i :: 0 <= i < |obs.value| ==> Placed(obs.value[i])
  }

  lemma DirectIsPlaced(msg: Ft8Parser.Message, snr: int, site: Site, items: seq<CallsignCache.Item>, ttl: real,
                       ts: real)
    ensures AllPlaced(ExtractDirect(msg, snr, site, items, ttl, ts).result)
  {
  }

  lemma IndirectIsPlaced(msg: Ft8Parser.Message, items: seq<CallsignCache.Item>, ttl: real, ts: real)
    ensures AllPlaced(ExtractIndirect(msg, items, ttl, ts).result)
  {
  }

  lemma ExtractIsPlaced(msg: Ft8Parser.Message, snr: int, site: Site, items: seq<CallsignCache.Item>, ttl: real,
                        ts: real)
    ensures AllPlaced(Extract(msg, snr, site, items, ttl, ts).result)
  {
    DirectIsPlaced(msg, snr, site, items, ttl, ts);
    IndirectIsPlaced(msg, ExtractDirect(msg, snr, site, items, ttl, ts).items, ttl, ts);
  }

  lemma MessageIsPlaced(site: Site, line: Line, d: Decode, msg: Ft8Parser.Message, items: seq<CallsignCache.Item>,
                        max: nat, ttl: real)
    ensures var emitted := EmittedBy(IngestMessage(site, line, d, msg, items, max, ttl).result);
            forall i :: 0 <= i < |emitted| ==> Placed(emitted[i].0)
  {
    if Screen(site, line, d, msg) == Some(false) {
      ExtractIsPlaced(msg, d.snr, site, AfterLearn(msg, items, max, line.ts), ttl, line.ts);
    }
  }

  lemma RowsAreGood(emitted: seq<(Observation, int)>, receiver: Receiver, ts: int, indirect: bool, callsigns: bool,
                    bl: Blacklist)
    requires ts % SLOT_SECONDS == 0 && AllClean(emitted, bl)
    requires forall i :: 0 <= i < |emitted| ==> Placed(emitted[i].0)
    ensures forall i :: 0 <= i < |RowsOf(emitted, receiver, ts, indirect, callsigns)| ==>
              GoodRow(RowsOf(emitted, receiver, ts, indirect, callsigns)[i], bl)
  {
    if emitted != [] {
      var n := |emitted| - 1;
      RowsAreGood(emitted[..n], receiver, ts, indirect, callsigns, bl);
      assert CleanObservation(emitted[n].0, emitted[n].1, bl) && Placed(emitted[n].0);
    }
  }

  lemma WsprIsPlaced(site: Site, line: Line)
    ensures forall i :: 0 <= i < |EmittedBy(Wspr(site, line))| ==> Placed(EmittedBy(Wspr(site, line))[i].0)
  {
  }

  ghost predicate AllGood(rows: seq<Telemetry.Row>, bl: Blacklist) {
    forall i :: 0 <= i < |rows| ==> GoodRow(rows[i], bl)
  }

  /** The run starts no earlier than `t0`. */
  ghost predicate HeardFrom(events: seq<Event>, t0: real) {
    forall i :: 0 <= i < |events| && events[i].Heard? ==> events[i].now >= t0
  }

  lemma Ft8LinesFrom(events: seq<Event>, t0: real)
    requires HeardFrom(events, t0)
    ensures NotBefore(Ft8Lines(events), t0)
  {
    if events != [] {
      Ft8LinesFrom(events[..|events| - 1], t0);
    }
  }

  /** The rows of one heard line are good. */
  lemma NextRowsAreGood(setup: Setup, e: Event, items: seq<CallsignCache.Item>, t0: real)
    requires e.Heard? && e.now >= t0 && CleanFrom(items, setup.site.blacklist, setup.ttl, t0, setup.max)
    ensures AllGood(RowsNext(setup, e, items), setup.site.blacklist)
  {
    var line := LineOf(e.receiver, e.text, e.now);
    if e.receiver.mode == "wspr" {
      WsprIsClean(setup.site, line);
      WsprIsPlaced(setup.site, line);
    } else {
      IngestIsClean(setup.site, line, items, setup.max, setup.ttl, t0);
      IngestIsPlaced(setup.site, line, items, setup.max, setup.ttl);
    }
    SlotContains(e.now);
    RowsAreGood(EmittedBy(HandledNext(setup, e, items).result), e.receiver, Slot(e.now),
                setup.indirect, setup.callsigns, setup.site.blacklist);
  }

  lemma {:induction false} EmittedRowsAreGood(setup: Setup, events: seq<Event>, t0: real)
    requires CleanFrom(setup.start, setup.site.blacklist, setup.ttl, t0, setup.max) && HeardFrom(events, t0)
    ensures AllGood(Telemetry.EmittedRows(LinkEvents(setup, events)), setup.site.blacklist)
  {
    if events != [] {
      var n := |events| - 1;
      var e, before, items := events[n], events[..n], CacheOf(setup, events[..n]);
      EmittedRowsAreGood(setup, before, t0);
      Ft8LinesFrom(before, t0);
      NothingBlacklisted(setup.site, Ft8Lines(before), setup.start, setup.max, setup.ttl, t0);
      Telemetry.EmittedByEvents(LinkEvents(setup, before), EventLinks(setup, e, items));
      if e.Heard? {
        NextRowsAreGood(setup, e, items, t0);
        Telemetry.EmittedByDecode(RowsNext(setup, e, items));
      }
    }
  }

  lemma SegmentIsGood(rows: seq<Telemetry.Row>, emitted: seq<Telemetry.Row>, bl: Blacklist)
    requires Telemetry.IsSegment(rows, emitted) && AllGood(emitted, bl)
    ensures AllGood(rows, bl)
  {
    var from, to :| 0 <= from <= to <= |emitted| && emitted[from..to] == rows;
    assert forall i :: 0 <= i < |rows| ==> rows[i] == emitted[from + i];
  }

  /** From a cache that is harmless from the first line on: whatever is heard and however sends go,
      every row of every batch handed to the sender is a good row. */
  lemma SentRowsAreGood(setup: Setup, events: seq<Event>, t0: real, maxPending: nat, sendEmpty: bool, k: nat)
    requires CleanFrom(setup.start, setup.site.blacklist, setup.ttl, t0, setup.max) && HeardFrom(events, t0)
    requires k < |Telemetry.Attempts(LinkEvents(setup, events), maxPending, sendEmpty)|
    ensures AllGood(Telemetry.Attempts(LinkEvents(setup, events), maxPending, sendEmpty)[k].rows, setup.site.blacklist)
  {
    var links := LinkEvents(setup, events);
    EmittedRowsAreGood(setup, events, t0);
    Telemetry.AttemptsAreEmitted(links, maxPending, sendEmpty);
    var emitted, rows := Telemetry.EmittedRows(links), Telemetry.Attempts(links, maxPending, sendEmpty)[k].rows;
    SegmentIsGood(rows, emitted, setup.site.blacklist);
  }
}
