/** From one decode to observations (`monitor/ft8_pipeline.py` and `extract` in
    `monitor/ft8_parser.py`): filter, learn, then extract with grids from the cache. */
module Ft8Pipeline {
  import opened Text
  import opened Locator
  import opened CallsignCache
  import opened Ft8Parser
  import opened Observations

  /** A parsed decode line; the audio frequency is already rounded to Hz. */
  datatype Decode = Decode(snr: int, freq: int, message: string)

  /** What is fixed for a monitor: its place, the blacklist and the distance between points. */
  datatype Site = Site(grid: string, call: Option<string>, blacklist: Blacklist, distanceKm: (Point, Point) -> real)

  /** One line from one receiver; None stands for a line that is not a decode. */
  datatype Line = Line(decode: Option<Decode>, dialHz: int, minSnr: int, ceiling: seq<Cap>, ts: real)

  /** How handling a line ends; Raised stands for the ValueError of a bad locator. */
  datatype Outcome = NotADecode | Decoded(emitted: seq<(Observation, int)>) | Raised

  /** The dictionary threaded through a computation, and its result. */
  datatype Step<T> = Step(result: T, items: seq<Item>)

  function AfterLearn(msg: Message, items: seq<Item>, max: nat, ts: real): seq<Item> {
    if msg.grid.Some? && msg.callDe.Some? && !msg.deHashed
    then Updated(items, max, msg.callDe.value, msg.grid.value, ts)
    else items
  }

  /** The direct path: the message's grid, or the cached one. */
  function ExtractDirect(msg: Message, snr: int, site: Site, items: seq<Item>, ttl: real, ts: real)
    : Step<Option<seq<Observation>>>
  {
    if msg.callDe.None? || msg.deHashed then Step(Some([]), items)
    else
      var call := msg.callDe.value;
      var grid := if msg.grid.Some? then msg.grid else Found(items, ttl, call, ts);
      var items' := if msg.grid.Some? then items else AfterLookup(items, ttl, call, ts);
      if grid.None? then Step(Some([]), items')
      else
        var o := MakeObservation(Direct, msg.callDe, grid.value, site.call, site.grid, snr);
        Step(if o.Some? then Some([o.value]) else None, items')
  }

  predicate CarriesReport(msg: Message) {
    && msg.kind in {STANDARD, NONSTD}
    && msg.reportDb.Some?
    && msg.callTo.Some? && !msg.toHashed
    && msg.callDe.Some? && !msg.deHashed
  }

  /** The indirect path of a report: both grids from the cache. */
  function ExtractIndirect(msg: Message, items: seq<Item>, ttl: real, ts: real): Step<Option<seq<Observation>>> {
    if !CarriesReport(msg) then Step(Some([]), items)
    else
      var a := Found(items, ttl, msg.callTo.value, ts);
      var items1 := AfterLookup(items, ttl, msg.callTo.value, ts);
      var b := Found(items1, ttl, msg.callDe.value, ts);
      var items2 := AfterLookup(items1, ttl, msg.callDe.value, ts);
      if a.None? || b.None? then Step(Some([]), items2)
      else
        var o := MakeObservation(Indirect, msg.callTo, a.value, msg.callDe, b.value, msg.reportDb.value);
        Step(if o.Some? then Some([o.value]) else None, items2)
  }

  function Extract(msg: Message, snr: int, site: Site, items: seq<Item>, ttl: real, ts: real)
    : Step<Option<seq<Observation>>>
  {
    var direct := ExtractDirect(msg, snr, site, items, ttl, ts);
    if direct.result.None? then direct
    else
      var indirect := ExtractIndirect(msg, direct.items, ttl, ts);
      if indirect.result.None? then indirect
      else Step(Some(direct.result.value + indirect.result.value), indirect.items)
  }

  function Process(msg: Message, snr: int, site: Site, items: seq<Item>, max: nat, ttl: real, ts: real)
    : Step<Option<seq<Observation>>>
  {
    Extract(msg, snr, site, AfterLearn(msg, items, max, ts), ttl, ts)
  }

  function Tagged(obs: seq<Observation>, freqHz: int): (r: seq<(Observation, int)>)
    ensures |r| == |obs| && forall i :: 0 <= i < |r| ==> r[i] == (obs[i], freqHz)
  {
    seq(|obs|, i requires 0 <= i < |obs| => (obs[i], freqHz))
  }

  /** The plausibility test of `ingest`; None if a locator is bad. */
  function TooStrong(grid: Option<string>, snr: int, site: Site, ceiling: seq<Cap>): Option<bool> {
    if ceiling == [] || grid.None? then Some(false)
    else
      var m, t := GridToLatLon(site.grid), GridToLatLon(grid.value);
      if m.None? || t.None? then None
      else Some(SnrExceedsCeiling(ceiling, site.distanceKm(m.value, t.value), snr))
  }

  /** The filters of `ingest`, in its order; None if one raises, otherwise whether the decode is
      dropped. */
  function Screen(site: Site, line: Line, d: Decode, msg: Message): Option<bool> {
    if d.snr < line.minSnr || site.blacklist.Blocks(msg.grid, msg.callDe, line.dialHz + d.freq) then Some(true)
    else TooStrong(msg.grid, d.snr, site, line.ceiling)
  }

  function Concluded(step: Step<Option<seq<Observation>>>, freqHz: int): Step<Outcome> {
    Step(if step.result.None? then Raised else Decoded(Tagged(step.result.value, freqHz)), step.items)
  }

  /** `ingest` after the filters: a dropped decode is not learned from. */
  function IngestScreened(dropped: Option<bool>, site: Site, line: Line, d: Decode, msg: Message,
                          items: seq<Item>, max: nat, ttl: real): Step<Outcome>
  {
    if dropped.None? then Step(Raised, items)
    else if dropped.value then Step(Decoded([]), items)
    else Concluded(Process(msg, d.snr, site, items, max, ttl, line.ts), line.dialHz + d.freq)
  }

  /** `ingest` for a decode that has been classified as `msg`: filter first, then learn. */
  function IngestMessage(site: Site, line: Line, d: Decode, msg: Message, items: seq<Item>, max: nat, ttl: real)
    : Step<Outcome>
  {
    IngestScreened(Screen(site, line, d, msg), site, line, d, msg, items, max, ttl)
  }

  function Ingest(site: Site, line: Line, items: seq<Item>, max: nat, ttl: real): Step<Outcome> {
    if line.decode.None? then Step(NotADecode, items)
    else IngestMessage(site, line, line.decode.value, Classify(line.decode.value.message), items, max, ttl)
  }

  // --- the same on the cache object -------------------------------------------

  method Learn(msg: Message, cache: Cache, ts: real)
    requires cache.Valid()
    modifies cache
    ensures cache.Valid() && cache.items == AfterLearn(msg, old(cache.items), cache.maxEntries, ts)
  {
    if msg.grid.Some? && msg.callDe.Some? && !msg.deHashed {
      cache.Update(msg.callDe.value, msg.grid.value, ts);
    }
  }

  method DirectFrom(msg: Message, snr: int, site: Site, cache: Cache, ts: real)
    returns (out: Option<seq<Observation>>)
    requires cache.Valid()
    modifies cache
    ensures cache.Valid()
    ensures Step(out, cache.items) == ExtractDirect(msg, snr, site, old(cache.items), cache.entryTtlSec, ts)
  {
    if msg.callDe.None? || msg.deHashed {
      return Some([]);
    }
    var grid := msg.grid;
    if grid.None? {
      grid := cache.Lookup(msg.callDe.value, ts);
    }
    if grid.None? {
      return Some([]);
    }
    var o := MakeObservation(Direct, msg.callDe, grid.value, site.call, site.grid, snr);
    return if o.Some? then Some([o.value]) else None;
  }

  method IndirectFrom(msg: Message, cache: Cache, ts: real) returns (out: Option<seq<Observation>>)
    requires cache.Valid()
    modifies cache
    ensures cache.Valid()
    ensures Step(out, cache.items) == ExtractIndirect(msg, old(cache.items), cache.entryTtlSec, ts)
  {
    if !CarriesReport(msg) {
      return Some([]);
    }
    var a := cache.Lookup(msg.callTo.value, ts);
    var b := cache.Lookup(msg.callDe.value, ts);
    if a.None? || b.None? {
      return Some([]);
    }
    var o := MakeObservation(Indirect, msg.callTo, a.value, msg.callDe, b.value, msg.reportDb.value);
    return if o.Some? then Some([o.value]) else None;
  }

  method ExtractFrom(msg: Message, snr: int, site: Site, cache: Cache, ts: real)
    returns (out: Option<seq<Observation>>)
    requires cache.Valid()
    modifies cache
    ensures cache.Valid()
    ensures Step(out, cache.items) == Extract(msg, snr, site, old(cache.items), cache.entryTtlSec, ts)
  {
    var direct := DirectFrom(msg, snr, site, cache, ts);
    if direct.None? {
      return None;
    }
    var indirect := IndirectFrom(msg, cache, ts);
    if indirect.None? {
      return None;
    }
    return Some(direct.value + indirect.value);
  }

  method ProcessDecode(msg: Message, snr: int, site: Site, cache: Cache, ts: real)
    returns (out: Option<seq<Observation>>)
    requires cache.Valid()
    modifies cache
    ensures cache.Valid()
    ensures Step(out, cache.items) == Process(msg, snr, site, old(cache.items), cache.maxEntries, cache.entryTtlSec, ts)
  {
    Learn(msg, cache, ts);
    out := ExtractFrom(msg, snr, site, cache, ts);
  }

  method IngestLine(site: Site, line: Line, cache: Cache) returns (outcome: Outcome)
    requires cache.Valid()
    modifies cache
    ensures cache.Valid()
    ensures Step(outcome, cache.items) == Ingest(site, line, old(cache.items), cache.maxEntries, cache.entryTtlSec)
  {
    if line.decode.None? {
      return NotADecode;
    }
    outcome := IngestClassified(site, line, line.decode.value, Classify(line.decode.value.message), cache);
  }

  method ScreenDecode(site: Site, line: Line, d: Decode, msg: Message) returns (dropped: Option<bool>)
    ensures dropped == Screen(site, line, d, msg)
  {
    if d.snr < line.minSnr {
      return Some(true);
    }
    if site.blacklist.Blocks(msg.grid, msg.callDe, line.dialHz + d.freq) {
      return Some(true);
    }
    dropped := CheckStrength(msg.grid, d.snr, site, line.ceiling);
  }

  method IngestClassified(site: Site, line: Line, d: Decode, msg: Message, cache: Cache) returns (outcome: Outcome)
    requires cache.Valid()
    modifies cache
    ensures cache.Valid()
    ensures Step(outcome, cache.items)
              == IngestMessage(site, line, d, msg, old(cache.items), cache.maxEntries, cache.entryTtlSec)
  {
    var dropped := ScreenDecode(site, line, d, msg);
    outcome := IngestRest(dropped, site, line, d, msg, cache);
  }

  method IngestRest(dropped: Option<bool>, site: Site, line: Line, d: Decode, msg: Message, cache: Cache)
    returns (outcome: Outcome)
    requires cache.Valid()
    modifies cache
    ensures cache.Valid()
    ensures Step(outcome, cache.items)
            == IngestScreened(dropped, site, line, d, msg, old(cache.items), cache.maxEntries, cache.entryTtlSec)
  {
    if dropped == Some(false) {
      outcome := ProcessAndTag(msg, d.snr, site, cache, line.ts, line.dialHz + d.freq);
    } else {
      outcome := if dropped.None? then Raised else Decoded([]);
    }
  }

  method ProcessAndTag(msg: Message, snr: int, site: Site, cache: Cache, ts: real, freqHz: int)
    returns (outcome: Outcome)
    requires cache.Valid()
    modifies cache
    ensures cache.Valid()
    ensures Step(outcome, cache.items)
            == Concluded(Process(msg, snr, site, old(cache.items), cache.maxEntries, cache.entryTtlSec, ts), freqHz)
  {
    var obs := ProcessDecode(msg, snr, site, cache, ts);
    outcome := if obs.None? then Raised else Decoded(Tagged(obs.value, freqHz));
  }

  method CheckStrength(grid: Option<string>, snr: int, site: Site, ceiling: seq<Cap>) returns (strong: Option<bool>)
    ensures strong == TooStrong(grid, snr, site, ceiling)
  {
    if ceiling == [] || grid.None? {
      return Some(false);
    }
    var m, t := GridToLatLon(site.grid), GridToLatLon(grid.value);
    if m.None? || t.None? {
      return None;
    }
    var exceeds := ExceedsCeiling(ceiling, site.distanceKm(m.value, t.value), snr);
    return Some(exceeds);
  }

  // --- what is filtered -------------------------------------------------------

  lemma TooStrongExactly(grid: Option<string>, snr: int, site: Site, caps: seq<Cap>)
    requires grid.Some? ==> GridToLatLon(grid.value).Some?
    ensures var monitor, strong := GridToLatLon(site.grid), TooStrong(grid, snr, site, SortedCeiling(caps));
            && (strong.None? <==> caps != [] && grid.Some? && monitor.None?)
            && (strong == Some(true) <==>
                  monitor.Some? && grid.Some?
                  && Exceeds(caps, site.distanceKm(monitor.value, GridToLatLon(grid.value).value), snr))
  {
    CeilingSorts(caps);
    assert caps != [] ==> caps[0] in SortedCeiling(caps);
    if grid.Some? && GridToLatLon(site.grid).Some? {
      var monitor, station := GridToLatLon(site.grid).value, GridToLatLon(grid.value).value;
      ConfiguredCeilingMeaning(caps, site.distanceKm(monitor, station), snr);
    }
  }

  lemma ClassifiedGridIsValid(message: string)
    ensures var msg := Classify(message); msg.grid.Some? ==> GridToLatLon(msg.grid.value).Some?
  {
    ClassifiedShape(message);
    var msg := Classify(message);
    if msg.grid.Some? {
      LocatorIsNormal(msg.grid.value);
    }
  }

  /** In terms of the configuration: a decode is dropped exactly if it is too weak, comes from a
      listed transmitter or frequency, or names a grid whose distance it is too strong for. The
      filter raises exactly if it gets as far as the distance and the monitor has a bad grid. */
  lemma ScreenExactly(site: Site, line: Line, d: Decode, msg: Message, caps: seq<Cap>,
                      grids: seq<string>, calls: seq<string>, freqs: seq<string>)
    requires msg == Classify(d.message)
    requires line.ceiling == SortedCeiling(caps) && BlocksListed(site.blacklist, grids, calls, freqs)
    ensures msg.grid.Some? ==> GridToLatLon(msg.grid.value).Some?
    ensures var monitor := GridToLatLon(site.grid);
            var weak := d.snr < line.minSnr;
            var listed := Listed(grids, calls, freqs, msg.grid, msg.callDe, line.dialHz + d.freq);
            && (Screen(site, line, d, msg).None? <==>
                  !weak && !listed && caps != [] && msg.grid.Some? && monitor.None?)
            && (Screen(site, line, d, msg) == Some(true) <==>
                  || weak || listed
                  || (monitor.Some? && msg.grid.Some?
                      && Exceeds(caps, site.distanceKm(monitor.value, GridToLatLon(msg.grid.value).value), d.snr)))
  {
    ClassifiedGridIsValid(d.message);
    ScreenOf(site, line, d, msg, caps, grids, calls, freqs);
    TooStrongExactly(msg.grid, d.snr, site, caps);
  }

  lemma ScreenOf(site: Site, line: Line, d: Decode, msg: Message, caps: seq<Cap>,
                 grids: seq<string>, calls: seq<string>, freqs: seq<string>)
    requires line.ceiling == SortedCeiling(caps) && BlocksListed(site.blacklist, grids, calls, freqs)
    ensures Screen(site, line, d, msg)
            == if d.snr < line.minSnr || Listed(grids, calls, freqs, msg.grid, msg.callDe, line.dialHz + d.freq)
               then Some(true) else TooStrong(msg.grid, d.snr, site, SortedCeiling(caps))
  {
    assert site.blacklist.Blocks(msg.grid, msg.callDe, line.dialHz + d.freq)
      == Listed(grids, calls, freqs, msg.grid, msg.callDe, line.dialHz + d.freq);
  }

  // --- whose path is it -------------------------------------------------------

  /** A direct path ends at this monitor and carries the decode's SNR; a reported path runs from
      the station addressed to the station reporting and carries the report. */
  ghost predicate Oriented(o: Observation, msg: Message, snr: int, site: Site) {
    match o.kind
    case Direct =>
      && o.txCall == msg.callDe && (msg.grid.Some? ==> o.txGrid == msg.grid.value)
      && o.rxCall == site.call && o.rxGrid == site.grid && o.snrDb == snr
    case Indirect =>
      && CarriesReport(msg) && o.txCall == msg.callTo && o.rxCall == msg.callDe && Some(o.snrDb) == msg.reportDb
  }

  ghost predicate AtMostOne(obs: Option<seq<Observation>>, kind: PathKind, msg: Message, snr: int, site: Site) {
    obs.Some? ==> |obs.value| <= 1 && forall i :: 0 <= i < |obs.value| ==>
      obs.value[i].kind == kind && Oriented(obs.value[i], msg, snr, site)
  }

  lemma DirectIsOriented(msg: Message, snr: int, site: Site, items: seq<Item>, ttl: real, ts: real)
    ensures AtMostOne(ExtractDirect(msg, snr, site, items, ttl, ts).result, Direct, msg, snr, site)
  {
  }

  lemma IndirectIsOriented(msg: Message, snr: int, site: Site, items: seq<Item>, ttl: real, ts: real)
    ensures AtMostOne(ExtractIndirect(msg, items, ttl, ts).result, Indirect, msg, snr, site)
  {
  }

  /** A message yields at most one path of each kind, the direct one first, all oriented. */
  lemma PathsAreOriented(msg: Message, snr: int, site: Site, items: seq<Item>, ttl: real, ts: real)
    ensures var obs := Extract(msg, snr, site, items, ttl, ts).result;
            obs.Some? ==>
              && |obs.value| <= 2
              && (forall i :: 0 <= i < |obs.value| ==> Oriented(obs.value[i], msg, snr, site))
              && (|obs.value| == 2 ==> obs.value[0].kind == Direct && obs.value[1].kind == Indirect)
  {
    DirectIsOriented(msg, snr, site, items, ttl, ts);
    IndirectIsOriented(msg, snr, site, ExtractDirect(msg, snr, site, items, ttl, ts).items, ttl, ts);
  }

  /** The two paths of a report meet in the station reporting: the direct one starts where the
      reported one ends, at its cached grid. */
  lemma PathsMeet(msg: Message, snr: int, site: Site, items: seq<Item>, ttl: real, ts: real)
    requires msg.grid.Some? ==> msg.reportDb.None?
    ensures var obs := Extract(msg, snr, site, items, ttl, ts).result;
            obs.Some? && |obs.value| == 2 ==> obs.value[0].txGrid == obs.value[1].rxGrid
  {
    DirectIsOriented(msg, snr, site, items, ttl, ts);
    var direct := ExtractDirect(msg, snr, site, items, ttl, ts);
    IndirectIsOriented(msg, snr, site, direct.items, ttl, ts);
    if CarriesReport(msg) {
      FoundAgain(items, ttl, msg.callDe.value, msg.callTo.value, ts);
    }
  }

  /** An answered lookup leaves the dictionary alone. */
  lemma FoundAgain(items: seq<Item>, ttl: real, call: string, other: string, ts: real)
    ensures Found(items, ttl, call, ts).Some? ==> AfterLookup(items, ttl, call, ts) == items
    ensures Found(items, ttl, other, ts).Some? ==> AfterLookup(items, ttl, other, ts) == items
  {
  }

  // --- runs -------------------------------------------------------------------

  /** The dictionary after a run of lines. */
  function CacheAfter(site: Site, lines: seq<Line>, start: seq<Item>, max: nat, ttl: real): seq<Item> {
    if lines == [] then start
    else
      var n := |lines| - 1;
      Ingest(site, lines[n], CacheAfter(site, lines[..n], start, max, ttl), max, ttl).items
  }

  function EmittedBy(outcome: Outcome): seq<(Observation, int)> {
    if outcome.Decoded? then outcome.emitted else []
  }

  /** Everything a run of lines emits, in order. */
  function Emitted(site: Site, lines: seq<Line>, start: seq<Item>, max: nat, ttl: real): seq<(Observation, int)> {
    if lines == [] then []
    else
      var n := |lines| - 1;
      var items := CacheAfter(site, lines[..n], start, max, ttl);
      Emitted(site, lines[..n], start, max, ttl) + EmittedBy(Ingest(site, lines[n], items, max, ttl).result)
  }

  // --- blacklist over runs ----------------------------------------------------

  /** An entry that will not bring out anything blacklisted from time `t0` on: it has expired by
      then, or neither its callsign nor its grid is blacklisted, or there is no room for a second
      entry and its callsign is blacklisted, so that no decode of its station gets through. */
  predicate Harmless(item: Item, bl: Blacklist, ttl: real, t0: real, max: nat) {
    || Expired(item.entry, ttl, t0)
    || (!bl.ListsGrid(item.entry.grid) && !bl.ListsCall(Some(item.call)))
    || (max < 2 && bl.ListsCall(Some(item.call)))
  }

  ghost predicate CleanFrom(items: seq<Item>, bl: Blacklist, ttl: real, t0: real, max: nat) {
    && (max < 2 ==> |items| <= 1)
    && (forall i :: 0 <= i < |items| ==> Harmless(items[i], bl, ttl, t0, max))
  }

  ghost predicate NotBefore(lines: seq<Line>, t0: real) {
    forall i :: 0 <= i < |lines| ==> lines[i].ts >= t0
  }

  ghost predicate CleanObservation(o: Observation, freqHz: int, bl: Blacklist) {
    && !bl.ListsGrid(o.txGrid) && !bl.ListsCall(o.txCall) && !bl.ListsFreq(freqHz)
    && (o.kind == Indirect ==> !bl.ListsGrid(o.rxGrid) && !bl.ListsCall(o.rxCall))
  }

  ghost predicate AllClean(emitted: seq<(Observation, int)>, bl: Blacklist) {
    forall i :: 0 <= i < |emitted| ==> CleanObservation(emitted[i].0, emitted[i].1, bl)
  }

  lemma LookupStaysClean(items: seq<Item>, max: nat, ttl: real, call: string, ts: real, bl: Blacklist, t0: real)
    requires CleanFrom(items, bl, ttl, t0, max) && ts >= t0
    ensures CleanFrom(AfterLookup(items, ttl, call, ts), bl, ttl, t0, max)
    ensures Found(items, ttl, call, ts).Some? ==>
              || (!bl.ListsGrid(Found(items, ttl, call, ts).value) && !bl.ListsCall(Some(call)))
              || (max < 2 && bl.ListsCall(Some(call)))
  {
  }

  /** With no room for a second entry, two callsigns found are one. */
  lemma FoundTogether(items: seq<Item>, ttl: real, call: string, other: string, ts: real)
    requires |items| <= 1
    requires Found(items, ttl, call, ts).Some? && Found(AfterLookup(items, ttl, call, ts), ttl, other, ts).Some?
    ensures call == other
  {
  }

  lemma LearnedIsClean(items: seq<Item>, max: nat, item: Item, bl: Blacklist, ttl: real, t0: real)
    requires CleanFrom(items, bl, ttl, t0, max) && !bl.ListsGrid(item.entry.grid) && !bl.ListsCall(Some(item.call))
    ensures CleanFrom(Newest(Without(items, item.call) + [item], max), bl, ttl, t0, max)
  {
    var all := Without(items, item.call) + [item];
    assert forall i :: 0 <= i < |all| ==> Harmless(all[i], bl, ttl, t0, max);
    NewestIsClean(all, max, bl, ttl, t0);
  }

  lemma NewestIsClean(items: seq<Item>, max: nat, bl: Blacklist, ttl: real, t0: real)
    requires forall i :: 0 <= i < |items| ==> Harmless(items[i], bl, ttl, t0, max)
    ensures CleanFrom(Newest(items, max), bl, ttl, t0, max)
  {
  }

  lemma LearnStaysClean(msg: Message, items: seq<Item>, max: nat, ts: real, bl: Blacklist, freqHz: int,
                        ttl: real, t0: real)
    requires CleanFrom(items, bl, ttl, t0, max) && !bl.Blocks(msg.grid, msg.callDe, freqHz)
    requires msg.grid.Some? ==> msg.grid.value != ""
    ensures CleanFrom(AfterLearn(msg, items, max, ts), bl, ttl, t0, max)
  {
    if msg.grid.Some? && msg.callDe.Some? && GridToLatLon(msg.grid.value).Some? {
      var call, grid := msg.callDe.value, msg.grid.value;
      var learned := Learned(items, call, grid, GridToLatLon(grid).value, ts);
      LearnedIsClean(items, max, learned[|learned| - 1], bl, ttl, t0);
    }
  }

  /** The parts of a step's outcome, all clean. */
  ghost predicate CleanStep(s: Step<Option<seq<Observation>>>, freqHz: int, bl: Blacklist,
                            ttl: real, t0: real, max: nat)
  {
    && CleanFrom(s.items, bl, ttl, t0, max)
    && (s.result.Some? ==> forall i :: 0 <= i < |s.result.value| ==> CleanObservation(s.result.value[i], freqHz, bl))
  }

  lemma DirectIsClean(msg: Message, snr: int, site: Site, items: seq<Item>, max: nat, ttl: real, ts: real, freqHz: int,
                      t0: real)
    requires CleanFrom(items, site.blacklist, ttl, t0, max) && ts >= t0
    requires !site.blacklist.Blocks(msg.grid, msg.callDe, freqHz)
    requires msg.grid.Some? ==> msg.grid.value != ""
    ensures CleanStep(ExtractDirect(msg, snr, site, items, ttl, ts), freqHz, site.blacklist, ttl, t0, max)
  {
    if msg.callDe.Some? {
      LookupStaysClean(items, max, ttl, msg.callDe.value, ts, site.blacklist, t0);
    }
  }

  lemma IndirectIsClean(msg: Message, items: seq<Item>, max: nat, ttl: real, ts: real, freqHz: int, bl: Blacklist,
                        t0: real)
    requires CleanFrom(items, bl, ttl, t0, max) && ts >= t0 && !bl.ListsFreq(freqHz) && !bl.ListsCall(msg.callDe)
    ensures CleanStep(ExtractIndirect(msg, items, ttl, ts), freqHz, bl, ttl, t0, max)
  {
    if CarriesReport(msg) {
      var to, de := msg.callTo.value, msg.callDe.value;
      var items1 := AfterLookup(items, ttl, to, ts);
      LookupStaysClean(items, max, ttl, to, ts, bl, t0);
      LookupStaysClean(items1, max, ttl, de, ts, bl, t0);
      if max < 2 && Found(items, ttl, to, ts).Some? && Found(items1, ttl, de, ts).Some? {
        FoundTogether(items, ttl, to, de, ts);
      }
    }
  }

  lemma ProcessIsClean(msg: Message, snr: int, site: Site, items: seq<Item>, max: nat, ttl: real, ts: real, freqHz: int,
                       t0: real)
    requires CleanFrom(items, site.blacklist, ttl, t0, max) && ts >= t0
    requires !site.blacklist.Blocks(msg.grid, msg.callDe, freqHz)
    requires msg.grid.Some? ==> msg.grid.value != ""
    ensures CleanStep(Process(msg, snr, site, items, max, ttl, ts), freqHz, site.blacklist, ttl, t0, max)
  {
    var learned := AfterLearn(msg, items, max, ts);
    LearnStaysClean(msg, items, max, ts, site.blacklist, freqHz, ttl, t0);
    DirectIsClean(msg, snr, site, learned, max, ttl, ts, freqHz, t0);
    var direct := ExtractDirect(msg, snr, site, learned, ttl, ts);
    IndirectIsClean(msg, direct.items, max, ttl, ts, freqHz, site.blacklist, t0);
  }

  ghost predicate CleanOutcome(s: Step<Outcome>, bl: Blacklist, ttl: real, t0: real, max: nat) {
    CleanFrom(s.items, bl, ttl, t0, max) && AllClean(EmittedBy(s.result), bl)
  }

  lemma ConcludedIsClean(step: Step<Option<seq<Observation>>>, freqHz: int, bl: Blacklist, ttl: real, t0: real,
                         max: nat)
    requires CleanStep(step, freqHz, bl, ttl, t0, max)
    ensures CleanOutcome(Concluded(step, freqHz), bl, ttl, t0, max)
  {
  }

  lemma MessageIsClean(site: Site, line: Line, d: Decode, msg: Message, items: seq<Item>, max: nat, ttl: real, t0: real)
    requires CleanFrom(items, site.blacklist, ttl, t0, max) && line.ts >= t0
    requires msg.grid.Some? ==> msg.grid.value != ""
    ensures CleanOutcome(IngestMessage(site, line, d, msg, items, max, ttl), site.blacklist, ttl, t0, max)
  {
    if Screen(site, line, d, msg) == Some(false) {
      var freqHz := line.dialHz + d.freq;
      ProcessIsClean(msg, d.snr, site, items, max, ttl, line.ts, freqHz, t0);
      ConcludedIsClean(Process(msg, d.snr, site, items, max, ttl, line.ts), freqHz, site.blacklist, ttl, t0, max);
    }
  }

  lemma IngestIsClean(site: Site, line: Line, items: seq<Item>, max: nat, ttl: real, t0: real)
    requires CleanFrom(items, site.blacklist, ttl, t0, max) && line.ts >= t0
    ensures CleanOutcome(Ingest(site, line, items, max, ttl), site.blacklist, ttl, t0, max)
  {
    if line.decode.Some? {
      var d := line.decode.value;
      ClassifiedShape(d.message);
      MessageIsClean(site, line, d, Classify(d.message), items, max, ttl, t0);
    }
  }

  /** If all the cache starts with is harmless from time `t0` on, nothing blacklisted is emitted by
      lines from `t0` on: not as a transmitter, and for reported paths not as the receiver either,
      although only the transmitter of a message is checked. */
  lemma {:induction false} NothingBlacklisted(site: Site, lines: seq<Line>, start: seq<Item>, max: nat, ttl: real,
                                              t0: real)
    requires CleanFrom(start, site.blacklist, ttl, t0, max) && NotBefore(lines, t0)
    ensures AllClean(Emitted(site, lines, start, max, ttl), site.blacklist)
    ensures CleanFrom(CacheAfter(site, lines, start, max, ttl), site.blacklist, ttl, t0, max)
  {
    if lines != [] {
      var n := |lines| - 1;
      NothingBlacklisted(site, lines[..n], start, max, ttl, t0);
      IngestIsClean(site, lines[n], CacheAfter(site, lines[..n], start, max, ttl), max, ttl, t0);
    }
  }

  /** A cache reloaded from before a grid was blacklisted breaks the promise: while its entry is
      fresh, any decode of that station without grid and report emits the blacklisted grid. */
  lemma StaleCacheResurfaces(site: Site, line: Line, items: seq<Item>, max: nat, ttl: real, i: nat)
    requires Distinct(items) && i < |items| && !Expired(items[i].entry, ttl, line.ts)
    requires GridToLatLon(site.grid).Some? && GridToLatLon(items[i].entry.grid).Some?
    requires site.blacklist.ListsGrid(items[i].entry.grid)
    requires line.decode.Some? && line.decode.value.snr >= line.minSnr
    requires var msg := Classify(line.decode.value.message);
             && msg.callDe == Some(items[i].call) && msg.grid.None? && msg.reportDb.None?
             && !site.blacklist.Blocks(None, msg.callDe, line.dialHz + line.decode.value.freq)
    ensures var emitted := EmittedBy(Ingest(site, line, items, max, ttl).result);
            |emitted| == 1 && emitted[0].0.txGrid == items[i].entry.grid && !AllClean(emitted, site.blacklist)
  {
    var d := line.decode.value;
    ClassifiedShape(d.message);
    StaleEntryEmits(site, line, d, Classify(d.message), items, max, ttl, i);
  }

  lemma StaleEntryEmits(site: Site, line: Line, d: Decode, msg: Message, items: seq<Item>, max: nat, ttl: real, i: nat)
    requires Distinct(items) && i < |items| && !Expired(items[i].entry, ttl, line.ts)
    requires GridToLatLon(site.grid).Some? && GridToLatLon(items[i].entry.grid).Some?
    requires d.snr >= line.minSnr && msg.callDe == Some(items[i].call) && msg.grid.None? && msg.reportDb.None?
    requires !msg.deHashed
    requires !site.blacklist.Blocks(None, msg.callDe, line.dialHz + d.freq)
    ensures var emitted := EmittedBy(IngestMessage(site, line, d, msg, items, max, ttl).result);
            |emitted| == 1 && emitted[0].0.txGrid == items[i].entry.grid
  {
    assert IndexOf(items, items[i].call) == i;
    var direct := ExtractDirect(msg, d.snr, site, items, ttl, line.ts);
    var o := MakeObservation(Direct, msg.callDe, items[i].entry.grid, site.call, site.grid, d.snr);
    assert direct == Step(Some([o.value]), items);
    assert [o.value] + [] == [o.value];
    assert Extract(msg, d.snr, site, items, ttl, line.ts) == Step(Some([o.value]), items);
  }
}
