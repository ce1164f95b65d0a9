/** Which starting caches keep the blacklist's promise: with room for two entries, exactly those
    without blacklisted entries that are still fresh at the first line. Any other one can be made
    to emit what is blacklisted by one or two decodes at that very time. */
module BlacklistExact {
  import opened Text
  import opened Locator
  import opened CallsignCache
  import opened CacheHistory
  import opened Ft8Parser
  import opened Observations
  import opened Ft8Pipeline
  import opened PipelineSpec

  /** What is fixed for a receiver. */
  datatype Tuning = Tuning(dialHz: int, minSnr: int, ceiling: seq<Cap>)

  function TuningOf(line: Line): Tuning {
    Tuning(line.dialHz, line.minSnr, line.ceiling)
  }

  /** All lines come from receivers of the monitor. */
  ghost predicate OfReceivers(lines: seq<Line>, receivers: set<Tuning>) {
    forall i :: 0 <= i < |lines| ==> TuningOf(lines[i]) in receivers
  }

  /** A station, and a frequency above the receiver's dial, that neither blacklist nor ceiling
      object to. */
  ghost predicate LetsThrough(site: Site, rx: Tuning, call: string, grid: string, freqHz: int) {
    && IsCall(call) && !site.blacklist.ListsCall(Some(call))
    && IsGrid(grid) && !site.blacklist.ListsGrid(grid)
    && rx.dialHz <= freqHz && !site.blacklist.ListsFreq(freqHz)
    && TooStrong(Some(grid), rx.minSnr, site, rx.ceiling) == Some(false)
  }

  /** A decode of the given phrase, just strong enough for the receiver. */
  function Says(p: Phrase, rx: Tuning, freqHz: int, ts: real): Line
    requires IsPhrase(p)
  {
    Line(Some(Decode(rx.minSnr, freqHz - rx.dialHz, Join(Tokens(p)))), rx.dialHz, rx.minSnr, rx.ceiling, ts)
  }

  lemma SaysIs(site: Site, p: Phrase, rx: Tuning, freqHz: int, ts: real, items: seq<Item>, max: nat, ttl: real)
    requires IsPhrase(p)
    ensures var line := Says(p, rx, freqHz, ts);
            Ingest(site, line, items, max, ttl)
            == IngestMessage(site, line, line.decode.value, Meaning(p, Join(Tokens(p))), items, max, ttl)
  {
    ClassifyReadsBack(p);
  }

  /** Entries as the monitor itself writes them: plain callsigns, valid grids. */
  ghost predicate WellFormed(items: seq<Item>) {
    Distinct(items) && forall i :: 0 <= i < |items| ==> WellFormedItem(items[i])
  }

  ghost predicate WellFormedItem(item: Item) {
    IsCall(item.call) && GridToLatLon(item.entry.grid).Some?
  }

  /** A run of lines from these receivers that starts no earlier than `t0` and whose times do not go
      back. */
  ghost predicate From(lines: seq<Line>, receivers: set<Tuning>, t0: real) {
    InOrder(lines) && NotBefore(lines, t0) && OfReceivers(lines, receivers)
  }

  lemma OneFrom(line: Line, rx: Tuning)
    requires TuningOf(line) == rx
    ensures From([line], {rx}, line.ts)
  {
  }

  lemma TwoFrom(first: Line, second: Line, rx: Tuning)
    requires first.ts == second.ts && TuningOf(first) == rx && TuningOf(second) == rx
    ensures From([first, second], {rx}, first.ts)
  {
  }

  lemma OneLine(site: Site, line: Line, start: seq<Item>, max: nat, ttl: real)
    ensures CacheAfter(site, [line], start, max, ttl) == Ingest(site, line, start, max, ttl).items
    ensures Emitted(site, [line], start, max, ttl) == EmittedBy(Ingest(site, line, start, max, ttl).result)
  {
    assert [line][..0] == [];
  }

  lemma OneLineUnclean(site: Site, line: Line, start: seq<Item>, max: nat, ttl: real)
    requires !AllClean(EmittedBy(Ingest(site, line, start, max, ttl).result), site.blacklist)
    ensures !AllClean(Emitted(site, [line], start, max, ttl), site.blacklist)
  {
    OneLine(site, line, start, max, ttl);
  }

  // --- a grid resurfaces ------------------------------------------------------

  lemma FirstUnclean(emitted: seq<(Observation, int)>, bl: Blacklist)
    requires emitted != [] && bl.ListsGrid(emitted[0].0.txGrid)
    ensures !AllClean(emitted, bl)
  {
    assert !CleanObservation(emitted[0].0, emitted[0].1, bl);
  }

  /** An entry with a blacklisted grid and a callsign that is not: its station calls CQ. */
  lemma GridResurfaces(site: Site, start: seq<Item>, max: nat, ttl: real, rx: Tuning, freqHz: int, t0: real, i: nat)
    returns (lines: seq<Line>)
    requires WellFormed(start) && GridToLatLon(site.grid).Some? && !site.blacklist.ListsFreq(freqHz)
    requires i < |start| && !Expired(start[i].entry, ttl, t0)
    requires site.blacklist.ListsGrid(start[i].entry.grid) && !site.blacklist.ListsCall(Some(start[i].call))
    ensures From(lines, {rx}, t0)
    ensures !AllClean(Emitted(site, lines, start, max, ttl), site.blacklist)
  {
    var p := Calling(false, [], Named(start[i].call), None);
    var line := Says(p, rx, freqHz, t0);
    SaysIs(site, p, rx, freqHz, line.ts, start, max, ttl);
    StaleEntryEmits(site, line, line.decode.value, Meaning(p, Join(Tokens(p))), start, max, ttl, i);
    FirstUnclean(EmittedBy(Ingest(site, line, start, max, ttl).result), site.blacklist);
    OneLineUnclean(site, line, start, max, ttl);
    OneFrom(line, rx);
    lines := [line];
  }

  // --- a callsign resurfaces --------------------------------------------------

  /** A report between two stations with fresh entries is emitted as an indirect path. */
  lemma ReportEmits(site: Site, line: Line, d: Decode, msg: Message, items: seq<Item>, ttl: real, i: nat, j: nat)
    requires Distinct(items) && i < |items| && j < |items|
    requires !Expired(items[i].entry, ttl, line.ts) && !Expired(items[j].entry, ttl, line.ts)
    requires GridToLatLon(items[i].entry.grid).Some? && GridToLatLon(items[j].entry.grid).Some?
    requires GridToLatLon(site.grid).Some?
    requires msg.kind == STANDARD && msg.callTo == Some(items[i].call) && msg.callDe == Some(items[j].call)
    requires msg.grid.None? && msg.reportDb.Some? && !msg.toHashed && !msg.deHashed
    ensures var s := Extract(msg, d.snr, site, items, ttl, line.ts);
            && s.result.Some? && |s.result.value| == 2
            && s.result.value[1].kind == Indirect && s.result.value[1].txCall == Some(items[i].call)
            && s.result.value[1].txGrid == items[i].entry.grid && s.result.value[1].rxGrid == items[j].entry.grid
  {
    assert IndexOf(items, items[i].call) == i && IndexOf(items, items[j].call) == j;
    var direct := ExtractDirect(msg, d.snr, site, items, ttl, line.ts);
    assert direct.result.Some? && |direct.result.value| == 1 && direct.items == items;
    var indirect := ExtractIndirect(msg, items, ttl, line.ts);
    assert indirect.result.Some? && |indirect.result.value| == 1;
    assert indirect.result.value[0].txCall == Some(items[i].call);
  }

  /** With both stations in the cache, a report between them that is not filtered is emitted as a
      direct and an indirect path. */
  lemma ReportYieldsTwo(site: Site, items: seq<Item>, max: nat, ttl: real, rx: Tuning, freqHz: int, ts: real, i: nat,
                        j: nat)
    returns (line: Line, emitted: seq<(Observation, int)>)
    requires Distinct(items) && GridToLatLon(site.grid).Some? && !site.blacklist.ListsFreq(freqHz)
    requires i < |items| && j < |items| && WellFormedItem(items[i]) && WellFormedItem(items[j])
    requires !Expired(items[i].entry, ttl, ts) && !Expired(items[j].entry, ttl, ts)
    requires !site.blacklist.ListsCall(Some(items[j].call))
    ensures line.ts == ts && TuningOf(line) == rx && emitted == EmittedBy(Ingest(site, line, items, max, ttl).result)
    ensures |emitted| == 2 && emitted[1].0.kind == Indirect && emitted[1].0.txCall == Some(items[i].call)
    ensures emitted[1].0.txGrid == items[i].entry.grid && emitted[1].0.rxGrid == items[j].entry.grid
  {
    var p := Exchange(Named(items[i].call), Named(items[j].call), Report(false, -10));
    line := Says(p, rx, freqHz, ts);
    var d, msg := line.decode.value, Meaning(p, Join(Tokens(p)));
    SaysIs(site, p, rx, freqHz, ts, items, max, ttl);
    ReportEmits(site, line, d, msg, items, ttl, i, j);
    NoGridPasses(site, line, d, msg);
    PassedEmits(site, line, d, msg, items, max, ttl);
    emitted := EmittedBy(IngestMessage(site, line, d, msg, items, max, ttl).result);
  }

  lemma NoGridPasses(site: Site, line: Line, d: Decode, msg: Message)
    requires msg.grid.None? && d.snr >= line.minSnr
    requires !site.blacklist.ListsCall(msg.callDe) && !site.blacklist.ListsFreq(line.dialHz + d.freq)
    ensures Screen(site, line, d, msg) == Some(false)
  {
  }

  lemma PassedEmits(site: Site, line: Line, d: Decode, msg: Message, items: seq<Item>, max: nat, ttl: real)
    requires Screen(site, line, d, msg) == Some(false) && msg.grid.None?
    requires Extract(msg, d.snr, site, items, ttl, line.ts).result.Some?
    ensures EmittedBy(IngestMessage(site, line, d, msg, items, max, ttl).result)
            == Tagged(Extract(msg, d.snr, site, items, ttl, line.ts).result.value, line.dialHz + d.freq)
  {
    var step := Extract(msg, d.snr, site, items, ttl, line.ts);
    ScreenedEmits(Some(false), site, line, d, msg, items, max, ttl, step);
  }

  lemma ScreenedEmits(dropped: Option<bool>, site: Site, line: Line, d: Decode, msg: Message, items: seq<Item>,
                      max: nat,
                      ttl: real, step: Step<Option<seq<Observation>>>)
    requires dropped == Some(false) && step.result.Some?
    requires Process(msg, d.snr, site, items, max, ttl, line.ts) == step
    ensures EmittedBy(IngestScreened(dropped, site, line, d, msg, items, max, ttl).result)
            == Tagged(step.result.value, line.dialHz + d.freq)
  {
  }

  /** With both stations in the cache, a report to a blacklisted callsign emits it. */
  lemma ReportedCallIsUnclean(site: Site, items: seq<Item>, max: nat, ttl: real, rx: Tuning, freqHz: int, ts: real,
                              i: nat, j: nat)
    returns (line: Line)
    requires Distinct(items) && GridToLatLon(site.grid).Some? && !site.blacklist.ListsFreq(freqHz)
    requires i < |items| && j < |items| && WellFormedItem(items[i]) && WellFormedItem(items[j])
    requires !Expired(items[i].entry, ttl, ts) && !Expired(items[j].entry, ttl, ts)
    requires site.blacklist.ListsCall(Some(items[i].call)) && !site.blacklist.ListsCall(Some(items[j].call))
    ensures line.ts == ts && TuningOf(line) == rx
    ensures !AllClean(EmittedBy(Ingest(site, line, items, max, ttl).result), site.blacklist)
  {
    var emitted;
    line, emitted := ReportYieldsTwo(site, items, max, ttl, rx, freqHz, ts, i, j);
    assert !CleanObservation(emitted[1].0, emitted[1].1, site.blacklist);
  }

  lemma WithoutKeepsLast(items: seq<Item>, call: string)
    requires items != [] && items[|items| - 1].call != call
    ensures Without(items, call) != [] && Without(items, call)[|Without(items, call)| - 1] == items[|items| - 1]
  {
  }

  /** The newest item stands next to the one before it. */
  ghost predicate EndsWith(items: seq<Item>, before: Item, last: Item) {
    Distinct(items) && |items| >= 2 && items[|items| - 2] == before && items[|items| - 1] == last
  }

  /** It stays there if the cache has room for two. */
  lemma NewestEnds(w: seq<Item>, max: nat, before: Item, last: Item)
    requires EndsWith(w, before, last) && max >= 2
    ensures EndsWith(Newest(w, max), before, last)
  {
  }

  lemma AppendEnds(w: seq<Item>, item: Item)
    requires Distinct(w) && w != [] && !Holds(w, item.call)
    ensures EndsWith(w + [item], w[|w| - 1], item)
  {
  }

  /** A station learned after the newest entry of another one stands next to it. */
  lemma LearnedEnds(start: seq<Item>, call: string, grid: string, p: Point, ts: real) returns (item: Item)
    requires Distinct(start) && start != [] && start[|start| - 1].call != call
    ensures item.call == call && item.entry.lastSeen == ts && item.entry.grid == grid
    ensures EndsWith(Learned(start, call, grid, p, ts), start[|start| - 1], item)
  {
    var w := Without(start, call);
    item := Item(call, CacheEntry(grid, p.0, p.1, ts, SeenBefore(start, call) + 1));
    WithoutKeeps(start, call);
    WithoutKeepsLast(start, call);
    AppendEnds(w, item);
  }

  lemma AppendUnclean(before: seq<(Observation, int)>, more: seq<(Observation, int)>, bl: Blacklist)
    requires !AllClean(more, bl)
    ensures !AllClean(before + more, bl)
  {
    var k :| 0 <= k < |more| && !CleanObservation(more[k].0, more[k].1, bl);
    assert (before + more)[|before| + k] == more[k];
  }

  lemma TwoLines(site: Site, first: Line, second: Line, start: seq<Item>, max: nat, ttl: real)
    ensures Emitted(site, [first, second], start, max, ttl)
            == Emitted(site, [first], start, max, ttl)
               + EmittedBy(Ingest(site, second, CacheAfter(site, [first], start, max, ttl), max, ttl).result)
  {
    var lines := [first, second];
    assert lines[..1] == [first];
  }

  lemma SecondLineUnclean(site: Site, first: Line, second: Line, start: seq<Item>, max: nat, ttl: real)
    requires !AllClean(EmittedBy(Ingest(site, second, CacheAfter(site, [first], start, max, ttl), max, ttl).result),
                       site.blacklist)
    ensures !AllClean(Emitted(site, [first, second], start, max, ttl), site.blacklist)
  {
    TwoLines(site, first, second, start, max, ttl);
    AppendUnclean(Emitted(site, [first], start, max, ttl),
                  EmittedBy(Ingest(site, second, CacheAfter(site, [first], start, max, ttl), max, ttl).result),
                  site.blacklist);
  }

  /** Once a clean station is the newest entry, its report to the one before it is unclean. */
  lemma ReportAfterCq(site: Site, cq: Line, start: seq<Item>, max: nat, ttl: real, rx: Tuning, freqHz: int,
                      before: Item,
                      last: Item)
    returns (lines: seq<Line>)
    requires EndsWith(CacheAfter(site, [cq], start, max, ttl), before, last)
    requires TuningOf(cq) == rx && WellFormedItem(before) && WellFormedItem(last)
    requires GridToLatLon(site.grid).Some? && !site.blacklist.ListsFreq(freqHz)
    requires !Expired(before.entry, ttl, cq.ts) && !Expired(last.entry, ttl, cq.ts)
    requires site.blacklist.ListsCall(Some(before.call)) && !site.blacklist.ListsCall(Some(last.call))
    ensures From(lines, {rx}, cq.ts)
    ensures !AllClean(Emitted(site, lines, start, max, ttl), site.blacklist)
  {
    var after := CacheAfter(site, [cq], start, max, ttl);
    var report := ReportedCallIsUnclean(site, after, max, ttl, rx, freqHz, cq.ts, |after| - 2, |after| - 1);
    SecondLineUnclean(site, cq, report, start, max, ttl);
    TwoFrom(cq, report, rx);
    lines := [cq, report];
  }

  /** With a clean station as the newest entry, its report to a fresh blacklisted one suffices. */
  lemma CallResurfaces(site: Site, start: seq<Item>, max: nat, ttl: real, rx: Tuning, freqHz: int, t0: real, i: nat)
    returns (lines: seq<Line>)
    requires WellFormed(start) && GridToLatLon(site.grid).Some? && !site.blacklist.ListsFreq(freqHz)
    requires i < |start| && site.blacklist.ListsCall(Some(start[i].call))
    requires !site.blacklist.ListsCall(Some(start[|start| - 1].call))
    requires !Expired(start[i].entry, ttl, t0) && !Expired(start[|start| - 1].entry, ttl, t0)
    ensures From(lines, {rx}, t0)
    ensures !AllClean(Emitted(site, lines, start, max, ttl), site.blacklist)
  {
    var line := ReportedCallIsUnclean(site, start, max, ttl, rx, freqHz, t0, i, |start| - 1);
    OneLineUnclean(site, line, start, max, ttl);
    OneFrom(line, rx);
    lines := [line];
  }

  /** If the newest entry itself is blacklisted, a clean station, known or not, calls CQ first and
      then reports to it. */
  lemma CallResurfacesAfterCq(site: Site, start: seq<Item>, max: nat, ttl: real, rx: Tuning, freqHz: int, t0: real,
                              call: string, grid: string)
    returns (lines: seq<Line>)
    requires WellFormed(start) && max >= 2 && ttl >= 0.0 && GridToLatLon(site.grid).Some?
    requires LetsThrough(site, rx, call, grid, freqHz)
    requires start != [] && site.blacklist.ListsCall(Some(start[|start| - 1].call))
    requires !Expired(start[|start| - 1].entry, ttl, t0)
    ensures From(lines, {rx}, t0)
    ensures !AllClean(Emitted(site, lines, start, max, ttl), site.blacklist)
  {
    GridIsValid(grid);
    var phrase := Calling(false, [], Named(call), Some(grid));
    var cq := Says(phrase, rx, freqHz, t0);
    CqLearns(site, rx, freqHz, t0, phrase, start, max, ttl, call, grid);
    OneLine(site, cq, start, max, ttl);
    var p, before := GridToLatLon(grid).value, start[|start| - 1];
    var last := LearnedEnds(start, call, grid, p, t0);
    NewestEnds(Learned(start, call, grid, p, t0), max, before, last);
    lines := ReportAfterCq(site, cq, start, max, ttl, rx, freqHz, before, last);
  }

  lemma GridIsValid(grid: string)
    requires IsGrid(grid)
    ensures GridToLatLon(grid).Some?
  {
    LocatorIsNormal(grid);
  }

  lemma CqLearns(site: Site, rx: Tuning, freqHz: int, ts: real, p: Phrase, start: seq<Item>, max: nat, ttl: real,
                 call: string, grid: string)
    requires LetsThrough(site, rx, call, grid, freqHz) && GridToLatLon(grid).Some?
    requires p == Calling(false, [], Named(call), Some(grid))
    ensures Ingest(site, Says(p, rx, freqHz, ts), start, max, ttl).items
              == Newest(Learned(start, call, grid, GridToLatLon(grid).value, ts), max)
  {
    var cq := Says(p, rx, freqHz, ts);
    SaysIs(site, p, rx, freqHz, ts, start, max, ttl);
    var d, msg := cq.decode.value, Meaning(p, Join(Tokens(p)));
    assert Screen(site, cq, d, msg) == Some(false);
    LearnOnly(msg, d.snr, site, start, max, ttl, ts);
  }

  /** A message with a grid and no report leaves the cache as learning left it. */
  lemma LearnOnly(msg: Message, snr: int, site: Site, items: seq<Item>, max: nat, ttl: real, ts: real)
    requires msg.grid.Some? && msg.reportDb.None?
    ensures Process(msg, snr, site, items, max, ttl, ts).items == AfterLearn(msg, items, max, ts)
  {
  }

  // --- the exact condition ----------------------------------------------------

  /** Nothing blacklisted is emitted, whatever these receivers hear from time `t0` on. */
  ghost predicate NeverBlacklisted(site: Site, receivers: set<Tuning>, start: seq<Item>, max: nat, ttl: real, t0: real)
  {
    forall lines :: From(lines, receivers, t0) ==> AllClean(Emitted(site, lines, start, max, ttl), site.blacklist)
  }

  /** An entry that is not harmless can be made to show by one receiver. */
  lemma HarmfulEntryShows(site: Site, start: seq<Item>, max: nat, ttl: real, t0: real,
                          rx: Tuning, call: string, grid: string, freqHz: int, i: nat)
    returns (lines: seq<Line>)
    requires WellFormed(start) && GoodStart(start, max) && SeenBy(start, t0) && GridToLatLon(site.grid).Some?
    requires LetsThrough(site, rx, call, grid, freqHz)
    requires i < |start| && !Harmless(start[i], site.blacklist, ttl, t0, max)
    ensures From(lines, {rx}, t0) && !AllClean(Emitted(site, lines, start, max, ttl), site.blacklist)
  {
    assert start[i].entry.lastSeen <= start[|start| - 1].entry.lastSeen;
    if !site.blacklist.ListsCall(Some(start[i].call)) {
      lines := GridResurfaces(site, start, max, ttl, rx, freqHz, t0, i);
    } else if !site.blacklist.ListsCall(Some(start[|start| - 1].call)) {
      lines := CallResurfaces(site, start, max, ttl, rx, freqHz, t0, i);
    } else {
      lines := CallResurfacesAfterCq(site, start, max, ttl, rx, freqHz, t0, call, grid);
    }
  }

  /** For a monitor on a valid grid with any set of receivers, one of which lets some station
      through: nothing blacklisted is emitted over any run of theirs from `t0` on if and only if
      every entry the cache starts with, empty or loaded, is harmless. With room for two entries
      that is: it has expired by then, or neither its callsign nor its grid is blacklisted. */
  lemma NeverBlacklistedIff(site: Site, receivers: set<Tuning>, start: seq<Item>, max: nat, ttl: real, t0: real,
                            rx: Tuning, call: string, grid: string, freqHz: int)
    requires WellFormed(start) && GoodStart(start, max) && SeenBy(start, t0) && GridToLatLon(site.grid).Some?
    requires rx in receivers && LetsThrough(site, rx, call, grid, freqHz)
    ensures NeverBlacklisted(site, receivers, start, max, ttl, t0) <==> CleanFrom(start, site.blacklist, ttl, t0, max)
  {
    var bl := site.blacklist;
    if CleanFrom(start, bl, ttl, t0, max) {
      forall lines | From(lines, receivers, t0) ensures AllClean(Emitted(site, lines, start, max, ttl), bl) {
        NothingBlacklisted(site, lines, start, max, ttl, t0);
      }
    } else {
      var i :| 0 <= i < |start| && !Harmless(start[i], bl, ttl, t0, max);
      var lines := HarmfulEntryShows(site, start, max, ttl, t0, rx, call, grid, freqHz, i);
      assert From(lines, receivers, t0);
    }
  }
}
