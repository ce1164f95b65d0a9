/** The FT8 pipeline without its cache: what a run of lines should emit, computed only from the
    log of grids that kept decodes have revealed. `PipelineRefinesLog` proves that the pipeline
    with its bounded, expiring cache emits exactly this. */
module PipelineSpec {
  import opened Text
  import opened Locator
  import opened CallsignCache
  import opened CacheHistory
  import opened Ft8Parser
  import opened Observations
  import opened Ft8Pipeline

  /** The log entry a message adds when it is learned from. */
  function Reveals(msg: Message, ts: real): seq<Heard> {
    if msg.grid.Some? && msg.callDe.Some? && !msg.deHashed && GridToLatLon(msg.grid.value).Some?
    then [Heard(msg.callDe.value, msg.grid.value, ts)]
    else []
  }

  function RevealedBy(site: Site, line: Line): seq<Heard> {
    if line.decode.None? then []
    else
      var msg := Classify(line.decode.value.message);
      if Screen(site, line, line.decode.value, msg) == Some(false) then Reveals(msg, line.ts) else []
  }

  /** The log of a run of lines, after what the cache was loaded with. */
  function Revealed(site: Site, start: seq<Item>, lines: seq<Line>): seq<Heard> {
    if lines == [] then LogOfItems(start)
    else Revealed(site, start, lines[..|lines| - 1]) + RevealedBy(site, lines[|lines| - 1])
  }

  /** Observations of one message, with grids answered by the log. */
  function DirectFromLog(msg: Message, snr: int, site: Site, log: seq<Heard>, max: nat, ttl: real, ts: real)
    : Option<seq<Observation>>
  {
    if msg.callDe.None? || msg.deHashed then Some([])
    else
      var grid := if msg.grid.Some? then msg.grid else Answer(log, max, ttl, msg.callDe.value, ts);
      if grid.None? then Some([])
      else
        var o := MakeObservation(Direct, msg.callDe, grid.value, site.call, site.grid, snr);
        if o.Some? then Some([o.value]) else None
  }

  function IndirectFromLog(msg: Message, log: seq<Heard>, max: nat, ttl: real, ts: real): Option<seq<Observation>> {
    if !CarriesReport(msg) then Some([])
    else
      var a, b := Answer(log, max, ttl, msg.callTo.value, ts), Answer(log, max, ttl, msg.callDe.value, ts);
      if a.None? || b.None? then Some([])
      else
        var o := MakeObservation(Indirect, msg.callTo, a.value, msg.callDe, b.value, msg.reportDb.value);
        if o.Some? then Some([o.value]) else None
  }

  function MessageFromLog(site: Site, line: Line, d: Decode, msg: Message, log: seq<Heard>, max: nat, ttl: real)
    : Outcome
  {
    var dropped := Screen(site, line, d, msg);
    if dropped.None? then Raised
    else if dropped.value then Decoded([])
    else
      var direct := DirectFromLog(msg, d.snr, site, log, max, ttl, line.ts);
      var indirect := IndirectFromLog(msg, log, max, ttl, line.ts);
      if direct.None? || indirect.None? then Raised
      else Decoded(Tagged(direct.value + indirect.value, line.dialHz + d.freq))
  }

  /** What the last of `lines` should produce, given the log of all of them. */
  function OutcomeFromLog(site: Site, line: Line, log: seq<Heard>, max: nat, ttl: real): Outcome {
    if line.decode.None? then NotADecode
    else MessageFromLog(site, line, line.decode.value, Classify(line.decode.value.message), log, max, ttl)
  }

  /** Everything a run of lines should emit. */
  function EmittedFromLog(site: Site, start: seq<Item>, lines: seq<Line>, max: nat, ttl: real)
    : seq<(Observation, int)>
  {
    if lines == [] then []
    else
      var n := |lines| - 1;
      EmittedFromLog(site, start, lines[..n], max, ttl)
        + EmittedBy(OutcomeFromLog(site, lines[n], Revealed(site, start, lines), max, ttl))
  }

  // --- one message ------------------------------------------------------------

  lemma LearnKeeps(msg: Message, items: seq<Item>, log: seq<Heard>, max: nat, ttl: real, ts: real)
    requires Inv(items, log, max, ttl, ts)
    ensures Inv(AfterLearn(msg, items, max, ts), log + Reveals(msg, ts), max, ttl, ts)
  {
    assert log + [] == log;
    if msg.grid.Some? && msg.callDe.Some? && !msg.deHashed {
      ApplyKeeps(items, log, max, ttl, Op.Update(msg.callDe.value, msg.grid.value, ts));
    }
  }

  lemma LookupKeeps(items: seq<Item>, log: seq<Heard>, max: nat, ttl: real, call: string, ts: real)
    requires Inv(items, log, max, ttl, ts)
    ensures Inv(AfterLookup(items, ttl, call, ts), log, max, ttl, ts)
    ensures Found(items, ttl, call, ts) == Answer(log, max, ttl, call, ts)
  {
    ApplyKeeps(items, log, max, ttl, Op.Lookup(call, ts));
    FoundIsAnswer(items, log, max, ttl, call, ts);
  }

  /** The direct part depends on the cache only through one answer. */
  lemma DirectByAnswer(msg: Message, snr: int, site: Site, items: seq<Item>, log: seq<Heard>, max: nat, ttl: real,
                       ts: real)
    requires msg.callDe.Some? ==> Found(items, ttl, msg.callDe.value, ts) == Answer(log, max, ttl, msg.callDe.value, ts)
    ensures ExtractDirect(msg, snr, site, items, ttl, ts).result == DirectFromLog(msg, snr, site, log, max, ttl, ts)
  {
  }

  lemma DirectRefines(msg: Message, snr: int, site: Site, items: seq<Item>, log: seq<Heard>, max: nat, ttl: real,
                      ts: real)
    requires Inv(items, log, max, ttl, ts)
    ensures ExtractDirect(msg, snr, site, items, ttl, ts).result == DirectFromLog(msg, snr, site, log, max, ttl, ts)
    ensures Inv(ExtractDirect(msg, snr, site, items, ttl, ts).items, log, max, ttl, ts)
  {
    if msg.callDe.Some? {
      LookupKeeps(items, log, max, ttl, msg.callDe.value, ts);
    }
    DirectByAnswer(msg, snr, site, items, log, max, ttl, ts);
  }

  /** The indirect part depends on the cache only through two answers. */
  lemma IndirectByAnswers(msg: Message, items: seq<Item>, log: seq<Heard>, max: nat, ttl: real, ts: real)
    requires CarriesReport(msg) ==>
               && Found(items, ttl, msg.callTo.value, ts) == Answer(log, max, ttl, msg.callTo.value, ts)
               && Found(AfterLookup(items, ttl, msg.callTo.value, ts), ttl, msg.callDe.value, ts)
                  == Answer(log, max, ttl, msg.callDe.value, ts)
    ensures ExtractIndirect(msg, items, ttl, ts).result == IndirectFromLog(msg, log, max, ttl, ts)
  {
  }

  lemma IndirectRefines(msg: Message, items: seq<Item>, log: seq<Heard>, max: nat, ttl: real, ts: real)
    requires Inv(items, log, max, ttl, ts)
    ensures ExtractIndirect(msg, items, ttl, ts).result == IndirectFromLog(msg, log, max, ttl, ts)
    ensures Inv(ExtractIndirect(msg, items, ttl, ts).items, log, max, ttl, ts)
  {
    if CarriesReport(msg) {
      LookupKeeps(items, log, max, ttl, msg.callTo.value, ts);
      LookupKeeps(AfterLookup(items, ttl, msg.callTo.value, ts), log, max, ttl, msg.callDe.value, ts);
    }
    IndirectByAnswers(msg, items, log, max, ttl, ts);
  }

  lemma ProcessRefines(msg: Message, snr: int, site: Site, items: seq<Item>, log: seq<Heard>, max: nat, ttl: real,
                       ts: real)
    requires Inv(items, log, max, ttl, ts)
    ensures var s := Process(msg, snr, site, items, max, ttl, ts);
            var log' := log + Reveals(msg, ts);
            var direct := DirectFromLog(msg, snr, site, log', max, ttl, ts);
            var indirect := IndirectFromLog(msg, log', max, ttl, ts);
            && Inv(s.items, log', max, ttl, ts)
            && s.result == if direct.None? || indirect.None? then None else Some(direct.value + indirect.value)
  {
    var log', learned := log + Reveals(msg, ts), AfterLearn(msg, items, max, ts);
    LearnKeeps(msg, items, log, max, ttl, ts);
    DirectRefines(msg, snr, site, learned, log', max, ttl, ts);
    IndirectRefines(msg, ExtractDirect(msg, snr, site, learned, ttl, ts).items, log', max, ttl, ts);
  }

  lemma LineRefines(site: Site, line: Line, items: seq<Item>, log: seq<Heard>, max: nat, ttl: real)
    requires Inv(items, log, max, ttl, line.ts)
    ensures var s := Ingest(site, line, items, max, ttl);
            var log' := log + RevealedBy(site, line);
            s.result == OutcomeFromLog(site, line, log', max, ttl) && Inv(s.items, log', max, ttl, line.ts)
  {
    assert log + [] == log;
    if line.decode.Some? {
      var d := line.decode.value;
      ProcessRefines(Classify(d.message), d.snr, site, items, log, max, ttl, line.ts);
    }
  }

  // --- runs -------------------------------------------------------------------

  ghost predicate InOrder(lines: seq<Line>) {
    forall i, j :: 0 <= i < j < |lines| ==> lines[i].ts <= lines[j].ts
  }

  /** From an empty or freshly loaded cache and with times that do not go back, the pipeline emits
      exactly what the log calls for: backfilled grids are the last ones revealed by kept decodes,
      and only the age limit and the cache bound, as counted in the log, withhold any. */
  lemma {:induction false} PipelineRefinesLog(site: Site, start: seq<Item>, lines: seq<Line>, max: nat, ttl: real,
                                              now: real)
    requires GoodStart(start, max) && SeenBy(start, if lines == [] then now else lines[0].ts)
    requires InOrder(lines) && (lines != [] ==> lines[|lines| - 1].ts <= now)
    ensures Emitted(site, lines, start, max, ttl) == EmittedFromLog(site, start, lines, max, ttl)
    ensures Inv(CacheAfter(site, lines, start, max, ttl), Revealed(site, start, lines), max, ttl, now)
  {
    if lines == [] {
      StartHolds(start, max, ttl, now);
    } else {
      var n := |lines| - 1;
      var line, items, log := lines[n], CacheAfter(site, lines[..n], start, max, ttl),
        Revealed(site, start, lines[..n]);
      assert n > 0 ==> lines[..n][0] == lines[0];
      PipelineRefinesLog(site, start, lines[..n], max, ttl, line.ts);
      LineRefines(site, line, items, log, max, ttl);
      Later(CacheAfter(site, lines, start, max, ttl), Revealed(site, start, lines), max, ttl, line.ts, now);
    }
  }
}
