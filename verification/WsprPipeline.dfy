/** WSPR lines (`monitor/wspr_parser.py`, `monitor/wspr_pipeline.py`): messages carry their own
    grid, so there is no cache and no reported path, but a transmit power. */
module WsprPipeline {
  import opened Text
  import opened Locator
  import opened Observations
  import opened Ft8Pipeline

  /** A message that carries a transmitter location. */
  datatype Spot = Spot(grid: string, powerDbm: int, call: Option<string>, hashed: bool)

  predicate IsBracket(c: char) {
    c in {'<', '>'}
  }

  /** `strip("<>")`. */
  function Unbracketed(s: string): string {
    if s != "" && IsBracket(s[0]) then Unbracketed(s[1..])
    else if s != "" && IsBracket(s[|s| - 1]) then Unbracketed(s[..|s| - 1])
    else s
  }

  /** `classify`; None if the message carries no grid. */
  function ReadSpot(message: string): Option<Spot> {
    var toks := Split(message);
    var n := |toks|;
    if n < 3 then None
    else
      var power, grid := ParseInt(toks[n - 1]), toks[n - 2];
      if power.None? || !MatchesGridPattern(grid) then None
      else if toks[0][0] == '<' then
        var inner := Unbracketed(toks[0]);
        Some(Spot(grid, power.value, if inner == "..." then None else Some(inner), true))
      else Some(Spot(grid, power.value, Some(toks[0]), false))
  }

  /** The one observation of a spot that was not filtered, or the error of a bad monitor grid. */
  function SpotObserved(site: Site, spot: Spot, snr: int, freqHz: int): Outcome {
    var o := MakeObservation(Direct, spot.call, spot.grid, site.call, site.grid, snr, Some(spot.powerDbm));
    if o.None? then Raised else Decoded([(o.value, freqHz)])
  }

  /** `ingest`, with the filters in their order. */
  method IngestWspr(site: Site, line: Line) returns (outcome: Outcome)
    ensures outcome == Wspr(site, line)
  {
    if line.decode.None? {
      return NotADecode;
    }
    var d := line.decode.value;
    if d.snr < line.minSnr {
      return Decoded([]);
    }
    var spot := ReadSpot(d.message);
    if spot.None? {
      return Decoded([]);
    }
    var freqHz := line.dialHz + d.freq;
    if site.blacklist.Blocks(Some(spot.value.grid), spot.value.call, freqHz) {
      return Decoded([]);
    }
    var strong := CheckStrength(Some(spot.value.grid), d.snr, site, line.ceiling);
    if strong != Some(false) {
      return if strong.None? then Raised else Decoded([]);
    }
    return SpotObserved(site, spot.value, d.snr, freqHz);
  }

  predicate Dropped(site: Site, line: Line, d: Decode, spot: Option<Spot>) {
    d.snr < line.minSnr || spot.None?
      || site.blacklist.Blocks(Some(spot.value.grid), spot.value.call, line.dialHz + d.freq)
  }

  function WsprMessage(site: Site, line: Line, d: Decode, spot: Option<Spot>): Outcome {
    if Dropped(site, line, d, spot) then Decoded([])
    else
      match TooStrong(Some(spot.value.grid), d.snr, site, line.ceiling)
      case None => Raised
      case Some(true) => Decoded([])
      case Some(false) => SpotObserved(site, spot.value, d.snr, line.dialHz + d.freq)
  }

  function Wspr(site: Site, line: Line): Outcome {
    if line.decode.None? then NotADecode
    else WsprMessage(site, line, line.decode.value, ReadSpot(line.decode.value.message))
  }

  // --- the messages wsprd prints ----------------------------------------------

  /** A callsign, plain or in brackets, or the mark for one that is not known. */
  datatype Caller = Plain(call: string) | Compound(call: string) | Unknown

  predicate IsCaller(c: Caller) {
    match c
    case Plain(call) => IsWord(call) && call[0] != '<'
    case Compound(call) => IsWord(call) && call != "..." && !IsBracket(call[0]) && !IsBracket(call[|call| - 1])
    case Unknown => true
  }

  function CallerToken(c: Caller): string {
    match c
    case Plain(call) => call
    case Compound(call) => "<" + call + ">"
    case Unknown => "<...>"
  }

  lemma UnbracketedInside(call: string)
    requires call != "" && !IsBracket(call[0]) && !IsBracket(call[|call| - 1])
    ensures Unbracketed("<" + call + ">") == call
  {
    var s, t := "<" + call + ">", call + ">";
    assert s[1..] == t && t[..|call|] == call && t[0] == call[0];
    assert Unbracketed(t) == Unbracketed(call);
  }

  lemma WordsOf(c: Caller, grid: string, power: string)
    requires IsCaller(c) && MatchesGridPattern(grid) && IsWord(power)
    ensures AreWords([CallerToken(c), grid, power]) && AreWords([CallerToken(c), power])
  {
    assert IsWord(CallerToken(c));
    assert IsWord(grid);
  }

  lemma PowerReadsBack(power: nat)
    ensures IsWord(Decimal(power)) && ParseInt(Decimal(power)) == Some(power)
  {
    DecimalRoundTrip(power);
    var s := Decimal(power);
    assert IsDigit(s[0]);
  }

  /** What a caller's token says: the callsign if it is known, and whether it was in brackets. */
  lemma CallerReadsBack(c: Caller)
    requires IsCaller(c)
    ensures CallerToken(c)[0] == '<' <==> !c.Plain?
    ensures c.Compound? ==> Unbracketed(CallerToken(c)) == c.call != "..."
    ensures c.Unknown? ==> Unbracketed(CallerToken(c)) == "..."
  {
    if c.Compound? {
      UnbracketedInside(c.call);
    }
    UnbracketedInside("...");
    assert "<...>" == "<" + "..." + ">";
  }

  /** Every message with a grid reads back as what it was printed from; one without a grid is no
      spot. */
  lemma SpotReadsBack(c: Caller, grid: string, power: nat)
    requires IsCaller(c) && MatchesGridPattern(grid)
    ensures ReadSpot(Join([CallerToken(c), grid, Decimal(power)]))
            == Some(Spot(grid, power, if c.Unknown? then None else Some(c.call), !c.Plain?))
    ensures ReadSpot(Join([CallerToken(c), Decimal(power)])) == None
  {
    PowerReadsBack(power);
    CallerReadsBack(c);
    WordsOf(c, grid, Decimal(power));
    SplitJoin([CallerToken(c), grid, Decimal(power)]);
    SplitJoin([CallerToken(c), Decimal(power)]);
  }

  // --- what is emitted --------------------------------------------------------

  /** The spot's path to this monitor, at the centres of both locators, with its power. */
  ghost predicate IsSpotPath(o: Observation, spot: Spot, snr: int, site: Site) {
    && o.kind == Direct && o.txCall == spot.call && o.txGrid == spot.grid
    && o.rxCall == site.call && o.rxGrid == site.grid
    && GridToLatLon(o.txGrid) == Some((o.txLat, o.txLon)) && GridToLatLon(o.rxGrid) == Some((o.rxLat, o.rxLon))
    && o.snrDb == snr && o.powerDbm == Some(spot.powerDbm)
  }

  lemma SpotGridIsValid(message: string)
    ensures var spot := ReadSpot(message); spot.Some? ==> spot.value.grid != "" && GridToLatLon(spot.value.grid).Some?
  {
    var spot := ReadSpot(message);
    if spot.Some? {
      LocatorIsNormal(spot.value.grid);
    }
  }

  /** In terms of the configuration: a line yields the path of its spot, and nothing else, exactly
      if it carries a grid, is strong enough, not listed and not too strong for its distance. It
      fails exactly if it gets as far as the monitor's grid and that is bad. */
  lemma WsprExactly(site: Site, line: Line, d: Decode, spot: Spot, caps: seq<Cap>,
                    grids: seq<string>, calls: seq<string>, freqs: seq<string>)
    requires line.decode == Some(d) && ReadSpot(d.message) == Some(spot)
    requires line.ceiling == SortedCeiling(caps) && BlocksListed(site.blacklist, grids, calls, freqs)
    ensures GridToLatLon(spot.grid).Some?
    ensures var monitor, outcome := GridToLatLon(site.grid), Wspr(site, line);
            var kept := d.snr >= line.minSnr
              && !Listed(grids, calls, freqs, Some(spot.grid), spot.call, line.dialHz + d.freq);
            && (outcome == Raised <==> kept && monitor.None?)
            && (outcome != Raised ==> outcome.Decoded? && |outcome.emitted| <= 1)
            && (outcome.Decoded? && outcome.emitted != [] <==>
                  kept && monitor.Some?
                    && !Exceeds(caps, site.distanceKm(monitor.value, GridToLatLon(spot.grid).value), d.snr))
            && (outcome.Decoded? && outcome.emitted != [] ==>
                  IsSpotPath(outcome.emitted[0].0, spot, d.snr, site) && outcome.emitted[0].1 == line.dialHz + d.freq)
  {
    SpotGridIsValid(d.message);
    TooStrongExactly(Some(spot.grid), d.snr, site, caps);
    assert site.blacklist.Blocks(Some(spot.grid), spot.call, line.dialHz + d.freq)
      == Listed(grids, calls, freqs, Some(spot.grid), spot.call, line.dialHz + d.freq);
  }

  lemma WsprIsClean(site: Site, line: Line)
    ensures AllClean(EmittedBy(Wspr(site, line)), site.blacklist)
  {
    if line.decode.Some? {
      SpotGridIsValid(line.decode.value.message);
    }
  }
}
