/** Observations (`monitor/observations.py`), the plausibility ceiling and the blacklist
    (`monitor/config.py`). */
module Observations {
  import opened Text
  import opened Locator

  datatype PathKind = Direct | Indirect

  datatype Observation = Observation(
    kind: PathKind,
    txGrid: string, txLat: real, txLon: real,
    rxGrid: string, rxLat: real, rxLon: real,
    snrDb: int,
    txCall: Option<string>,
    rxCall: Option<string>,
    powerDbm: Option<int>)

  /** `make_observation`; None stands for the ValueError of a bad locator. */
  function MakeObservation(kind: PathKind, txCall: Option<string>, txGrid: string,
                           rxCall: Option<string>, rxGrid: string, snr: int, powerDbm: Option<int> := None)
    : Option<Observation>
  {
    var tx, rx := GridToLatLon(txGrid), GridToLatLon(rxGrid);
    if tx.None? || rx.None? then None
    else Some(Observation(kind, txGrid, tx.value.0, tx.value.1, rxGrid, rx.value.0, rx.value.1,
                          snr, txCall, rxCall, powerDbm))
  }

  // --- plausibility ceiling ---------------------------------------------------

  datatype Cap = Cap(distanceKm: int, maxSnr: int)

  predicate SortedCaps(ceiling: seq<Cap>) {
    forall i, j :: 0 <= i < j < |ceiling| ==> NoLaxer(ceiling[i], ceiling[j])
  }

  /** Of two caps, `d` comes no later in the configured order than `c`. */
  predicate NoLaxer(d: Cap, c: Cap) {
    d.distanceKm < c.distanceKm || (d.distanceKm == c.distanceKm && d.maxSnr <= c.maxSnr)
  }

  predicate Reaches(c: Cap, distance: real) {
    distance >= c.distanceKm as real
  }

  /** For a ceiling sorted as the configuration sorts it: some cap of the largest distance not
      exceeding `distance` applies and is exceeded; of equal distances the laxest counts. */
  ghost predicate Exceeds(ceiling: seq<Cap>, distance: real, snr: int) {
    exists c :: c in ceiling && Reaches(c, distance) && snr > c.maxSnr
      && forall d :: d in ceiling && Reaches(d, distance) ==> NoLaxer(d, c)
  }

  /** The cap in force after the leading caps that `distance` reaches. */
  function CapInForce(ceiling: seq<Cap>, distance: real): (cap: Option<int>)
  {
    if ceiling == [] || !Reaches(ceiling[0], distance) then None
    else
      var later := CapInForce(ceiling[1..], distance);
      if later.Some? then later else Some(ceiling[0].maxSnr)
  }

  predicate SnrExceedsCeiling(ceiling: seq<Cap>, distance: real, snr: int) {
    var cap := CapInForce(ceiling, distance);
    cap.Some? && snr > cap.value
  }

  lemma CapIsLastReached(ceiling: seq<Cap>, distance: real, n: nat)
    requires n <= |ceiling|
    requires forall i :: 0 <= i < n ==> Reaches(ceiling[i], distance)
    requires n < |ceiling| ==> !Reaches(ceiling[n], distance)
    ensures CapInForce(ceiling, distance) == if n == 0 then None else Some(ceiling[n - 1].maxSnr)
  {
    if n > 0 {
      CapIsLastReached(ceiling[1..], distance, n - 1);
    }
  }

  /** `snr_exceeds_ceiling`: the loop over the sorted pairs with its early exit. */
  method ExceedsCeiling(ceiling: seq<Cap>, distance: real, snr: int) returns (exceeds: bool)
    ensures exceeds == SnrExceedsCeiling(ceiling, distance, snr)
    ensures SortedCaps(ceiling) ==> exceeds == Exceeds(ceiling, distance, snr)
  {
    var cap: Option<int> := None;
    var i := 0;
    while i < |ceiling|
      invariant i <= |ceiling|
      invariant forall j :: 0 <= j < i ==> Reaches(ceiling[j], distance)
      invariant cap == if i == 0 then None else Some(ceiling[i - 1].maxSnr)
    {
      if distance >= ceiling[i].distanceKm as real {
        cap := Some(ceiling[i].maxSnr);
      } else {
        break;
      }
      i := i + 1;
    }
    CapIsLastReached(ceiling, distance, i);
    exceeds := cap.Some? && snr > cap.value;
    if SortedCaps(ceiling) {
      CeilingMeaning(ceiling, distance, snr, i);
    }
  }

  lemma CeilingMeaning(ceiling: seq<Cap>, distance: real, snr: int, n: nat)
    requires SortedCaps(ceiling) && n <= |ceiling|
    requires forall i :: 0 <= i < n ==> Reaches(ceiling[i], distance)
    requires n < |ceiling| ==> !Reaches(ceiling[n], distance)
    ensures SnrExceedsCeiling(ceiling, distance, snr) == Exceeds(ceiling, distance, snr)
  {
    CapIsLastReached(ceiling, distance, n);
    if n > 0 {
      assert ceiling[n - 1] in ceiling;
    }
    assert forall i :: n <= i < |ceiling| ==> !Reaches(ceiling[i], distance);
    forall d | d in ceiling && Reaches(d, distance) ensures n > 0 && NoLaxer(d, ceiling[n - 1]) {
      var i :| 0 <= i < |ceiling| && ceiling[i] == d;
    }
  }

  /** Python's `sorted` on the pairs: by distance, then by SNR. */
  function SortedCeiling(caps: seq<Cap>): seq<Cap> {
    if caps == [] then [] else InsertCap(caps[|caps| - 1], SortedCeiling(caps[..|caps| - 1]))
  }

  function InsertCap(c: Cap, sorted: seq<Cap>): seq<Cap> {
    if sorted == [] || NoLaxer(c, sorted[0]) then [c] + sorted else [sorted[0]] + InsertCap(c, sorted[1..])
  }

  lemma {:induction false} InsertCapSorts(c: Cap, sorted: seq<Cap>)
    requires SortedCaps(sorted)
    ensures SortedCaps(InsertCap(c, sorted))
    ensures forall d :: d in InsertCap(c, sorted) <==> d == c || d in sorted
  {
    if sorted != [] && !NoLaxer(c, sorted[0]) {
      InsertCapSorts(c, sorted[1..]);
      var rest := InsertCap(c, sorted[1..]);
      assert sorted == [sorted[0]] + sorted[1..];
      forall i | 0 <= i < |rest| ensures NoLaxer(sorted[0], rest[i]) {
        assert rest[i] in rest;
      }
    }
  }

  lemma {:induction false} CeilingSorts(caps: seq<Cap>)
    ensures SortedCaps(SortedCeiling(caps))
    ensures forall c :: c in SortedCeiling(caps) <==> c in caps
  {
    if caps != [] {
      var n := |caps| - 1;
      CeilingSorts(caps[..n]);
      InsertCapSorts(caps[n], SortedCeiling(caps[..n]));
      assert caps == caps[..n] + [caps[n]];
    }
  }

  /** However the pairs are listed in the configuration, a decode is too strong exactly if it
      exceeds a cap that is in force: one of the largest distance reached, the laxest of those. */
  lemma ConfiguredCeilingMeaning(caps: seq<Cap>, distance: real, snr: int)
    ensures SnrExceedsCeiling(SortedCeiling(caps), distance, snr) <==> Exceeds(caps, distance, snr)
  {
    var ceiling := SortedCeiling(caps);
    CeilingSorts(caps);
    var n := ReachedPrefix(ceiling, distance);
    CeilingMeaning(ceiling, distance, snr, n);
  }

  function ReachedPrefix(ceiling: seq<Cap>, distance: real): (n: nat)
    ensures n <= |ceiling|
    ensures forall i :: 0 <= i < n ==> Reaches(ceiling[i], distance)
    ensures n < |ceiling| ==> !Reaches(ceiling[n], distance)
  {
    if ceiling == [] || !Reaches(ceiling[0], distance) then 0 else 1 + ReachedPrefix(ceiling[1..], distance)
  }

  // --- blacklist --------------------------------------------------------------

  /** Grids and callsigns are kept upper-case, frequencies as inclusive ranges in Hz. */
  datatype Blacklist = Blacklist(grids: set<string>, calls: set<string>, freqs: seq<(int, int)>) {

    predicate ListsGrid(grid: string) {
      Upper(grid) in grids
    }

    predicate ListsCall(call: Option<string>) {
      call.Some? && call.value != "" && Upper(call.value) in calls
    }

    predicate ListsFreq(freqHz: int) {
      exists i :: 0 <= i < |freqs| && freqs[i].0 <= freqHz <= freqs[i].1
    }

    predicate Blocks(txGrid: Option<string>, txCall: Option<string>, freqHz: int) {
      || (txGrid.Some? && txGrid.value != "" && ListsGrid(txGrid.value))
      || ListsCall(txCall)
      || ListsFreq(freqHz)
    }
  }

  // --- entries of the configuration -------------------------------------------

  predicate IsSeparator(c: char) {
    c == ',' || IsSpace(c)
  }

  function CommasToSpaces(raw: string): (s: string)
    ensures |s| == |raw| && forall i :: 0 <= i < |raw| ==> (IsSpace(s[i]) <==> IsSeparator(raw[i]))
    ensures forall i :: 0 <= i < |raw| && !IsSpace(s[i]) ==> s[i] == raw[i]
  {
    seq(|raw|, i requires 0 <= i < |raw| => if raw[i] == ',' then ' ' else raw[i])
  }

  /** `re.split(r"[,\s]+", raw)` without the empty parts. */
  function Entries(raw: string): seq<string> {
    Split(CommasToSpaces(raw))
  }

  /** A stretch without commas and spaces that cannot be made longer. */
  ghost predicate IsEntry(raw: string, i: int, j: int) {
    && 0 <= i < j <= |raw|
    && (forall k :: i <= k < j ==> !IsSeparator(raw[k]))
    && (i > 0 ==> IsSeparator(raw[i - 1])) && (j < |raw| ==> IsSeparator(raw[j]))
  }

  lemma EntryIsToken(raw: string, i: int, j: int)
    ensures var s := CommasToSpaces(raw);
            && (IsEntry(raw, i, j) <==> IsToken(s, i, j))
            && (IsEntry(raw, i, j) ==> s[i..j] == raw[i..j])
  {
    var s := CommasToSpaces(raw);
    if IsEntry(raw, i, j) {
      forall k | i <= k < j ensures !IsSpace(s[k]) && s[k] == raw[k] {
        assert !IsSeparator(raw[k]);
      }
    }
    if IsToken(s, i, j) {
      forall k | i <= k < j ensures !IsSeparator(raw[k]) {
        assert !IsSpace(s[k]);
      }
    }
  }

  /** The entries of a configured list are exactly the longest stretches between separators. */
  lemma EntriesExactly(raw: string, t: string)
    ensures t in Entries(raw) <==> exists i, j :: IsEntry(raw, i, j) && raw[i..j] == t
  {
    var s := CommasToSpaces(raw);
    SplitExactly(s, t);
    if HasToken(s, t) {
      var i, j :| IsToken(s, i, j) && s[i..j] == t;
      EntryIsToken(raw, i, j);
    }
    if i, j :| IsEntry(raw, i, j) && raw[i..j] == t {
      EntryIsToken(raw, i, j);
    }
  }

  // --- reading the blacklist from the configuration ---------------------------

  const FREQ_TOL_HZ := 10

  /** The position of the first `c`, or the length. */
  function Find(s: string, c: char): (i: nat)
    ensures i <= |s|
    ensures i < |s| ==> s[i] == c
    ensures forall j :: 0 <= j < i ==> s[j] != c
  {
    if s == "" || s[0] == c then 0 else 1 + Find(s[1..], c)
  }

  /** `int` on plain or signed digits. */
  function ParseInt(s: string): Option<int> {
    var negative := s != "" && s[0] == '-';
    var digits := if s != "" && s[0] in {'-', '+'} then s[1..] else s;
    if digits == "" || !AllDigits(digits) then None
    else
      var v: int := DecimalValue(digits);
      Some(if negative then -v else v)
  }

  /** One entry of the frequency list: a range in Hz, or a value with the tolerance around it. */
  function ParseFreq(tok: string): Option<(int, int)> {
    var i := Find(tok, '-');
    if i < |tok| then
      var lo, hi := ParseInt(tok[..i]), ParseInt(tok[i + 1..]);
      if lo.None? || hi.None? then None else Some((lo.value, hi.value))
    else
      var v := ParseInt(tok);
      if v.None? then None else Some((v.value - FREQ_TOL_HZ, v.value + FREQ_TOL_HZ))
  }

  function UpperSet(tokens: seq<string>): set<string> {
    set t | t in tokens :: Upper(t)
  }

  /** What the configured lists ask to be blocked: the grid or the callsign of an entry, whatever
      the case, or a frequency in the range of an entry. */
  ghost predicate Listed(grids: seq<string>, calls: seq<string>, freqs: seq<string>,
                         grid: Option<string>, call: Option<string>, freqHz: int)
  {
    || (grid.Some? && grid.value != "" && exists g :: g in grids && Upper(g) == Upper(grid.value))
    || (call.Some? && call.value != "" && exists c :: c in calls && Upper(c) == Upper(call.value))
    || FreqListed(freqs, freqHz)
  }

  /** A frequency is in the range of one of the entries. */
  ghost predicate FreqListed(freqs: seq<string>, freqHz: int) {
    exists i :: 0 <= i < |freqs| && ParseFreq(freqs[i]).Some?
                && ParseFreq(freqs[i]).value.0 <= freqHz <= ParseFreq(freqs[i]).value.1
  }

  /** Reads every token, or nothing if one is malformed. */
  method ReadAll<T>(tokens: seq<string>, read: string -> Option<T>) returns (values: Option<seq<T>>)
    ensures values.None? <==> exists i :: 0 <= i < |tokens| && read(tokens[i]).None?
    ensures values.Some? ==> |values.value| == |tokens| && forall i :: 0 <= i < |tokens| ==>
              read(tokens[i]) == Some(values.value[i])
  {
    var done: seq<T> := [];
    for i := 0 to |tokens|
      invariant |done| == i
      invariant forall j :: 0 <= j < i ==> read(tokens[j]) == Some(done[j])
    {
      var value := read(tokens[i]);
      if value.None? {
        return None;
      }
      done := done + [value.value];
    }
    return Some(done);
  }

  lemma RangesListFreqs(bl: Blacklist, freqs: seq<string>, freqHz: int)
    requires |bl.freqs| == |freqs| && forall j :: 0 <= j < |freqs| ==> ParseFreq(freqs[j]) == Some(bl.freqs[j])
    ensures bl.ListsFreq(freqHz) <==> FreqListed(freqs, freqHz)
  {
  }

  lemma BlocksIsListed(bl: Blacklist, grids: seq<string>, calls: seq<string>, freqs: seq<string>,
                       grid: Option<string>, call: Option<string>, freqHz: int)
    requires bl.grids == UpperSet(grids) && bl.calls == UpperSet(calls)
    requires bl.ListsFreq(freqHz) <==> FreqListed(freqs, freqHz)
    ensures bl.Blocks(grid, call, freqHz) <==> Listed(grids, calls, freqs, grid, call, freqHz)
  {
  }

  /** `_blacklist`; None stands for the configuration error. */
  method ReadBlacklist(grids: string, calls: string, freqs: string) returns (bl: Option<Blacklist>)
    ensures bl.None? <==> exists t :: t in Entries(freqs) && ParseFreq(t).None?
    ensures bl.Some? ==> BlocksListed(bl.value, Entries(grids), Entries(calls), Entries(freqs))
  {
    var ranges := ReadAll(Entries(freqs), ParseFreq);
    if ranges.None? {
      return None;
    }
    var built := Blacklist(UpperSet(Entries(grids)), UpperSet(Entries(calls)), ranges.value);
    forall g, c, f ensures built.Blocks(g, c, f) <==> Listed(Entries(grids), Entries(calls), Entries(freqs), g, c, f) {
      RangesListFreqs(built, Entries(freqs), f);
      BlocksIsListed(built, Entries(grids), Entries(calls), Entries(freqs), g, c, f);
    }
    return Some(built);
  }

  /** The blacklist blocks what the configured entries list. */
  ghost predicate BlocksListed(bl: Blacklist, grids: seq<string>, calls: seq<string>, freqs: seq<string>) {
    forall g, c, f :: bl.Blocks(g, c, f) <==> Listed(grids, calls, freqs, g, c, f)
  }

  // --- reading the ceiling from the configuration -----------------------------

  const MI_TO_KM := 1.609344

  /** One `distance:snr` entry; the distance is converted to whole kilometres. */
  function ParseCap(tok: string, factor: real): Option<Cap> {
    var i := Find(tok, ':');
    if i == |tok| then None
    else
      var dist, snr := ParseInt(tok[..i]), ParseInt(tok[i + 1..]);
      if dist.None? || snr.None? then None else Some(Cap(RoundHalfEven(dist.value as real * factor), snr.value))
  }

  ghost predicate Malformed(km: string, mi: string) {
    || (exists t :: t in Entries(km) && ParseCap(t, 1.0).None?)
    || (exists t :: t in Entries(mi) && ParseCap(t, MI_TO_KM).None?)
  }

  ghost predicate IsListedCap(km: string, mi: string, c: Cap) {
    || (exists t :: t in Entries(km) && ParseCap(t, 1.0) == Some(c))
    || (exists t :: t in Entries(mi) && ParseCap(t, MI_TO_KM) == Some(c))
  }

  lemma ListedCaps(tokens: seq<string>, factor: real, caps: seq<Cap>, c: Cap)
    requires |caps| == |tokens| && forall i :: 0 <= i < |tokens| ==> ParseCap(tokens[i], factor) == Some(caps[i])
    ensures c in caps <==> exists t :: t in tokens && ParseCap(t, factor) == Some(c)
  {
    if c in caps {
      var i :| 0 <= i < |caps| && caps[i] == c;
      assert tokens[i] in tokens;
    }
  }

  /** `_parse_snr_ceiling`: both lists, converted, merged and sorted. None stands for the
      configuration error. Whatever the units and the order of the entries, a decode is too strong
      exactly if it exceeds a listed cap of the largest distance reached, the laxest of those. */
  method ReadCeiling(km: string, mi: string) returns (ceiling: Option<seq<Cap>>, ghost listed: seq<Cap>)
    ensures ceiling.None? <==> Malformed(km, mi)
    ensures ceiling.Some? ==> && ceiling.value == SortedCeiling(listed)
                              && (forall c :: c in listed <==> IsListedCap(km, mi, c))
    ensures ceiling.Some? ==> forall distance, snr ::
              SnrExceedsCeiling(ceiling.value, distance, snr) <==> Exceeds(listed, distance, snr)
  {
    listed := [];
    var fromKm := ReadAll(Entries(km), t => ParseCap(t, 1.0));
    if fromKm.None? {
      return None, [];
    }
    var fromMi := ReadAll(Entries(mi), t => ParseCap(t, MI_TO_KM));
    if fromMi.None? {
      return None, [];
    }
    var caps := fromKm.value + fromMi.value;
    forall c ensures c in caps <==> IsListedCap(km, mi, c) {
      ListedCaps(Entries(km), 1.0, fromKm.value, c);
      ListedCaps(Entries(mi), MI_TO_KM, fromMi.value, c);
    }
    forall distance, snr
      ensures SnrExceedsCeiling(SortedCeiling(caps), distance, snr) <==> Exceeds(caps, distance, snr)
    {
      ConfiguredCeilingMeaning(caps, distance, snr);
    }
    return Some(SortedCeiling(caps)), caps;
  }

  /** A bare frequency blocks everything within the tolerance and nothing else. */
  lemma BareFrequencyHasTolerance(v: nat, freqHz: int)
    ensures ParseFreq(Decimal(v)) == Some((v - FREQ_TOL_HZ, v + FREQ_TOL_HZ))
  {
    var s := Decimal(v);
    var i := Find(s, '-');
    assert i < |s| ==> IsDigit(s[i]);
    assert IsDigit(s[0]);
    DecimalRoundTrip(v);
  }
}
