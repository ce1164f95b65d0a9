/** Point-to-point estimates (`propagation/channel.py`, `propagation/metrics.py`): which rows
    match a path at which locator precision, and what is reported about them. */
module Channel {
  import opened Text
  import opened Locator

  datatype Mode = FT8 | WSPR

  /** The stored columns the estimate reads. */
  datatype Row = Row(band: string, mode: Mode, observedAt: int, txGrid: string, rxGrid: string,
                     snrDb: int, powerDbm: Option<int>)

  const WIDEN_THRESHOLD := 3

  predicate HasPrefix(s: string, p: string) {
    p <= s
  }

  function Take(s: string, n: nat): string {
    if n <= |s| then s[..n] else s
  }

  function MinLength(origin: string, dest: string): nat {
    if |origin| < |dest| then |origin| else |dest|
  }

  /** `_precisions`: six, four and two characters as far as both ends have them. */
  function Precisions(origin: string, dest: string): (ps: seq<nat>)
    ensures ps != []
  {
    var cap := MinLength(origin, dest);
    if cap >= 6 then [6, 4, 2] else if cap >= 4 then [4, 2] else if cap >= 2 then [2] else [cap]
  }

  predicate Along(r: Row, o: string, d: string) {
    HasPrefix(r.txGrid, o) && HasPrefix(r.rxGrid, d)
  }

  /** A row of the path in either direction. */
  predicate OnPath(r: Row, o: string, d: string) {
    Along(r, o, d) || Along(r, d, o)
  }

  predicate Matches(r: Row, o: string, d: string, band: string, since: int, mode: Mode) {
    r.band == band && r.mode == mode && r.observedAt >= since && OnPath(r, o, d)
  }

  function MatchRows(store: seq<Row>, o: string, d: string, band: string, since: int, mode: Mode): (rows: seq<Row>)
    ensures forall r :: r in rows <==> r in store && Matches(r, o, d, band, since, mode)
  {
    if store == [] then []
    else
      var n := |store| - 1;
      var before := MatchRows(store[..n], o, d, band, since, mode);
      assert store == store[..n] + [store[n]];
      if Matches(store[n], o, d, band, since, mode) then before + [store[n]] else before
  }

  // --- summaries --------------------------------------------------------------

  predicate Ascending(xs: seq<int>) {
    forall i, j :: 0 <= i < j < |xs| ==> xs[i] <= xs[j]
  }

  function InsertInt(x: int, ys: seq<int>): (zs: seq<int>)
    ensures |zs| == |ys| + 1
  {
    if ys == [] || x <= ys[0] then [x] + ys else [ys[0]] + InsertInt(x, ys[1..])
  }

  function SortedInts(xs: seq<int>): (ys: seq<int>)
    ensures |ys| == |xs|
  {
    if xs == [] then [] else InsertInt(xs[|xs| - 1], SortedInts(xs[..|xs| - 1]))
  }

  lemma {:induction false} InsertAdds(x: int, ys: seq<int>)
    ensures multiset(InsertInt(x, ys)) == multiset(ys) + multiset{x}
  {
    if ys != [] && x > ys[0] {
      InsertAdds(x, ys[1..]);
      assert ys == [ys[0]] + ys[1..];
    }
  }

  lemma {:induction false} InsertAscends(x: int, ys: seq<int>, low: int)
    requires Ascending(ys) && low <= x && (ys != [] ==> low <= ys[0])
    ensures Ascending(InsertInt(x, ys)) && low <= InsertInt(x, ys)[0]
  {
    if ys != [] && x > ys[0] {
      InsertAscends(x, ys[1..], ys[0]);
    }
  }

  /** The order statistics behind every median: the same numbers, ascending. */
  lemma {:induction false} SortedIntsSorts(xs: seq<int>)
    ensures Ascending(SortedInts(xs)) && multiset(SortedInts(xs)) == multiset(xs)
  {
    if xs != [] {
      var n := |xs| - 1;
      assert xs == xs[..n] + [xs[n]];
      SortedIntsSorts(xs[..n]);
      var sorted := SortedInts(xs[..n]);
      InsertAdds(xs[n], sorted);
      InsertAscends(xs[n], sorted, if sorted != [] && sorted[0] < xs[n] then sorted[0] else xs[n]);
    }
  }

  /** `statistics.median`. */
  function Median(xs: seq<int>): real
    requires xs != []
  {
    var s, n := SortedInts(xs), |xs|;
    if n % 2 == 1 then s[n / 2] as real else (s[n / 2 - 1] + s[n / 2]) as real / 2.0
  }

  /** How many numbers of a list satisfy `p`. */
  function Count(xs: seq<int>, p: int -> bool): nat {
    if xs == [] then 0 else (if p(xs[0]) then 1 else 0) + Count(xs[1..], p)
  }

  lemma {:induction false} CountAppend(xs: seq<int>, ys: seq<int>, p: int -> bool)
    ensures Count(xs + ys, p) == Count(xs, p) + Count(ys, p)
  {
    if xs == [] {
      assert xs + ys == ys;
    } else {
      CountAppend(xs[1..], ys, p);
      assert (xs + ys)[1..] == xs[1..] + ys;
    }
  }

  lemma {:induction false} CountInserted(x: int, ys: seq<int>, p: int -> bool)
    ensures Count(InsertInt(x, ys), p) == Count(ys, p) + if p(x) then 1 else 0
  {
    if ys == [] || x <= ys[0] {
      assert ([x] + ys)[1..] == ys;
    } else {
      CountInserted(x, ys[1..], p);
      assert ([ys[0]] + InsertInt(x, ys[1..]))[1..] == InsertInt(x, ys[1..]);
    }
  }

  lemma {:induction false} CountSorted(xs: seq<int>, p: int -> bool)
    ensures Count(SortedInts(xs), p) == Count(xs, p)
  {
    if xs != [] {
      var n := |xs| - 1;
      CountSorted(xs[..n], p);
      CountInserted(xs[n], SortedInts(xs[..n]), p);
      CountAppend(xs[..n], [xs[n]], p);
      assert xs == xs[..n] + [xs[n]];
    }
  }

  /** If a stretch at either end has none, at most the others count. */
  lemma {:induction false} CountAtMost(xs: seq<int>, p: int -> bool, from: nat, to: nat)
    requires from <= to <= |xs| && (from == 0 || to == |xs|)
    requires forall i :: from <= i < to ==> !p(xs[i])
    ensures Count(xs, p) <= |xs| - (to - from)
  {
    if xs != [] {
      CountAtMost(xs[1..], p, if from > 0 then from - 1 else 0, if to > 0 then to - 1 else 0);
    }
  }

  /** Between the two middle numbers, all up to the first and from the second on are bounded. */
  lemma MiddleBounds(s: seq<int>, a: nat, b: nat, m: real)
    requires Ascending(s) && a <= b < |s| && s[a] as real <= m <= s[b] as real
    ensures forall i :: 0 <= i <= a ==> s[i] as real <= m
    ensures forall i :: b <= i < |s| ==> s[i] as real >= m
  {
    assert forall i :: 0 <= i <= a ==> s[i] <= s[a];
    assert forall i :: b <= i < |s| ==> s[b] <= s[i];
  }

  /** At the least, half of the sorted numbers are at most the median, and half at least. */
  lemma MedianIsMiddle(xs: seq<int>)
    requires xs != []
    ensures var s, h := SortedInts(xs), |xs| / 2;
            && (forall i :: 0 <= i < |xs| - h ==> s[i] as real <= Median(xs))
            && (forall i :: h <= i < |xs| ==> s[i] as real >= Median(xs))
  {
    SortedIntsSorts(xs);
    var s, n, m := SortedInts(xs), |xs|, Median(xs);
    var a := if n % 2 == 1 then n / 2 else n / 2 - 1;
    assert s[a] <= s[n / 2];
    assert s[a] as real <= m <= s[n / 2] as real;
    MiddleBounds(s, a, n / 2, m);
  }

  /** At most half of the numbers lie above the median, and at most half below. */
  lemma MedianSplits(xs: seq<int>, m: real)
    requires xs != [] && m == Median(xs)
    ensures 2 * Count(xs, x => x as real > m) <= |xs|
    ensures 2 * Count(xs, x => (x as real) < m) <= |xs|
  {
    var s, h := SortedInts(xs), |xs| / 2;
    MedianIsMiddle(xs);
    CountSorted(xs, x => x as real > m);
    CountSorted(xs, x => (x as real) < m);
    CountAtMost(s, x => x as real > m, 0, |xs| - h);
    CountAtMost(s, x => (x as real) < m, h, |xs|);
  }

  /** `round(x, 1)` and `round(x, 2)`. */
  function Round1(x: real): real {
    RoundHalfEven(x * 10.0) as real / 10.0
  }

  function Round2(x: real): real {
    RoundHalfEven(x * 100.0) as real / 100.0
  }

  function RealMin(x: real, y: real): real {
    if x < y then x else y
  }

  function RealMax(x: real, y: real): real {
    if x < y then y else x
  }

  function VolumeFactor(observations: nat): real {
    RealMin(1.0, observations as real / 10.0)
  }

  function FreshnessFactor(age: int): real {
    RealMax(0.0, 1.0 - age as real / 1800.0)
  }

  function WidenFactor(levels: nat): real {
    if levels == 0 then 1.0 else 0.7 * WidenFactor(levels - 1)
  }

  function RawConfidence(observations: nat, age: int, levels: nat): real {
    VolumeFactor(observations) * (0.3 + 0.7 * FreshnessFactor(age)) * WidenFactor(levels)
  }

  function Confidence(observations: nat, age: int, levels: nat): real {
    Round2(RawConfidence(observations, age, levels))
  }

  const SNR_CEIL := 10.0

  /** The floor of the quality scale: WSPR decodes deeper. */
  function SnrFloor(mode: Mode): real {
    if mode == WSPR then -28.0 else -24.0
  }

  /** Where a median lies between floor and ceiling. */
  function OnScale(medianSnr: real, mode: Mode): real {
    RealMin(1.0, RealMax(0.0, (medianSnr - SnrFloor(mode)) / (SNR_CEIL - SnrFloor(mode))))
  }

  function Quality(medianSnr: real, mode: Mode): real {
    Round2(OnScale(medianSnr, mode))
  }

  lemma Round2Rises(x: real, y: real)
    requires x <= y
    ensures Round2(x) <= Round2(y)
  {
    assert x * 100.0 <= y * 100.0;
    RoundHalfEvenRises(x * 100.0, y * 100.0);
  }

  lemma RoundHalfEvenRises(x: real, y: real)
    requires x <= y
    ensures RoundHalfEven(x) <= RoundHalfEven(y)
  {
    assert x.Floor <= y.Floor;
  }

  lemma OnScaleRises(medianSnr: real, better: real, mode: Mode)
    requires medianSnr <= better
    ensures 0.0 <= OnScale(medianSnr, mode) <= OnScale(better, mode) <= 1.0
    ensures medianSnr <= SnrFloor(mode) ==> OnScale(medianSnr, mode) == 0.0
    ensures better >= SNR_CEIL ==> OnScale(better, mode) == 1.0
  {
    if mode == WSPR {
      assert (medianSnr + 28.0) / 38.0 <= (better + 28.0) / 38.0;
    } else {
      assert (medianSnr + 24.0) / 34.0 <= (better + 24.0) / 34.0;
    }
  }

  /** In both modes quality is a fraction, 0 up to the mode's floor, 1 from the ceiling on, and
      never falls as the median grows. */
  lemma QualityIsScale(medianSnr: real, better: real, mode: Mode)
    requires medianSnr <= better
    ensures 0.0 <= Quality(medianSnr, mode) <= Quality(better, mode) <= 1.0
    ensures medianSnr <= SnrFloor(mode) ==> Quality(medianSnr, mode) == 0.0
    ensures better >= SNR_CEIL ==> Quality(better, mode) == 1.0
  {
    OnScaleRises(medianSnr, better, mode);
    Round2Rises(0.0, OnScale(medianSnr, mode));
    Round2Rises(OnScale(medianSnr, mode), OnScale(better, mode));
    Round2Rises(OnScale(better, mode), 1.0);
    assert Round2(0.0) == 0.0 && Round2(1.0) == 1.0;
  }

  function MaxTime(rows: seq<Row>): (t: int)
    requires rows != []
    ensures exists r :: r in rows && r.observedAt == t
    ensures forall r :: r in rows ==> r.observedAt <= t
  {
    if |rows| == 1 then rows[0].observedAt
    else
      var t := MaxTime(rows[..|rows| - 1]);
      assert rows == rows[..|rows| - 1] + [rows[|rows| - 1]];
      if rows[|rows| - 1].observedAt > t then rows[|rows| - 1].observedAt else t
  }

  function Snrs(rows: seq<Row>): (xs: seq<int>)
    ensures |xs| == |rows|
  {
    seq(|rows|, i requires 0 <= i < |rows| => rows[i].snrDb)
  }

  /** Rows seen only in the reverse direction. */
  function Reciprocal(rows: seq<Row>, o: string, d: string): nat {
    if rows == [] then 0
    else
      var r := rows[|rows| - 1];
      Reciprocal(rows[..|rows| - 1], o, d) + if Along(r, d, o) && !Along(r, o, d) then 1 else 0
  }

  /** Rows that match in both directions. */
  function BothWays(rows: seq<Row>, o: string, d: string): nat {
    if rows == [] then 0
    else
      var r := rows[|rows| - 1];
      BothWays(rows[..|rows| - 1], o, d) + if Along(r, d, o) && Along(r, o, d) then 1 else 0
  }

  function Powered(rows: seq<Row>): seq<Row> {
    if rows == [] then []
    else
      var before, r := Powered(rows[..|rows| - 1]), rows[|rows| - 1];
      if r.powerDbm.Some? then before + [r] else before
  }

  /** The SNRs of powered rows, moved to the reference power. */
  function RefSnrs(rows: seq<Row>, refPower: int): seq<int> {
    var p := Powered(rows);
    seq(|p|, i requires 0 <= i < |p| => p[i].snrDb + (refPower - p[i].powerDbm.GetOr(refPower)))
  }

  function Powers(rows: seq<Row>): seq<int> {
    var p := Powered(rows);
    seq(|p|, i requires 0 <= i < |p| => p[i].powerDbm.GetOr(0))
  }

  /** The mode-specific part: quality for FT8, reference SNR and power for WSPR. */
  datatype Detail = Ft8Detail(quality: real) | WsprDetail(refSnrDb: Option<real>, medianPowerDbm: Option<int>)

  datatype Summary = Summary(medianSnrDb: real, confidence: real, observations: nat, reciprocal: nat,
                             lastSeen: int, matchPrecision: nat, detail: Detail)

  function MakeDetail(rows: seq<Row>, mode: Mode, medianSnr: real, refPower: int): Detail {
    if mode == FT8 then Ft8Detail(Quality(medianSnr, FT8))
    else
      var refs, powers := RefSnrs(rows, refPower), Powers(rows);
      WsprDetail(if refs == [] then None else Some(Round1(Median(refs))),
                 if powers == [] then None else Some(RoundHalfEven(Median(powers))))
  }

  function Summarize(rows: seq<Row>, o: string, d: string, at: int, precision: nat, requested: nat, mode: Mode,
                     refPower: int)
    : Summary
    requires rows != [] && precision <= requested
  {
    var medianSnr := Round1(Median(Snrs(rows)));
    Summary(medianSnr, Confidence(|rows|, at - MaxTime(rows), (requested - precision) / 2),
            |rows|, Reciprocal(rows, o, d), MaxTime(rows), precision, MakeDetail(rows, mode, medianSnr, refPower))
  }

  // --- the estimate of one mode -----------------------------------------------

  datatype Query = Query(origin: string, dest: string, band: string, since: int, at: int, widen: bool, mode: Mode,
                         refPower: int)

  function Ladder(q: Query): (ps: seq<nat>)
    ensures ps != []
  {
    var ps := Precisions(q.origin, q.dest);
    if q.widen then ps else ps[..1]
  }

  function RowsAt(store: seq<Row>, q: Query, p: nat): seq<Row> {
    MatchRows(store, Take(q.origin, p), Take(q.dest, p), q.band, q.since, q.mode)
  }

  /** `_mode_estimate` from the i-th precision on. */
  function EstimateFrom(store: seq<Row>, q: Query, i: nat): Option<Summary>
    requires i <= |Ladder(q)|
    decreases |Ladder(q)| - i
  {
    var ps := Ladder(q);
    if i == |ps| then None
    else
      var rows := RowsAt(store, q, ps[i]);
      if |rows| >= WIDEN_THRESHOLD || (i == |ps| - 1 && rows != []) then
        LadderDescends(q);
        Some(Summarize(rows, Take(q.origin, ps[i]), Take(q.dest, ps[i]), q.at, ps[i], ps[0], q.mode, q.refPower))
      else EstimateFrom(store, q, i + 1)
  }

  function Estimate(store: seq<Row>, q: Query): Option<Summary> {
    EstimateFrom(store, q, 0)
  }

  lemma LadderDescends(q: Query)
    ensures var ps := Ladder(q); forall i, j :: 0 <= i <= j < |ps| ==> ps[j] <= ps[i] <= |q.origin| && ps[i] <= |q.dest|
  {
  }

  /** Matches only grow as the precision drops. */
  lemma CoarserMatchesMore(store: seq<Row>, q: Query, p: nat, p': nat)
    requires p' <= p <= |q.origin| && p <= |q.dest|
    ensures forall r :: r in RowsAt(store, q, p) ==> r in RowsAt(store, q, p')
    ensures |RowsAt(store, q, p)| <= |RowsAt(store, q, p')|
  {
    var o, d, o', d' := Take(q.origin, p), Take(q.dest, p), Take(q.origin, p'), Take(q.dest, p');
    assert o' == Take(o, p') && d' == Take(d, p');
    forall r | Matches(r, o, d, q.band, q.since, q.mode) ensures Matches(r, o', d', q.band, q.since, q.mode) {
    }
    MoreMatches(store, o, d, o', d', q.band, q.since, q.mode);
  }

  lemma {:induction false} MoreMatches(store: seq<Row>, o: string, d: string, o': string, d': string, band: string,
                                       since: int, mode: Mode)
    requires forall r :: Matches(r, o, d, band, since, mode) ==> Matches(r, o', d', band, since, mode)
    ensures |MatchRows(store, o, d, band, since, mode)| <= |MatchRows(store, o', d', band, since, mode)|
  {
    if store != [] {
      MoreMatches(store[..|store| - 1], o, d, o', d', band, since, mode);
    }
  }

  /** `_mode_estimate`: the loop over precisions with its early return. */
  method ModeEstimate(store: seq<Row>, q: Query) returns (e: Option<Summary>)
    ensures e == Estimate(store, q)
  {
    var ps := Ladder(q);
    LadderDescends(q);
    for i := 0 to |ps|
      invariant Estimate(store, q) == EstimateFrom(store, q, i)
    {
      var rows := RowsAt(store, q, ps[i]);
      var last := i == |ps| - 1;
      if |rows| >= WIDEN_THRESHOLD || (last && rows != []) {
        return Some(Summarize(rows, Take(q.origin, ps[i]), Take(q.dest, ps[i]), q.at, ps[i], ps[0], q.mode,
                              q.refPower));
      }
    }
    return None;
  }

  // --- widening ---------------------------------------------------------------

  ghost predicate Enough(store: seq<Row>, q: Query, p: nat) {
    |RowsAt(store, q, p)| >= WIDEN_THRESHOLD
  }

  /** Which precision answers a query: none, if the coarsest matches no row; otherwise the finest
      with enough rows, or the coarsest if none has enough. */
  ghost predicate Answers(store: seq<Row>, q: Query, p: Option<nat>) {
    var ps := Ladder(q);
    var last := ps[|ps| - 1];
    match p
    case None => RowsAt(store, q, last) == []
    case Some(n) =>
      && n in ps && RowsAt(store, q, n) != []
      && (Enough(store, q, n) || n == last)
      && (forall i :: 0 <= i < |ps| && Enough(store, q, ps[i]) ==> Enough(store, q, n) && ps[i] <= n)
  }

  lemma {:induction false} EstimateFromAnswers(store: seq<Row>, q: Query, i: nat)
    requires i < |Ladder(q)| && forall j :: 0 <= j < i ==> !Enough(store, q, Ladder(q)[j])
    ensures var e := EstimateFrom(store, q, i);
            && Answers(store, q, if e.Some? then Some(e.value.matchPrecision) else None)
            && (e.Some? ==> e.value.observations == |RowsAt(store, q, e.value.matchPrecision)|)
    decreases |Ladder(q)| - i
  {
    var ps := Ladder(q);
    LadderDescends(q);
    var rows := RowsAt(store, q, ps[i]);
    if |rows| >= WIDEN_THRESHOLD || (i == |ps| - 1 && rows != []) {
      assert ps[i] in ps;
    } else if i + 1 < |ps| {
      EstimateFromAnswers(store, q, i + 1);
    }
  }

  /** Widening is exact: the reported precision is the one that should answer, the count is the
      number of rows there, and there is no report exactly when no precision matches any row. */
  lemma WideningIsExact(store: seq<Row>, q: Query)
    ensures var e := Estimate(store, q);
            && Answers(store, q, if e.Some? then Some(e.value.matchPrecision) else None)
            && (e.Some? ==> e.value.observations == |RowsAt(store, q, e.value.matchPrecision)|)
            && (e == None <==> forall p :: p in Ladder(q) ==> RowsAt(store, q, p) == [])
  {
    EstimateFromAnswers(store, q, 0);
    var ps := Ladder(q);
    LadderDescends(q);
    forall p | p in ps ensures |RowsAt(store, q, p)| <= |RowsAt(store, q, ps[|ps| - 1])| {
      CoarserMatchesMore(store, q, p, ps[|ps| - 1]);
    }
  }

  // --- reciprocity ------------------------------------------------------------

  function Reversed(q: Query): Query {
    q.(origin := q.dest, dest := q.origin)
  }

  lemma {:induction false} MatchRowsSymmetric(store: seq<Row>, o: string, d: string, band: string, since: int,
                                              mode: Mode)
    ensures MatchRows(store, o, d, band, since, mode) == MatchRows(store, d, o, band, since, mode)
  {
    if store != [] {
      MatchRowsSymmetric(store[..|store| - 1], o, d, band, since, mode);
    }
  }

  lemma {:induction false} ReciprocalSplits(rows: seq<Row>, o: string, d: string)
    requires forall i :: 0 <= i < |rows| ==> OnPath(rows[i], o, d)
    ensures Reciprocal(rows, o, d) + Reciprocal(rows, d, o) + BothWays(rows, o, d) == |rows|
  {
    if rows != [] {
      ReciprocalSplits(rows[..|rows| - 1], o, d);
    }
  }

  /** The two directions of a path get the same report but for the reciprocal counts, and these
      count every row once except the rows that match both ways. */
  ghost predicate Mirrored(store: seq<Row>, q: Query, e: Option<Summary>, e': Option<Summary>) {
    && (e == None <==> e' == None)
    && (e.Some? ==>
          && e'.value == e.value.(reciprocal := e'.value.reciprocal)
          && var p := e.value.matchPrecision;
             e.value.reciprocal + e'.value.reciprocal
               + BothWays(RowsAt(store, q, p), Take(q.origin, p), Take(q.dest, p)) == e.value.observations)
  }

  lemma {:induction false} ReciprocityFrom(store: seq<Row>, q: Query, i: nat)
    requires i <= |Ladder(q)|
    ensures Ladder(Reversed(q)) == Ladder(q)
    ensures Mirrored(store, q, EstimateFrom(store, q, i), EstimateFrom(store, Reversed(q), i))
    decreases |Ladder(q)| - i
  {
    var ps := Ladder(q);
    assert Ladder(Reversed(q)) == ps;
    if i < |ps| {
      var o, d := Take(q.origin, ps[i]), Take(q.dest, ps[i]);
      MatchRowsSymmetric(store, o, d, q.band, q.since, q.mode);
      var rows := RowsAt(store, q, ps[i]);
      assert rows == RowsAt(store, Reversed(q), ps[i]);
      assert forall k :: 0 <= k < |rows| ==> rows[k] in rows;
      ReciprocalSplits(rows, o, d);
      ReciprocityFrom(store, q, i + 1);
    }
  }

  lemma Reciprocity(store: seq<Row>, q: Query)
    ensures Mirrored(store, q, Estimate(store, q), Estimate(store, Reversed(q)))
  {
    ReciprocityFrom(store, q, 0);
  }

  // --- confidence -------------------------------------------------------------

  lemma WidenFactorRange(levels: nat)
    ensures 0.0 <= WidenFactor(levels) <= 1.0
  {
  }

  lemma ProductRange(a: real, b: real, c: real, hi: real)
    requires 0.0 <= a <= 1.0 && 0.0 <= b <= hi && 0.0 <= c <= 1.0
    ensures 0.0 <= a * b * c <= hi
  {
    assert 0.0 <= a * b <= 1.0 * b;
    assert 0.0 <= (a * b) * c <= (a * b) * 1.0;
  }

  lemma RoundsIntoRange(x: real)
    requires 0.0 <= x <= 1.005
    ensures 0.0 <= Round2(x) <= 1.0
  {
    assert 0.0 <= x * 100.0 <= 100.5;
  }

  lemma ConfidenceRange(observations: nat, age: int, levels: nat)
    requires age >= -12
    ensures 0.0 <= Confidence(observations, age, levels) <= 1.0
  {
    WidenFactorRange(levels);
    ProductRange(VolumeFactor(observations), 0.3 + 0.7 * FreshnessFactor(age), WidenFactor(levels), 1.0047);
    RoundsIntoRange(RawConfidence(observations, age, levels));
  }

  /** Confidence is meant to lie between 0 and 1, but rows may be newer than the time of the query.
      It stays in the range for all counts and widenings exactly as long as the newest row is at
      most twelve seconds in the future. */
  lemma ConfidenceIsFractionIff(age: int)
    ensures (forall observations, levels :: 0.0 <= Confidence(observations, age, levels) <= 1.0) <==> age >= -12
  {
    if age >= -12 {
      forall observations: nat, levels: nat ensures 0.0 <= Confidence(observations, age, levels) <= 1.0 {
        ConfidenceRange(observations, age, levels);
      }
    } else {
      assert WidenFactor(0) == 1.0 && VolumeFactor(10) == 1.0;
      assert RawConfidence(10, age, 0) == 0.3 + 0.7 * FreshnessFactor(age) >= 1.00505;
      assert Confidence(10, age, 0) > 1.0;
    }
  }

  // --- the estimate over bands ------------------------------------------------

  datatype Block = Block(ft8: Option<Summary>, wspr: Option<Summary>)

  /** The parameters of `estimate` apart from the band list. */
  datatype Request = Request(origin: string, dest: string, since: int, at: int, widen: bool, refPower: int)

  function QueryFor(rq: Request, band: string, mode: Mode): Query {
    Query(rq.origin, rq.dest, band, rq.since, rq.at, rq.widen, mode, rq.refPower)
  }

  /** `_band_block`; None if neither mode has data. */
  function BandBlock(store: seq<Row>, rq: Request, band: string): Option<Block> {
    var f, w := Estimate(store, QueryFor(rq, band, FT8)), Estimate(store, QueryFor(rq, band, WSPR));
    if f.None? && w.None? then None else Some(Block(f, w))
  }

  function AllBands(store: seq<Row>): set<string> {
    set r | r in store :: r.band
  }

  /** `_candidate_bands`: bands with a recent row whose ends match the two-character fields. */
  function CandidateBands(store: seq<Row>, rq: Request): set<string> {
    set r | r in store && r.observedAt >= rq.since && OnPath(r, Take(rq.origin, 2), Take(rq.dest, 2)) :: r.band
  }

  /** The band results over a list of bands. */
  function BandResults(store: seq<Row>, rq: Request, bands: set<string>): map<string, Block> {
    map b | b in bands && BandBlock(store, rq, b).Some? :: BandBlock(store, rq, b).value
  }

  /** Whether the prefilter can be used: both ends name at least a field. */
  predicate NamesFields(origin: string, dest: string) {
    (|origin| >= 2 && |dest| >= 2) || |origin| == |dest|
  }

  lemma BlockHasRow(store: seq<Row>, rq: Request, band: string)
    requires BandBlock(store, rq, band).Some?
    ensures exists r, p, mode :: r in store && p in Ladder(QueryFor(rq, band, mode))
                                 && Matches(r, Take(rq.origin, p), Take(rq.dest, p), band, rq.since, mode)
  {
    var mode := if Estimate(store, QueryFor(rq, band, FT8)).Some? then FT8 else WSPR;
    var q := QueryFor(rq, band, mode);
    WideningIsExact(store, q);
    var p :| p in Ladder(q) && RowsAt(store, q, p) != [];
    var r := RowsAt(store, q, p)[0];
    assert r in RowsAt(store, q, p);
  }

  lemma FieldMatches(r: Row, origin: string, dest: string, p: nat)
    requires NamesFields(origin, dest) && p in Precisions(origin, dest)
    requires OnPath(r, Take(origin, p), Take(dest, p))
    ensures OnPath(r, Take(origin, 2), Take(dest, 2))
  {
    assert HasPrefix(Take(origin, p), Take(origin, 2)) && HasPrefix(Take(dest, p), Take(dest, 2));
  }

  lemma PrefilterKeeps(store: seq<Row>, rq: Request, band: string)
    requires NamesFields(rq.origin, rq.dest) && BandBlock(store, rq, band).Some?
    ensures band in CandidateBands(store, rq) && band in AllBands(store)
  {
    BlockHasRow(store, rq, band);
    var r, p, mode :| r in store && p in Ladder(QueryFor(rq, band, mode))
                      && Matches(r, Take(rq.origin, p), Take(rq.dest, p), band, rq.since, mode);
    FieldMatches(r, rq.origin, rq.dest, p);
  }

  lemma PrefilterIsLossless(store: seq<Row>, rq: Request)
    requires NamesFields(rq.origin, rq.dest)
    ensures BandResults(store, rq, CandidateBands(store, rq)) == BandResults(store, rq, AllBands(store))
  {
    forall b | BandBlock(store, rq, b).Some? ensures b in CandidateBands(store, rq) && b in AllBands(store) {
      PrefilterKeeps(store, rq, b);
    }
  }

  lemma OneRowEstimates(store: seq<Row>, rq: Request, r: Row, p: nat)
    requires r in store && p in Ladder(QueryFor(rq, r.band, r.mode))
    requires Matches(r, Take(rq.origin, p), Take(rq.dest, p), r.band, rq.since, r.mode)
    ensures r.band in BandResults(store, rq, AllBands(store))
  {
    var q := QueryFor(rq, r.band, r.mode);
    assert r in RowsAt(store, q, p);
    WideningIsExact(store, q);
    assert r.band in AllBands(store);
  }

  /** Of two ends of different lengths, the shorter below two, the prefilter asks for more than
      the estimate does. */
  lemma ShortEndIsLost(origin: string, dest: string)
    requires !NamesFields(origin, dest)
    ensures var n := MinLength(origin, dest);
            && Precisions(origin, dest) == [n]
            && |Take(origin, n)| == |Take(dest, n)| == n
            && (|Take(origin, 2)| > n || |Take(dest, 2)| > n)
  {
  }

  lemma ShortRowIsOff(r: Row, o: string, d: string)
    requires |r.txGrid| == |r.rxGrid| && (|o| > |r.txGrid| || |d| > |r.txGrid|)
    ensures !OnPath(r, o, d)
  {
  }

  lemma LostRow(store: seq<Row>, rq: Request, r: Row)
    requires store == [r] && !OnPath(r, Take(rq.origin, 2), Take(rq.dest, 2))
    requires r.band in BandResults(store, rq, AllBands(store))
    ensures BandResults(store, rq, CandidateBands(store, rq)) != BandResults(store, rq, AllBands(store))
  {
    assert r.band !in CandidateBands(store, rq);
  }

  /** A store on which the prefilter loses an answer. */
  lemma PrefilterLoses(rq: Request) returns (store: seq<Row>)
    requires !NamesFields(rq.origin, rq.dest)
    ensures BandResults(store, rq, CandidateBands(store, rq)) != BandResults(store, rq, AllBands(store))
  {
    ShortEndIsLost(rq.origin, rq.dest);
    var n := MinLength(rq.origin, rq.dest);
    var r := Row("20m", FT8, rq.since, Take(rq.origin, n), Take(rq.dest, n), 0, None);
    store := [r];
    var ladder := Ladder(QueryFor(rq, r.band, r.mode));
    assert ladder == [n] && ladder[0] == n;
    assert r in store && n in ladder;
    OneRowEstimates(store, rq, r, n);
    ShortRowIsOff(r, Take(rq.origin, 2), Take(rq.dest, 2));
    LostRow(store, rq, r);
  }

  ghost predicate Lossless(rq: Request) {
    forall store :: BandResults(store, rq, CandidateBands(store, rq)) == BandResults(store, rq, AllBands(store))
  }

  /** The band prefilter loses nothing on any store exactly when both ends have at least two
      characters, or both are equally short. */
  lemma PrefilterLosslessIff(rq: Request)
    ensures Lossless(rq) <==> NamesFields(rq.origin, rq.dest)
  {
    if NamesFields(rq.origin, rq.dest) {
      forall store
        ensures BandResults(store, rq, CandidateBands(store, rq)) == BandResults(store, rq, AllBands(store))
      {
        PrefilterIsLossless(store, rq);
      }
    } else {
      var store := PrefilterLoses(rq);
    }
  }

  /** A recent row of the band and mode that matches at the coarsest precision to be tried. */
  predicate HasRow(store: seq<Row>, rq: Request, band: string, mode: Mode) {
    var p := Coarsest(rq);
    exists r :: r in store && Matches(r, Take(rq.origin, p), Take(rq.dest, p), band, rq.since, mode)
  }

  /** The field if widening is allowed, otherwise as much as both ends have of six, four or two
      characters; ends shorter than a field count as they are. */
  function Coarsest(rq: Request): nat {
    var n := MinLength(rq.origin, rq.dest);
    if n < 2 then n else if rq.widen || n < 4 then 2 else if n < 6 then 4 else 6
  }

  lemma ModeAnsweredIff(store: seq<Row>, rq: Request, band: string, mode: Mode)
    ensures Estimate(store, QueryFor(rq, band, mode)).Some? <==> HasRow(store, rq, band, mode)
  {
    var q, c := QueryFor(rq, band, mode), Coarsest(rq);
    var ladder := Ladder(q);
    WideningIsExact(store, q);
    assert ladder[|ladder| - 1] == c;
    if Estimate(store, q).Some? {
      var p :| p in ladder && RowsAt(store, q, p) != [];
      var r := RowsAt(store, q, p)[0];
      assert r in RowsAt(store, q, p);
      CoarsestMatches(r, rq, p);
      assert Matches(r, Take(rq.origin, c), Take(rq.dest, c), band, rq.since, mode);
    }
    if HasRow(store, rq, band, mode) {
      var r :| r in store && Matches(r, Take(rq.origin, c), Take(rq.dest, c), band, rq.since, mode);
      assert r in RowsAt(store, q, c);
    }
  }

  /** A band is answered for exactly if, in some mode, it has a recent row that matches at the
      coarsest precision, and then each mode is reported on exactly if it has one. */
  lemma BandAnsweredIff(store: seq<Row>, rq: Request, band: string)
    ensures var block := BandBlock(store, rq, band);
            && (block.Some? <==> HasRow(store, rq, band, FT8) || HasRow(store, rq, band, WSPR))
            && (block.Some? ==> && (block.value.ft8.Some? <==> HasRow(store, rq, band, FT8))
                                && (block.value.wspr.Some? <==> HasRow(store, rq, band, WSPR)))
  {
    ModeAnsweredIff(store, rq, band, FT8);
    ModeAnsweredIff(store, rq, band, WSPR);
  }

  lemma CoarsestMatches(r: Row, rq: Request, p: nat)
    requires p in (if rq.widen then Precisions(rq.origin, rq.dest) else Precisions(rq.origin, rq.dest)[..1])
    requires OnPath(r, Take(rq.origin, p), Take(rq.dest, p))
    ensures OnPath(r, Take(rq.origin, Coarsest(rq)), Take(rq.dest, Coarsest(rq)))
  {
    var c := Coarsest(rq);
    assert c <= p <= |rq.origin| && p <= |rq.dest|;
    assert HasPrefix(Take(rq.origin, p), Take(rq.origin, c)) && HasPrefix(Take(rq.dest, p), Take(rq.dest, c));
  }

  method BandBlockOf(store: seq<Row>, rq: Request, band: string) returns (block: Option<Block>)
    ensures block == BandBlock(store, rq, band)
  {
    var f := ModeEstimate(store, QueryFor(rq, band, FT8));
    var w := ModeEstimate(store, QueryFor(rq, band, WSPR));
    block := if f.None? && w.None? then None else Some(Block(f, w));
  }

  lemma OneMoreBand(store: seq<Row>, rq: Request, bands: set<string>, band: string, block: Option<Block>)
    requires block == BandBlock(store, rq, band)
    ensures var out := BandResults(store, rq, bands);
            BandResults(store, rq, bands + {band}) == if block.Some? then out[band := block.value] else out
  {
  }

  /** The loop of `estimate` over a band list. */
  method EstimateBands(store: seq<Row>, rq: Request, bands: seq<string>) returns (out: map<string, Block>)
    ensures out == BandResults(store, rq, set b | b in bands)
  {
    out := map[];
    ghost var done: set<string> := {};
    for i := 0 to |bands|
      invariant done == set b | b in bands[..i]
      invariant out == BandResults(store, rq, done)
    {
      assert bands[..i + 1] == bands[..i] + [bands[i]];
      var block := BandBlockOf(store, rq, bands[i]);
      OneMoreBand(store, rq, done, bands[i], block);
      if block.Some? {
        out := out[bands[i] := block.value];
      }
      done := done + {bands[i]};
    }
    assert bands[..|bands|] == bands;
  }

  // --- ranking ----------------------------------------------------------------

  /** The result dictionary in insertion order. */
  type Blocks = seq<(string, Block)>

  function Has(b: Block, mode: Mode): bool {
    if mode == FT8 then b.ft8.Some? else b.wspr.Some?
  }

  predicate AnyHas(blocks: Blocks, mode: Mode) {
    exists i :: 0 <= i < |blocks| && Has(blocks[i].1, mode)
  }

  function Basis(blocks: Blocks, requested: Mode): Mode {
    if AnyHas(blocks, requested) || !AnyHas(blocks, if requested == FT8 then WSPR else FT8) then requested
    else if requested == FT8 then WSPR else FT8
  }

  /** The sort key: quality times confidence, or the reference SNR, and the count. */
  function RankKey(b: Block, mode: Mode): (real, nat)
    requires Has(b, mode)
  {
    if mode == FT8 then
      var s := b.ft8.value;
      ((if s.detail.Ft8Detail? then s.detail.quality else 0.0) * s.confidence, s.observations)
    else
      var s := b.wspr.value;
      (if s.detail.WsprDetail? then s.detail.refSnrDb.GetOr(-999.0) else -999.0, s.observations)
  }

  predicate Below(a: (real, nat), b: (real, nat)) {
    a.0 < b.0 || (a.0 == b.0 && a.1 < b.1)
  }

  predicate Carry(blocks: Blocks, mode: Mode) {
    forall i :: 0 <= i < |blocks| ==> Has(blocks[i].1, mode)
  }

  function Carrying(blocks: Blocks, mode: Mode): (r: Blocks)
    ensures Carry(r, mode)
  {
    if blocks == [] then []
    else
      var before, last := Carrying(blocks[..|blocks| - 1], mode), blocks[|blocks| - 1];
      if Has(last.1, mode) then before + [last] else before
  }

  /** Inserts behind everything not below it, so that equal keys keep their order. */
  function Place(x: (string, Block), sorted: Blocks, mode: Mode): (r: Blocks)
    requires Has(x.1, mode) && Carry(sorted, mode)
    ensures Carry(r, mode) && multiset(r) == multiset(sorted) + multiset{x}
  {
    if sorted == [] || Below(RankKey(sorted[0].1, mode), RankKey(x.1, mode)) then
      [x] + sorted
    else
      assert sorted == [sorted[0]] + sorted[1..];
      [sorted[0]] + Place(x, sorted[1..], mode)
  }

  /** The stable descending sort of `_rank`. */
  function Ranked(blocks: Blocks, mode: Mode): (r: Blocks)
    requires Carry(blocks, mode)
    ensures Carry(r, mode) && multiset(r) == multiset(blocks)
  {
    if blocks == [] then []
    else
      var n := |blocks| - 1;
      assert blocks == blocks[..n] + [blocks[n]];
      Place(blocks[n], Ranked(blocks[..n], mode), mode)
  }

  predicate Descending(blocks: Blocks, mode: Mode)
    requires Carry(blocks, mode)
  {
    forall i, j :: 0 <= i < j < |blocks| ==> !Below(RankKey(blocks[i].1, mode), RankKey(blocks[j].1, mode))
  }

  lemma PlaceMembers(x: (string, Block), sorted: Blocks, mode: Mode)
    requires Has(x.1, mode) && Carry(sorted, mode)
    ensures forall b :: b in Place(x, sorted, mode) ==> b == x || b in sorted
  {
    var placed := Place(x, sorted, mode);
    forall b | b in placed ensures b == x || b in sorted {
      assert b in multiset(placed);
      assert b in multiset(sorted) + multiset{x};
    }
  }

  lemma FirstDescends(first: (string, Block), rest: Blocks, mode: Mode)
    requires Has(first.1, mode) && Carry(rest, mode) && Descending(rest, mode)
    requires forall j :: 0 <= j < |rest| ==> !Below(RankKey(first.1, mode), RankKey(rest[j].1, mode))
    ensures Carry([first] + rest, mode) && Descending([first] + rest, mode)
  {
  }

  lemma {:induction false} PlaceDescends(x: (string, Block), sorted: Blocks, mode: Mode)
    requires Has(x.1, mode) && Carry(sorted, mode) && Descending(sorted, mode)
    ensures Descending(Place(x, sorted, mode), mode)
  {
    if sorted == [] || Below(RankKey(sorted[0].1, mode), RankKey(x.1, mode)) {
      FirstDescends(x, sorted, mode);
    } else {
      PlaceDescends(x, sorted[1..], mode);
      PlaceMembers(x, sorted[1..], mode);
      var rest := Place(x, sorted[1..], mode);
      forall j | 0 <= j < |rest| ensures !Below(RankKey(sorted[0].1, mode), RankKey(rest[j].1, mode)) {
        assert rest[j] in rest;
      }
      FirstDescends(sorted[0], rest, mode);
    }
  }

  lemma {:induction false} RankedDescends(blocks: Blocks, mode: Mode)
    requires Carry(blocks, mode)
    ensures Descending(Ranked(blocks, mode), mode)
  {
    if blocks != [] {
      var n := |blocks| - 1;
      RankedDescends(blocks[..n], mode);
      PlaceDescends(blocks[n], Ranked(blocks[..n], mode), mode);
    }
  }

  lemma {:induction false} CarryingIsFilter(blocks: Blocks, mode: Mode)
    ensures forall b :: b in Carrying(blocks, mode) <==> b in blocks && Has(b.1, mode)
  {
    if blocks != [] {
      var n := |blocks| - 1;
      CarryingIsFilter(blocks[..n], mode);
      assert blocks == blocks[..n] + [blocks[n]];
    }
  }

  /** The ranking lists exactly the bands that carry its basis, best first, and is empty only if
      no band carries either mode. */
  lemma RankingIsComplete(blocks: Blocks, requested: Mode)
    ensures var mode := Basis(blocks, requested);
            var ranked := Ranked(Carrying(blocks, mode), mode);
            && Descending(ranked, mode)
            && (forall b :: b in ranked <==> b in blocks && Has(b.1, mode))
            && (ranked == [] <==> forall b, m :: b in blocks ==> !Has(b.1, m))
            && (AnyHas(blocks, requested) ==> mode == requested)
  {
    var mode := Basis(blocks, requested);
    var carrying := Carrying(blocks, mode);
    var ranked := Ranked(carrying, mode);
    RankedDescends(carrying, mode);
    CarryingIsFilter(blocks, mode);
    forall b ensures b in ranked <==> b in carrying {
      assert b in multiset(ranked) <==> b in multiset(carrying);
    }
    assert forall k :: 0 <= k < |blocks| && Has(blocks[k].1, mode) ==> blocks[k] in ranked;
    if ranked == [] {
      assert !AnyHas(blocks, mode);
      forall b, m | b in blocks ensures !Has(b.1, m) {
        var i :| 0 <= i < |blocks| && blocks[i] == b;
        assert !AnyHas(blocks, m);
      }
    } else {
      assert ranked[0] in ranked;
    }
  }
}
