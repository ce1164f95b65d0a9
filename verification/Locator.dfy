/** Maidenhead locators: the monitor's `grid_to_latlon` (`monitor/observations.py`) and the
    query side's `grid_center`, `latlon_to_grid` and `parse_point` (`propagation/geo.py`),
    over exact reals with the four-decimal rounding written out. */
module Locator {
  import opened Text

  type Point = (real, real)  // latitude, longitude

  // --- rounding ---------------------------------------------------------------

  /** Python's `round` to an integer: to nearest, ties to even. */
  function RoundHalfEven(x: real): int {
    var f := x.Floor;
    var r := x - f as real;
    if r < 0.5 then f else if r > 0.5 then f + 1 else if f % 2 == 0 then f else f + 1
  }

  function Round4(x: real): real {
    RoundHalfEven(x * 10000.0) as real / 10000.0
  }

  lemma Round4Near(x: real)
    ensures x - 0.00005 <= Round4(x) <= x + 0.00005
  {
  }

  // --- which strings are locators ---------------------------------------------

  predicate Between(lo: char, c: char, hi: char) {
    lo <= c <= hi
  }

  predicate FieldPair(g: string)
    requires |g| >= 2
  {
    Between('A', g[0], 'R') && Between('A', g[1], 'R')
  }

  predicate SquarePair(g: string)
    requires |g| >= 4
  {
    IsDigit(g[2]) && IsDigit(g[3])
  }

  predicate SubsquarePair(g: string)
    requires |g| >= 6
  {
    Between('A', g[4], 'X') && Between('A', g[5], 'X')
  }

  /** A field, a square or a subsquare. */
  predicate IsLocator(g: string) {
    && |g| in {2, 4, 6}
    && FieldPair(g)
    && (|g| >= 4 ==> SquarePair(g))
    && (|g| >= 6 ==> SubsquarePair(g))
  }

  /** What the monitor's pattern accepts: a square or a subsquare. */
  predicate MatchesGridPattern(g: string) {
    IsLocator(g) && |g| >= 4
  }

  function Letter(c: char): int {
    c as int - 'A' as int
  }

  function Digit(c: char): int {
    c as int - '0' as int
  }

  // --- monitor side -----------------------------------------------------------

  /** `grid_to_latlon`; None stands for its ValueError. */
  function GridToLatLon(grid: string): Option<Point> {
    var g := Upper(Strip(grid));
    if !MatchesGridPattern(g) then None
    else
      var lon := -180.0 + Letter(g[0]) as real * 20.0 + Digit(g[2]) as real * 2.0;
      var lat := -90.0 + Letter(g[1]) as real * 10.0 + Digit(g[3]) as real * 1.0;
      if |g| == 6 then
        var lon' := lon + Letter(g[4]) as real * (2.0 / 24.0) + (2.0 / 24.0) / 2.0;
        var lat' := lat + Letter(g[5]) as real * (1.0 / 24.0) + (1.0 / 24.0) / 2.0;
        Some((Round4(lat'), Round4(lon')))
      else
        Some((Round4(lat + 0.5), Round4(lon + 1.0)))
  }

  // --- query side -------------------------------------------------------------

  /** `grid_center`; None stands for its ValueError. It checks less than the pattern does:
      letters beyond the last field and any fifth and sixth character get through. */
  function GridCenter(grid: string): Option<Point> {
    var g := Upper(Strip(grid));
    if |g| !in {2, 4, 6} || !IsUpper(g[0]) || !IsUpper(g[1]) then None
    else
      var lon := -180.0 + Letter(g[0]) as real * 20.0;
      var lat := -90.0 + Letter(g[1]) as real * 10.0;
      if |g| == 2 then Some((Round4(lat + 5.0), Round4(lon + 10.0)))
      else if !IsDigit(g[2]) || !IsDigit(g[3]) then None
      else
        var lon' := lon + Digit(g[2]) as real * 2.0;
        var lat' := lat + Digit(g[3]) as real * 1.0;
        if |g| == 4 then Some((Round4(lat' + 0.5), Round4(lon' + 1.0)))
        else
          var lon'' := lon' + Letter(g[4]) as real * (2.0 / 24.0);
          var lat'' := lat' + Letter(g[5]) as real * (1.0 / 24.0);
          Some((Round4(lat'' + (1.0 / 24.0) / 2.0), Round4(lon'' + (2.0 / 24.0) / 2.0)))
  }

  function Clamp(lo: real, x: real, hi: real): real {
    var y := if x < lo then lo else x;
    if y > hi then hi else y
  }

  function ClampLat(lat: real): real {
    Clamp(-90.0, lat, 89.9999)
  }

  function ClampLon(lon: real): real {
    Clamp(-180.0, lon, 179.9999)
  }

  /** Python's `x % m` on floats for a positive modulus. */
  function FloorMod(x: real, m: real): real
    requires m > 0.0
  {
    x - m * (x / m).Floor as real
  }

  /** The three cell numbers of one coordinate: `x` degrees above the origin, a cell of the
      square `unit` degrees wide (two for longitude, one for latitude). */
  function FieldIndex(x: real, unit: real): int
    requires unit > 0.0
  {
    (x / (10.0 * unit)).Floor
  }

  function SquareIndex(x: real, unit: real): int
    requires unit > 0.0
  {
    (FloorMod(x, 10.0 * unit) / unit).Floor
  }

  function SubsquareIndex(x: real, unit: real): int
    requires unit > 0.0
  {
    (FloorMod(x, unit) / (unit / 24.0)).Floor
  }

  /** `chr(i + ord(first))`. */
  function Char(first: char, i: int): char
    requires 0 <= i < 26 && first in {'A', '0'}
  {
    (first as int + i) as char
  }

  /** The cell numbers of a coordinate, for the two widths the program uses, are in range and
      locate it up to a remainder smaller than a subsquare. */
  lemma CellsOf(x: real, unit: real)
    requires unit == 1.0 || unit == 2.0
    requires 0.0 <= x < 180.0 * unit
    ensures 0 <= FieldIndex(x, unit) < 18 && 0 <= SquareIndex(x, unit) < 10 && 0 <= SubsquareIndex(x, unit) < 24
    ensures var r := x - unit * (10 * FieldIndex(x, unit) + SquareIndex(x, unit)) as real
                     - unit * (SubsquareIndex(x, unit) as real / 24.0);
            0.0 <= r < unit / 24.0
  {
    var f, q, s := FieldIndex(x, unit), SquareIndex(x, unit), SubsquareIndex(x, unit);
    if unit == 1.0 {
      assert f == (x / 10.0).Floor && q == (x - 10.0 * f as real).Floor;
      assert (x / 1.0).Floor == 10 * f + q;
      assert s == ((x - (10 * f + q) as real) / (1.0 / 24.0)).Floor;
    } else {
      assert f == (x / 20.0).Floor && q == ((x - 20.0 * f as real) / 2.0).Floor;
      assert (x / 2.0).Floor == 10 * f + q;
      assert s == ((x - 2.0 * (10 * f + q) as real) / (2.0 / 24.0)).Floor;
    }
  }

  /** `latlon_to_grid`. */
  function LatLonToGrid(p: Point, precision: int): string {
    var lat := ClampLat(p.0) + 90.0;
    var lon := ClampLon(p.1) + 180.0;
    CellsOf(lat, 1.0);
    CellsOf(lon, 2.0);
    var field := [Char('A', FieldIndex(lon, 2.0)), Char('A', FieldIndex(lat, 1.0))];
    if precision == 2 then field
    else
      var square := field + [Char('0', SquareIndex(lon, 2.0)), Char('0', SquareIndex(lat, 1.0))];
      if precision == 4 then square
      else square + [Char('A', SubsquareIndex(lon, 2.0)), Char('A', SubsquareIndex(lat, 1.0))]
  }

  // --- properties -------------------------------------------------------------

  /** Every point has a locator at every precision, and coarser ones are prefixes of finer. */
  lemma EncodingIsALocator(p: Point)
    ensures forall n :: n in {2, 4, 6} ==> IsLocator(LatLonToGrid(p, n)) && |LatLonToGrid(p, n)| == n
    ensures forall n :: n in {2, 4} ==> LatLonToGrid(p, n) == LatLonToGrid(p, 6)[..n]
  {
    CellsOf(ClampLat(p.0) + 90.0, 1.0);
    CellsOf(ClampLon(p.1) + 180.0, 2.0);
  }

  /** Half the height of a cell in degrees; its width is twice its height. */
  function HalfHeight(n: int): real {
    if n == 2 then 5.0 else if n == 4 then 0.5 else 1.0 / 48.0
  }

  lemma LocatorIsNormal(g: string)
    requires IsLocator(g)
    ensures Upper(Strip(g)) == g
  {
    assert StripLeft(g) == g && StripRight(g) == g;
    assert Upper(g) == g;
  }

  function SquareDigit(g: string, i: nat): int {
    if 2 <= i < |g| then Digit(g[i]) else 0
  }

  function SubsquareLetter(g: string, i: nat): int {
    if 4 <= i < |g| then Letter(g[i]) else 0
  }

  /** The centre of a cell in degrees above the origin, before rounding. */
  function CellCenter(n: int, f: int, q: int, s: int, unit: real): real {
    if n == 2 then unit * (10.0 * f as real + 5.0)
    else if n == 4 then unit * ((10 * f + q) as real + 0.5)
    else unit * ((10 * f + q) as real + s as real / 24.0 + 1.0 / 48.0)
  }

  function CenterLat(g: string): real
    requires IsLocator(g)
  {
    CellCenter(|g|, Letter(g[1]), SquareDigit(g, 3), SubsquareLetter(g, 5), 1.0) - 90.0
  }

  function CenterLon(g: string): real
    requires IsLocator(g)
  {
    CellCenter(|g|, Letter(g[0]), SquareDigit(g, 2), SubsquareLetter(g, 4), 2.0) - 180.0
  }

  lemma CenterOfLocator(g: string)
    requires IsLocator(g)
    ensures GridCenter(g) == Some((Round4(CenterLat(g)), Round4(CenterLon(g))))
  {
    LocatorIsNormal(g);
  }

  lemma CoordinateNear(n: int, x: real, unit: real)
    requires n in {2, 4, 6} && (unit == 1.0 || unit == 2.0) && 0.0 <= x < 180.0 * unit
    ensures var c := CellCenter(n, FieldIndex(x, unit), SquareIndex(x, unit), SubsquareIndex(x, unit), unit);
            -unit * HalfHeight(n) <= c - x <= unit * HalfHeight(n)
  {
    CellsOf(x, unit);
  }

  /** The centre of a point's cell is within half a cell of the clamped point, up to the
      rounding of the centre to four decimals. */
  lemma CenterIsNear(p: Point, n: int)
    requires n in {2, 4, 6}
    ensures GridCenter(LatLonToGrid(p, n)).Some?
    ensures var (lat, lon) := GridCenter(LatLonToGrid(p, n)).value;
            && -HalfHeight(n) - 0.00005 <= lat - ClampLat(p.0) <= HalfHeight(n) + 0.00005
            && -2.0 * HalfHeight(n) - 0.00005 <= lon - ClampLon(p.1) <= 2.0 * HalfHeight(n) + 0.00005
  {
    EncodingIsALocator(p);
    var g := LatLonToGrid(p, n);
    var x, y := ClampLat(p.0) + 90.0, ClampLon(p.1) + 180.0;
    CellsOf(x, 1.0);
    CellsOf(y, 2.0);
    CenterOfLocator(g);
    CoordinateNear(n, x, 1.0);
    CoordinateNear(n, y, 2.0);
    assert CenterLat(g) + 90.0 == CellCenter(n, FieldIndex(x, 1.0), SquareIndex(x, 1.0), SubsquareIndex(x, 1.0), 1.0);
    assert CenterLon(g) + 180.0 == CellCenter(n, FieldIndex(y, 2.0), SquareIndex(y, 2.0), SubsquareIndex(y, 2.0), 2.0);
    Round4Near(CenterLat(g));
    Round4Near(CenterLon(g));
  }

  lemma FieldUnique(x: real, unit: real, f: int)
    requires unit == 1.0 || unit == 2.0
    requires unit * (10 * f) as real <= x < unit * (10 * f + 10) as real
    ensures FieldIndex(x, unit) == f
  {
    if unit == 1.0 {
      assert FieldIndex(x, unit) == (x / 10.0).Floor;
    } else {
      assert FieldIndex(x, unit) == (x / 20.0).Floor;
    }
  }

  lemma SquareUnique(x: real, unit: real, f: int, q: int)
    requires unit == 1.0 || unit == 2.0
    requires 0 <= q < 10
    requires unit * (10 * f + q) as real <= x < unit * (10 * f + q + 1) as real
    ensures FieldIndex(x, unit) == f && SquareIndex(x, unit) == q
  {
    FieldUnique(x, unit, f);
    if unit == 1.0 {
      var y := x - 10.0 * f as real;
      assert FloorMod(x, 10.0 * unit) == y;
      assert q as real <= y < (q + 1) as real;
    } else {
      var y := (x - 20.0 * f as real) / 2.0;
      assert FloorMod(x, 10.0 * unit) / unit == y;
      assert q as real <= y < (q + 1) as real;
    }
  }

  lemma SubsquareUnique(x: real, unit: real, k: int, s: int)
    requires unit == 1.0 || unit == 2.0
    requires 0 <= s < 24
    requires unit * (k as real + s as real / 24.0) <= x < unit * (k as real + (s + 1) as real / 24.0)
    ensures SubsquareIndex(x, unit) == s
  {
    if unit == 1.0 {
      assert (x / 1.0).Floor == k;
      assert SubsquareIndex(x, unit) == ((x - k as real) / (1.0 / 24.0)).Floor;
    } else {
      assert (x / 2.0).Floor == k;
      assert SubsquareIndex(x, unit) == ((x - 2.0 * k as real) / (2.0 / 24.0)).Floor;
    }
  }

  lemma CenterIsInside(n: int, f: int, q: int, s: int, unit: real)
    requires n in {2, 4, 6} && (unit == 1.0 || unit == 2.0)
    requires 0 <= f < 18 && 0 <= q < 10 && 0 <= s < 24
    ensures unit / 48.0 <= CellCenter(n, f, q, s, unit) <= unit * 180.0 - unit / 48.0
  {
  }

  /** A coordinate within rounding distance of a cell's centre falls into that cell. */
  lemma CellFromCenter(n: int, f: int, q: int, s: int, unit: real, x: real)
    requires n in {2, 4, 6} && (unit == 1.0 || unit == 2.0)
    requires 0 <= f < 18 && 0 <= q < 10 && 0 <= s < 24
    requires -0.00005 <= x - CellCenter(n, f, q, s, unit) <= 0.00005
    ensures FieldIndex(x, unit) == f
    ensures n >= 4 ==> SquareIndex(x, unit) == q
    ensures n == 6 ==> SubsquareIndex(x, unit) == s
  {
    if n == 2 {
      FieldUnique(x, unit, f);
    } else {
      SquareUnique(x, unit, f, q);
      if n == 6 {
        SubsquareUnique(x, unit, 10 * f + q, s);
      }
    }
  }

  lemma EncodedLetters(p: Point, g: string)
    requires IsLocator(g)
    requires var x, y := ClampLat(p.0) + 90.0, ClampLon(p.1) + 180.0;
             && FieldIndex(x, 1.0) == Letter(g[1]) && FieldIndex(y, 2.0) == Letter(g[0])
             && (|g| >= 4 ==> SquareIndex(x, 1.0) == Digit(g[3]) && SquareIndex(y, 2.0) == Digit(g[2]))
             && (|g| == 6 ==> SubsquareIndex(x, 1.0) == Letter(g[5]) && SubsquareIndex(y, 2.0) == Letter(g[4]))
    ensures LatLonToGrid(p, |g|) == g
  {
    EncodingIsALocator(p);
    var e := LatLonToGrid(p, |g|);
    assert e[0] == g[0] && e[1] == g[1];
    assert |g| >= 4 ==> e[2] == g[2] && e[3] == g[3];
    assert |g| == 6 ==> e[4] == g[4] && e[5] == g[5];
  }

  /** Decoding a locator and encoding the centre again gives the locator back. */
  lemma DecodeEncode(g: string)
    requires IsLocator(g)
    ensures GridCenter(g).Some? && LatLonToGrid(GridCenter(g).value, |g|) == g
  {
    CenterOfLocator(g);
    var lat, lon := Round4(CenterLat(g)), Round4(CenterLon(g));
    Round4Near(CenterLat(g));
    Round4Near(CenterLon(g));
    CenterIsInside(|g|, Letter(g[1]), SquareDigit(g, 3), SubsquareLetter(g, 5), 1.0);
    CenterIsInside(|g|, Letter(g[0]), SquareDigit(g, 2), SubsquareLetter(g, 4), 2.0);
    CellFromCenter(|g|, Letter(g[1]), SquareDigit(g, 3), SubsquareLetter(g, 5), 1.0, lat + 90.0);
    CellFromCenter(|g|, Letter(g[0]), SquareDigit(g, 2), SubsquareLetter(g, 4), 2.0, lon + 180.0);
    assert ClampLat(lat) == lat && ClampLon(lon) == lon;
    EncodedLetters((lat, lon), g);
  }

  /** The round trip holds for exactly the locators among the strings `grid_center` accepts. */
  lemma RoundTripExactlyOnLocators(grid: string)
    requires GridCenter(grid).Some?
    ensures var g := Upper(Strip(grid));
            LatLonToGrid(GridCenter(grid).value, |g|) == g <==> IsLocator(g)
  {
    var g := Upper(Strip(grid));
    if IsLocator(g) {
      LocatorIsNormal(g);
      assert GridCenter(grid) == GridCenter(g);
      DecodeEncode(g);
    } else {
      EncodingIsALocator(GridCenter(grid).value);
    }
  }

  /** Both sides of the program place a locator at the same centre, and the query side accepts
      everything the monitor accepts. */
  lemma MonitorAgreesWithQueries(grid: string)
    requires GridToLatLon(grid).Some?
    ensures GridCenter(grid) == GridToLatLon(grid)
  {
  }

  /** The centre of every grid the monitor accepts is a real place, strictly inside the ranges
      the collector checks. */
  lemma CenterIsOnEarth(grid: string)
    requires GridToLatLon(grid).Some?
    ensures var (lat, lon) := GridToLatLon(grid).value; -90.0 < lat < 90.0 && -180.0 < lon < 180.0
  {
    var g := Upper(Strip(grid));
    MonitorAgreesWithQueries(grid);
    LocatorIsNormal(g);
    assert GridCenter(grid) == GridCenter(g);
    CenterOfLocator(g);
    Round4Near(CenterLat(g));
    Round4Near(CenterLon(g));
  }

  // --- parse_point ------------------------------------------------------------

  /** `parse_point` on a locator (the branch without a comma): normalised, or refused. */
  function ParseGridPoint(value: string): Option<string> {
    var g := Upper(Strip(value));
    if GridCenter(g).Some? then Some(g) else None
  }

  /** What it hands on is a locator only when the letters and the last pair are in range:
      "ZZ" is accepted although no such field exists. */
  lemma ParsePointAcceptsTooMuch()
    ensures ParseGridPoint("zz") == Some("ZZ") && !IsLocator("ZZ")
  {
    var v := "zz";
    assert StripLeft(v) == v && StripRight(v) == v;
    assert Upper(v) == "ZZ";
    assert Upper(Strip("ZZ")) == "ZZ";
  }
}
