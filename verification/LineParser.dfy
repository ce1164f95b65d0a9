/** The decode lines that ft8mon and wsprmon print (`parse_line` in `monitor/ft8_parser.py` and
    `monitor/wspr_parser.py`): five columns and a message. A line holds no line break. */
module LineParser {
  import opened Text
  import opened Locator
  import opened Observations
  import opened Ft8Pipeline

  // --- columns ----------------------------------------------------------------

  /** The word a text begins with and what is behind the spaces after it, if there are any. */
  function Column(s: string): Option<(string, string)> {
    var n := WordLength(s);
    if n == 0 || n == |s| then None else Some((s[..n], StripLeft(s[n..])))
  }

  function Columns(s: string, n: nat): Option<(seq<string>, string)>
    decreases n
  {
    if n == 0 then Some(([], s))
    else
      match Column(s)
      case None => None
      case Some((first, behind)) =>
        match Columns(behind, n - 1)
        case None => None
        case Some((others, rest)) => Some(([first] + others, rest))
  }

  predicate IsGap(s: string) {
    s != "" && forall i :: 0 <= i < |s| ==> IsSpace(s[i])
  }

  predicate BeginsDark(s: string) {
    s == "" || !IsSpace(s[0])
  }

  /** Columns with a gap behind each, and the rest. */
  function Lay(columns: seq<string>, gaps: seq<string>, rest: string): string
    requires |columns| == |gaps|
  {
    if columns == [] then rest else columns[0] + gaps[0] + Lay(columns[1..], gaps[1..], rest)
  }

  ghost predicate Layout(columns: seq<string>, gaps: seq<string>, rest: string) {
    AreWords(columns) && |gaps| == |columns| && (forall i :: 0 <= i < |gaps| ==> IsGap(gaps[i])) && BeginsDark(rest)
  }

  lemma {:induction false} StripGap(gap: string, rest: string)
    requires (forall i :: 0 <= i < |gap| ==> IsSpace(gap[i])) && BeginsDark(rest)
    ensures StripLeft(gap + rest) == rest
  {
    if gap == "" {
      assert gap + rest == rest;
    } else {
      StripGap(gap[1..], rest);
      assert (gap + rest)[1..] == gap[1..] + rest;
    }
  }

  lemma ColumnOf(first: string, gap: string, behind: string)
    requires IsWord(first) && IsGap(gap) && BeginsDark(behind)
    ensures Column(first + gap + behind) == Some((first, behind))
  {
    var s := first + gap + behind;
    assert s[..|first|] == first && s[|first|..] == gap + behind && s[|first|] == gap[0];
    WordLengthOf(first, s);
    StripGap(gap, behind);
  }

  lemma {:induction false} ColumnsOf(columns: seq<string>, gaps: seq<string>, rest: string)
    requires Layout(columns, gaps, rest)
    ensures Columns(Lay(columns, gaps, rest), |columns|) == Some((columns, rest))
    ensures BeginsDark(Lay(columns, gaps, rest))
  {
    if columns != [] {
      ColumnsOf(columns[1..], gaps[1..], rest);
      var behind := Lay(columns[1..], gaps[1..], rest);
      ColumnOf(columns[0], gaps[0], behind);
      assert [columns[0]] + columns[1..] == columns;
      assert Lay(columns, gaps, rest)[0] == columns[0][0];
    }
  }

  lemma {:induction false} GapBefore(s: string) returns (gap: string)
    ensures s == gap + StripLeft(s) && BeginsDark(StripLeft(s))
    ensures forall i :: 0 <= i < |gap| ==> IsSpace(gap[i])
  {
    if s != "" && IsSpace(s[0]) {
      var more := GapBefore(s[1..]);
      gap := [s[0]] + more;
      assert s == [s[0]] + s[1..];
    } else {
      gap := "";
    }
  }

  /** A column in front of a laid text. */
  lemma LayFirst(first: string, gap: string, columns: seq<string>, gaps: seq<string>, rest: string)
    requires IsWord(first) && IsGap(gap) && Layout(columns, gaps, rest)
    ensures Layout([first] + columns, [gap] + gaps, rest)
    ensures Lay([first] + columns, [gap] + gaps, rest) == first + gap + Lay(columns, gaps, rest)
  {
    assert ([first] + columns)[1..] == columns && ([gap] + gaps)[1..] == gaps;
  }

  lemma FirstColumn(s: string) returns (gap: string)
    requires Column(s).Some?
    ensures var (first, behind) := Column(s).value;
            IsWord(first) && IsGap(gap) && s == first + gap + behind && BeginsDark(behind)
  {
    var n := WordLength(s);
    gap := GapBefore(s[n..]);
    assert s == s[..n] + s[n..];
    assert IsSpace(s[n..][0]);
  }

  lemma {:induction false} ColumnsAreLaid(s: string, n: nat) returns (gaps: seq<string>)
    requires Columns(s, n).Some? && BeginsDark(Columns(s, n).value.1)
    ensures var (columns, rest) := Columns(s, n).value;
            Layout(columns, gaps, rest) && |columns| == n && s == Lay(columns, gaps, rest)
    decreases n
  {
    gaps := [];
    if n > 0 {
      var (first, behind) := Column(s).value;
      var (others, rest) := Columns(behind, n - 1).value;
      var gap := FirstColumn(s);
      gaps := ColumnsAreLaid(behind, n - 1);
      LayFirst(first, gap, others, gaps, rest);
      gaps := [gap] + gaps;
    }
  }

  lemma {:induction false} RestBeginsDark(s: string, n: nat)
    requires Columns(s, n).Some? && (n > 0 || BeginsDark(s))
    ensures BeginsDark(Columns(s, n).value.1)
    decreases n
  {
    if n > 0 {
      var gap := FirstColumn(s);
      RestBeginsDark(Column(s).value.1, n - 1);
    }
  }

  // --- numbers ----------------------------------------------------------------

  predicate IsNumber(s: string) {
    s != "" && AllDigits(s)
  }

  /** An optional minus sign before what `p` accepts. */
  predicate Signed(s: string, p: string -> bool) {
    p(if s != "" && s[0] == '-' then s[1..] else s)
  }

  /** Digits on both sides of a point. */
  predicate IsFixed(s: string) {
    var i := Find(s, '.');
    i < |s| && IsNumber(s[..i]) && IsNumber(s[i + 1..])
  }

  function Power10(n: nat): nat {
    if n == 0 then 1 else 10 * Power10(n - 1)
  }

  lemma Power10IsPositive(n: nat)
    ensures Power10(n) > 0
  {
  }

  function FixedValue(s: string): real
    requires IsFixed(s)
  {
    var i := Find(s, '.');
    var fraction := s[i + 1..];
    Power10IsPositive(|fraction|);
    DecimalValue(s[..i]) as real + DecimalValue(fraction) as real / Power10(|fraction|) as real
  }

  // --- the two formats --------------------------------------------------------

  predicate IsTime(s: string) {
    |s| == 6 && AllDigits(s)
  }

  /** Time, SNR, corrected bits, time offset, audio frequency. */
  predicate AreFt8Columns(c: seq<string>) {
    && |c| == 5 && IsTime(c[0]) && Signed(c[1], IsNumber) && IsNumber(c[2]) && Signed(c[3], IsFixed) && IsFixed(c[4])
  }

  /** Time, SNR, time offset, audio frequency, drift. */
  predicate AreWsprColumns(c: seq<string>) {
    && |c| == 5 && IsTime(c[0]) && Signed(c[1], IsNumber) && Signed(c[2], IsFixed) && IsFixed(c[3])
    && Signed(c[4], IsNumber)
  }

  /** SNR, rounded audio frequency and message of a line with these columns. */
  function DecodeOf(snr: string, freq: string, rest: string): Decode
    requires Signed(snr, IsNumber) && IsFixed(freq)
  {
    Decode(ParseInt(snr).value, RoundHalfEven(FixedValue(freq)), Strip(rest))
  }

  function ParseFt8(line: string): Option<Decode> {
    match Columns(line, 5)
    case None => None
    case Some((c, rest)) => if AreFt8Columns(c) then Some(DecodeOf(c[1], c[4], rest)) else None
  }

  function ParseWspr(line: string): Option<Decode> {
    match Columns(line, 5)
    case None => None
    case Some((c, rest)) => if AreWsprColumns(c) then Some(DecodeOf(c[1], c[3], rest)) else None
  }

  /** Exactly the lines of the format are decodes: five columns of the right kind, each with a gap
      of any width behind it, then the message. Nothing else is read into them. */
  lemma ParseFt8Exactly(line: string, d: Decode)
    ensures ParseFt8(line) == Some(d)
            <==> exists c, gaps, rest :: AreFt8Columns(c) && Layout(c, gaps, rest) && line == Lay(c, gaps, rest)
                                         && d == DecodeOf(c[1], c[4], rest)
  {
    if ParseFt8(line) == Some(d) {
      RestBeginsDark(line, 5);
      var gaps := ColumnsAreLaid(line, 5);
    }
    forall c, gaps, rest | AreFt8Columns(c) && Layout(c, gaps, rest) && line == Lay(c, gaps, rest)
      ensures ParseFt8(line) == Some(DecodeOf(c[1], c[4], rest))
    {
      ColumnsOf(c, gaps, rest);
    }
  }

  lemma ParseWsprExactly(line: string, d: Decode)
    ensures ParseWspr(line) == Some(d)
            <==> exists c, gaps, rest :: AreWsprColumns(c) && Layout(c, gaps, rest) && line == Lay(c, gaps, rest)
                                         && d == DecodeOf(c[1], c[3], rest)
  {
    if ParseWspr(line) == Some(d) {
      RestBeginsDark(line, 5);
      var gaps := ColumnsAreLaid(line, 5);
    }
    forall c, gaps, rest | AreWsprColumns(c) && Layout(c, gaps, rest) && line == Lay(c, gaps, rest)
      ensures ParseWspr(line) == Some(DecodeOf(c[1], c[3], rest))
    {
      ColumnsOf(c, gaps, rest);
    }
  }

  // --- lines can be printed ---------------------------------------------------

  lemma SignedReadsBack(n: int)
    ensures IsWord(SignedDecimal(n)) && Signed(SignedDecimal(n), IsNumber) && ParseInt(SignedDecimal(n)) == Some(n)
  {
    var size: nat := if n < 0 then -n else n;
    var digits := Decimal(size);
    DecimalRoundTrip(size);
    assert IsDigit(digits[0]);
    if n < 0 {
      assert SignedDecimal(n)[1..] == digits;
    }
  }

  /** A whole frequency as the decoder prints it. */
  function Tenths(freq: nat): string {
    Decimal(freq) + ".0"
  }

  lemma {:induction false} FindAfterDigits(digits: string, rest: string)
    requires AllDigits(digits) && rest != "" && rest[0] == '.'
    ensures Find(digits + rest, '.') == |digits|
  {
    if digits == "" {
      assert digits + rest == rest;
    } else {
      assert IsDigit(digits[0]);
      FindAfterDigits(digits[1..], rest);
      assert (digits + rest)[1..] == digits[1..] + rest;
    }
  }

  lemma TenthsReadBack(freq: nat)
    ensures IsWord(Tenths(freq)) && IsFixed(Tenths(freq)) && RoundHalfEven(FixedValue(Tenths(freq))) == freq
  {
    var digits := Decimal(freq);
    var s := Tenths(freq);
    FindAfterDigits(digits, ".0");
    assert s[..|digits|] == digits && s[|digits| + 1..] == "0";
    DecimalRoundTrip(freq);
    assert DecimalValue("0") == 0 by {
      assert "0"[..0] == "";
    }
    assert FixedValue(s) == freq as real;
    forall i | 0 <= i < |s| ensures !IsSpace(s[i]) {
      assert i < |digits| ==> IsDigit(s[i]);
    }
  }

  function PrintedColumns(snr: int, freq: nat): seq<string> {
    ["000000", SignedDecimal(snr), "0", "0.0", Tenths(freq)]
  }

  lemma PrintedColumnsAreWords(snr: int, freq: nat)
    ensures AreWords(PrintedColumns(snr, freq))
  {
    SignedReadsBack(snr);
    TenthsReadBack(freq);
    ZeroIsFixed();
  }

  lemma PrintedColumnsAreFt8(snr: int, freq: nat)
    ensures AreFt8Columns(PrintedColumns(snr, freq))
  {
    SignedReadsBack(snr);
    TenthsReadBack(freq);
    ZeroIsFixed();
  }

  lemma ZeroIsFixed()
    ensures Signed("0.0", IsFixed) && IsWord("0.0")
  {
    assert Find("0.0", '.') == 1 by {
      assert "0.0"[1..] == ".0";
    }
    assert "0.0"[..1] == "0" && "0.0"[2..] == "0";
  }

  /** Every decode of a message in words, at any strength and whole audio frequency, is what some
      line reads as. */
  lemma EveryDecodeIsPrinted(snr: int, freq: nat, words: seq<string>) returns (line: string)
    requires words != [] && AreWords(words)
    ensures ParseFt8(line) == Some(Decode(snr, freq, Join(words)))
  {
    var c, rest := PrintedColumns(snr, freq), Join(words);
    var gaps := [" ", " ", " ", " ", " "];
    PrintedColumnsAreWords(snr, freq);
    JoinEnds(words);
    JoinIsStripped(words);
    line := Lay(c, gaps, rest);
    ColumnsOf(c, gaps, rest);
    DecodeOfPrinted(snr, freq, rest);
  }

  lemma DecodeOfPrinted(snr: int, freq: nat, rest: string)
    requires Strip(rest) == rest
    ensures var c := PrintedColumns(snr, freq);
            AreFt8Columns(c) && DecodeOf(c[1], c[4], rest) == Decode(snr, freq, rest)
  {
    PrintedColumnsAreFt8(snr, freq);
    SignedReadsBack(snr);
    TenthsReadBack(freq);
  }
}
