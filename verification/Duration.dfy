/** Durations as text: `parse_duration` and `fmt_duration` of `common/config.py`. */
module Duration {
  import opened Text

  const UNITS: seq<(char, nat)> := [('d', 86400), ('h', 3600), ('m', 60)]

  function UnitSize(c: char): Option<nat> {
    match c
    case 's' => Some(1)
    case 'm' => Some(60)
    case 'h' => Some(3600)
    case 'd' => Some(86400)
    case _ => None
  }

  function DigitRun(s: string): (n: nat)
    ensures n <= |s| && AllDigits(s[..n])
    ensures n < |s| ==> !IsDigit(s[n])
  {
    if s == "" || !IsDigit(s[0]) then 0
    else
      var n := DigitRun(s[1..]);
      assert s[..n + 1] == [s[0]] + s[1..][..n];
      n + 1
  }

  /** Digits, optional space, an optional unit letter, and nothing else; None stands for the
      configuration error. */
  function Parse(value: string): Option<int> {
    var s := Strip(value);
    var n := DigitRun(s);
    var rest := StripLeft(s[n..]);
    if n == 0 || |rest| > 1 then None
    else
      var unit := if rest == "" then Some(1) else UnitSize(rest[0]);
      match unit
      case None => None
      case Some(size) => Some(DecimalValue(s[..n]) * size)
  }

  /** A positive whole number of units of the given size. */
  predicate IsWhole(seconds: int, size: nat)
    requires size > 0
  {
    seconds % size == 0 && seconds >= size
  }

  /** The scan of the unit table from `i` on, falling back to seconds. */
  function FormatFrom(seconds: int, i: nat): string
    requires i <= |UNITS|
    decreases |UNITS| - i
  {
    if i == |UNITS| then SignedDecimal(seconds) + "s"
    else if IsWhole(seconds, UNITS[i].1) then SignedDecimal(seconds / UNITS[i].1) + [UNITS[i].0]
    else FormatFrom(seconds, i + 1)
  }

  function Format(seconds: int): string {
    FormatFrom(seconds, 0)
  }

  lemma {:induction false} DigitRunOf(digits: string, c: char)
    requires AllDigits(digits) && !IsDigit(c)
    ensures DigitRun(digits + [c]) == |digits|
  {
    if digits != "" {
      assert (digits + [c])[1..] == digits[1..] + [c];
      DigitRunOf(digits[1..], c);
    }
  }

  lemma {:induction false} ParsePrinted(n: nat, c: char)
    requires UnitSize(c).Some?
    ensures Parse(Decimal(n) + [c]) == Some(n * UnitSize(c).value)
  {
    var digits := Decimal(n);
    var s := digits + [c];
    assert StripLeft(s) == s && StripRight(s) == s by { assert s[0] == digits[0] && s[|s| - 1] == c; }
    DigitRunOf(digits, c);
    assert s[..|digits|] == digits && s[|digits|..] == [c];
    assert StripLeft([c]) == [c];
    DecimalRoundTrip(n);
  }

  /** The unit letter and size that `Format` picks. */
  function Unit(seconds: int): (char, nat) {
    if IsWhole(seconds, 86400) then ('d', 86400)
    else if IsWhole(seconds, 3600) then ('h', 3600)
    else if IsWhole(seconds, 60) then ('m', 60)
    else ('s', 1)
  }

  lemma UnitIsLargest(seconds: nat)
    ensures var (c, size) := Unit(seconds);
            && UnitSize(c) == Some(size) && (seconds / size) * size == seconds
            && (seconds > 0 ==> forall c', size' :: UnitSize(c') == Some(size') && size' > size ==>
                seconds % size' != 0)
  {
    var (c, size) := Unit(seconds);
    assert seconds % size == 0;
    forall c', size' | seconds > 0 && UnitSize(c') == Some(size') && size' > size ensures seconds % size' != 0 {
      assert size' in {60, 3600, 86400};
    }
  }

  lemma FormatStep(seconds: int, i: nat)
    requires i < |UNITS|
    ensures FormatFrom(seconds, i) == if IsWhole(seconds, UNITS[i].1)
                                      then SignedDecimal(seconds / UNITS[i].1) + [UNITS[i].0]
                                      else FormatFrom(seconds, i + 1)
  {
  }

  lemma FormatPicksUnit(seconds: nat)
    ensures var (c, size) := Unit(seconds); Format(seconds) == Decimal(seconds / size) + [c]
  {
    FormatStep(seconds, 0);
    if Unit(seconds).0 != 'd' {
      FormatStep(seconds, 1);
      if Unit(seconds).0 != 'h' {
        FormatStep(seconds, 2);
      }
    }
  }

  /** The text is a whole number of units followed by the unit letter, and no larger unit of the
      table divides a positive number of seconds. */
  lemma FormatUsesLargestUnit(seconds: nat)
    ensures exists c, size, count: nat ::
              && UnitSize(c) == Some(size) && count * size == seconds
              && Format(seconds) == Decimal(count) + [c]
              && (seconds > 0 ==> forall c', size' :: UnitSize(c') == Some(size') && size' > size ==>
                  seconds % size' != 0)
  {
    UnitIsLargest(seconds);
    FormatPicksUnit(seconds);
    var (c, size) := Unit(seconds);
    var count: nat := seconds / size;
    assert Format(seconds) == Decimal(count) + [c];
  }

  /** A duration survives being printed and read back exactly when it is not negative. */
  lemma RoundTrip(seconds: int)
    ensures Parse(Format(seconds)) == Some(seconds) <==> seconds >= 0
  {
    if seconds >= 0 {
      FormatUsesLargestUnit(seconds);
      var c, size, count: nat :| UnitSize(c) == Some(size) && count * size == seconds
                                 && Format(seconds) == Decimal(count) + [c];
      ParsePrinted(count, c);
    } else {
      assert FormatFrom(seconds, 3) == SignedDecimal(seconds) + "s";
      assert Format(seconds) == FormatFrom(seconds, 1) == FormatFrom(seconds, 2) == FormatFrom(seconds, 3);
      var s := Format(seconds);
      assert s[0] == '-' && s[|s| - 1] == 's';
      assert Strip(s) == s;
    }
  }
}
