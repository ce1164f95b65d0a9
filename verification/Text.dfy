/** The few string operations of Python the program leans on: stripping, splitting on
    whitespace, joining, upper-casing and decimal digits, all over ASCII text. */
module Text {

  datatype Option<+T> = None | Some(value: T) {
    function GetOr(default: T): T {
      if Some? then value else default
    }
  }

  predicate IsSpace(c: char) {
    c == ' ' || '\t' <= c <= '\r' || '\U{1C}' <= c <= '\U{1F}'
  }

  predicate IsDigit(c: char) {
    '0' <= c <= '9'
  }

  predicate IsUpper(c: char) {
    'A' <= c <= 'Z'
  }

  function UpperChar(c: char): char {
    if 'a' <= c <= 'z' then (c as int - 32) as char else c
  }

  function Upper(s: string): string {
    seq(|s|, i requires 0 <= i < |s| => UpperChar(s[i]))
  }

  function StripLeft(s: string): string {
    if s != "" && IsSpace(s[0]) then StripLeft(s[1..]) else s
  }

  function StripRight(s: string): string {
    if s != "" && IsSpace(s[|s| - 1]) then StripRight(s[..|s| - 1]) else s
  }

  function Strip(s: string): string {
    StripRight(StripLeft(s))
  }

  // --- splitting and joining --------------------------------------------------

  predicate IsWord(s: string) {
    s != "" && forall i :: 0 <= i < |s| ==> !IsSpace(s[i])
  }

  predicate AreWords(tokens: seq<string>) {
    forall i :: 0 <= i < |tokens| ==> IsWord(tokens[i])
  }

  /** The length of the run of non-space characters that `s` starts with. */
  function WordLength(s: string): (n: nat)
    ensures n <= |s|
    ensures forall i :: 0 <= i < n ==> !IsSpace(s[i])
    ensures n < |s| ==> IsSpace(s[n])
  {
    if s == "" || IsSpace(s[0]) then 0 else 1 + WordLength(s[1..])
  }

  function Split(s: string): (tokens: seq<string>)
    ensures AreWords(tokens)
    decreases |s|
  {
    if s == "" then []
    else if IsSpace(s[0]) then Split(s[1..])
    else var n := WordLength(s); [s[..n]] + Split(s[n..])
  }

  /** A stretch of `s` without spaces that cannot be made longer. */
  ghost predicate IsToken(s: string, i: int, j: int) {
    && 0 <= i < j <= |s|
    && (forall k :: i <= k < j ==> !IsSpace(s[k]))
    && (i > 0 ==> IsSpace(s[i - 1])) && (j < |s| ==> IsSpace(s[j]))
  }

  ghost predicate HasToken(s: string, t: string) {
    exists i, j :: IsToken(s, i, j) && s[i..j] == t
  }

  /** Behind a space, or a word and its end, the tokens are those of the rest. */
  lemma TokenShifts(s: string, n: nat, i: int, j: int)
    requires 0 < n <= |s| && (IsSpace(s[n - 1]) || n == |s| || IsSpace(s[n]))
    ensures IsToken(s[n..], i, j) <==> i >= 0 && IsToken(s, n + i, n + j)
  {
    var rest := s[n..];
    assert forall k :: 0 <= k < |rest| ==> rest[k] == s[n + k];
    if i >= 0 && IsToken(s, n + i, n + j) {
      forall k | i <= k < j ensures !IsSpace(rest[k]) {
        assert rest[k] == s[n + k];
      }
    }
    if IsToken(rest, i, j) {
      forall k | n + i <= k < n + j ensures !IsSpace(s[k]) {
        assert s[k] == rest[k - n];
      }
    }
  }

  /** `s` is a space, or a word and its end, and then the rest from `n` on. */
  ghost predicate Begins(s: string, n: nat) {
    && 0 < n <= |s|
    && ((n == 1 && IsSpace(s[0])) || ((forall k :: 0 <= k < n ==> !IsSpace(s[k])) && (n < |s| ==> IsSpace(s[n]))))
  }

  /** A token that begins before `n` is the word the text begins with. */
  lemma FirstToken(s: string, n: nat, i: int, j: int)
    requires Begins(s, n)
    ensures i < n && IsToken(s, i, j) <==> !IsSpace(s[0]) && i == 0 && j == n
  {
  }

  lemma TokenOfAll(s: string, n: nat, t: string)
    requires Begins(s, n) && HasToken(s, t)
    ensures HasToken(s[n..], t) || (!IsSpace(s[0]) && t == s[..n])
  {
    var i, j :| IsToken(s, i, j) && s[i..j] == t;
    FirstToken(s, n, i, j);
    if i >= n {
      TokenShifts(s, n, i - n, j - n);
      assert s[n..][i - n..j - n] == t;
    }
  }

  lemma TokenOfRest(s: string, n: nat, t: string)
    requires Begins(s, n) && HasToken(s[n..], t)
    ensures HasToken(s, t)
  {
    var i, j :| IsToken(s[n..], i, j) && s[n..][i..j] == t;
    TokenShifts(s, n, i, j);
    assert s[n + i..n + j] == t;
  }

  /** Splitting finds exactly the longest stretches without spaces. */
  lemma {:induction false} SplitExactly(s: string, t: string)
    ensures t in Split(s) <==> HasToken(s, t)
    decreases |s|
  {
    if s != "" {
      var n := if IsSpace(s[0]) then 1 else WordLength(s);
      SplitExactly(s[n..], t);
      FirstToken(s, n, 0, n);
      if HasToken(s, t) {
        TokenOfAll(s, n, t);
      }
      if HasToken(s[n..], t) {
        TokenOfRest(s, n, t);
      }
    }
  }

  function Join(tokens: seq<string>): string {
    if tokens == [] then ""
    else if |tokens| == 1 then tokens[0]
    else tokens[0] + " " + Join(tokens[1..])
  }

  lemma JoinEnds(tokens: seq<string>)
    requires tokens != [] && AreWords(tokens)
    ensures var s := Join(tokens); s != "" && !IsSpace(s[0]) && !IsSpace(s[|s| - 1])
  {
    if |tokens| > 1 {
      JoinEnds(tokens[1..]);
    }
  }

  lemma JoinIsStripped(tokens: seq<string>)
    requires AreWords(tokens)
    ensures Strip(Join(tokens)) == Join(tokens)
  {
    if tokens != [] {
      JoinEnds(tokens);
    }
  }

  lemma {:induction false} WordLengthOf(t: string, s: string)
    requires IsWord(t) && |t| <= |s| && s[..|t|] == t
    requires |t| < |s| ==> IsSpace(s[|t|])
    ensures WordLength(s) == |t|
  {
    assert s[0] == t[0];
    if |t| > 1 {
      assert s[1..][..|t| - 1] == t[1..];
      WordLengthOf(t[1..], s[1..]);
    }
  }

  /** Splitting undoes joining, for any list of words. */
  lemma {:induction false} SplitJoin(tokens: seq<string>)
    requires AreWords(tokens)
    ensures Split(Join(tokens)) == tokens
  {
    if tokens != [] {
      var t, rest, s := tokens[0], tokens[1..], Join(tokens);
      SplitJoin(rest);
      assert s[..|t|] == t;
      WordLengthOf(t, s);
      assert !IsSpace(s[0]) by { assert s[0] == t[0]; }
      if rest == [] {
        assert s[|t|..] == "";
      } else {
        assert s[|t|..][0] == ' ' && s[|t|..][1..] == Join(rest);
      }
    }
  }

  // --- decimal numbers --------------------------------------------------------

  function DigitChar(d: nat): (c: char)
    requires d < 10
    ensures IsDigit(c)
  {
    (d + '0' as int) as char
  }

  function DigitValue(c: char): (d: nat)
    requires IsDigit(c)
    ensures d < 10
  {
    c as int - '0' as int
  }

  function Decimal(n: nat): (s: string)
    ensures s != "" && AllDigits(s)
  {
    if n < 10 then [DigitChar(n)] else Decimal(n / 10) + [DigitChar(n % 10)]
  }

  function SignedDecimal(n: int): string {
    if n < 0 then "-" + Decimal(-n) else Decimal(n)
  }

  predicate AllDigits(s: string) {
    forall i :: 0 <= i < |s| ==> IsDigit(s[i])
  }

  function DecimalValue(s: string): nat
    requires AllDigits(s)
  {
    if s == "" then 0 else 10 * DecimalValue(s[..|s| - 1]) + DigitValue(s[|s| - 1])
  }

  lemma {:induction false} DecimalRoundTrip(n: nat)
    ensures DecimalValue(Decimal(n)) == n
  {
    if n >= 10 {
      var s := Decimal(n);
      assert s[..|s| - 1] == Decimal(n / 10);
      DecimalRoundTrip(n / 10);
    }
  }
}
