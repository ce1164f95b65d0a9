/** Classifying the text of an FT8 decode (`monitor/ft8_parser.py`), and a grammar of the
    messages it is meant to read, with the proof that it reads them back. */
module Ft8Parser {
  import opened Text
  import opened Locator

  // --- token classes ----------------------------------------------------------

  predicate IsAlnum(c: char) {
    IsUpper(c) || IsDigit(c)
  }

  predicate AllAlnum(s: string) {
    forall i :: 0 <= i < |s| ==> IsAlnum(s[i])
  }

  predicate AllUpper(s: string) {
    forall i :: 0 <= i < |s| ==> IsUpper(s[i])
  }

  /** The callsign pattern, split as: `a` prefix characters, an area digit, `b` letters and a
      possibly empty portable part. */
  predicate CallSplit(tok: string, a: nat, b: nat) {
    && 1 <= a <= 3 && 1 <= b <= 4 && a + 1 + b <= |tok|
    && AllAlnum(tok[..a]) && IsDigit(tok[a]) && AllUpper(tok[a + 1..a + 1 + b])
    && var rest := tok[a + 1 + b..];
       rest == "" || (rest[0] == '/' && 2 <= |rest| <= 5 && AllAlnum(rest[1..]))
  }

  predicate IsCall(tok: string) {
    exists a, b :: 1 <= a <= 3 && 1 <= b <= 4 && CallSplit(tok, a, b)
  }

  predicate StartsWith(s: string, c: char) {
    s != "" && s[0] == c
  }

  predicate IsCallOrHash(tok: string) {
    StartsWith(tok, '<') || IsCall(tok)
  }

  const ACK_TOKENS: set<string> := {"RRR", "RR73", "73", "RR"}

  predicate IsGrid(tok: string) {
    tok !in ACK_TOKENS && MatchesGridPattern(tok)
  }

  /** The report pattern: an optional R, a sign and one or two digits. */
  function ReportDb(tok: string): Option<int> {
    var t := if StartsWith(tok, 'R') then tok[1..] else tok;
    if 2 <= |t| <= 3 && t[0] in {'+', '-'} && AllDigits(t[1..]) then
      var v: int := DecimalValue(t[1..]);
      Some(if t[0] == '-' then -v else v)
    else None
  }

  predicate DigitsAfter(tok: string, key: string) {
    |tok| > |key| && tok[..|key|] == key && AllDigits(tok[|key|..])
  }

  /** Text the decoder prints for a message type it does not render. */
  predicate IsUnrendered(msg: string) {
    exists k :: 0 <= k < |msg| && msg[k] == ' ' && DigitsAfter(msg[..k], "i3=") && DigitsAfter(msg[k + 1..], "n3=")
  }

  // --- classification ---------------------------------------------------------

  datatype Kind = CQ | STANDARD | NONSTD | REJECT

  datatype Message = Message(
    kind: Kind,
    callTo: Option<string>,
    callDe: Option<string>,
    grid: Option<string>,
    reportDb: Option<int>,
    cqModifier: Option<string>,
    toHashed: bool,
    deHashed: bool,
    rejectReason: string,
    raw: string)

  function Rejected(reason: string, raw: string): Message {
    Message(REJECT, None, None, None, None, None, false, false, reason, raw)
  }

  /** How many tokens before the first callsign. */
  function ModifierLength(rest: seq<string>): (n: nat)
    ensures n <= |rest|
    ensures forall i :: 0 <= i < n ==> !IsCallOrHash(rest[i])
    ensures n < |rest| ==> IsCallOrHash(rest[n])
  {
    if rest == [] || IsCallOrHash(rest[0]) then 0 else 1 + ModifierLength(rest[1..])
  }

  function Plain(tok: string): Option<string> {
    if StartsWith(tok, '<') then None else Some(tok)
  }

  function ClassifyCq(rest: seq<string>, raw: string): Message {
    var i := ModifierLength(rest);
    if i == |rest| then Rejected("cq_no_caller", raw)
    else
      var grid := if i + 1 < |rest| && IsGrid(rest[i + 1]) then Some(rest[i + 1]) else None;
      var modifier := Join(rest[..i]);
      Message(CQ, None, Plain(rest[i]), grid, None, if modifier == "" then None else Some(modifier),
              false, StartsWith(rest[i], '<'), "", raw)
  }

  function ClassifyPair(tokens: seq<string>, raw: string): Message
    requires |tokens| >= 2
  {
    var toHashed, deHashed := StartsWith(tokens[0], '<'), StartsWith(tokens[1], '<');
    var grid := if |tokens| >= 3 && IsGrid(tokens[2]) then Some(tokens[2]) else None;
    var report := if |tokens| >= 3 && !IsGrid(tokens[2]) then ReportDb(tokens[2]) else None;
    Message(if toHashed || deHashed then NONSTD else STANDARD,
            Plain(tokens[0]), Plain(tokens[1]), grid, report, None, toHashed, deHashed, "", raw)
  }

  function ClassifyTokens(tokens: seq<string>, raw: string): Message {
    if tokens == [] then Rejected("empty", raw)
    else if IsUnrendered(raw) then Rejected("unrendered_type", raw)
    else if tokens[0] in {"CQ", "QRZ"} then ClassifyCq(tokens[1..], raw)
    else if |tokens| >= 2 && IsCallOrHash(tokens[0]) && IsCallOrHash(tokens[1]) then ClassifyPair(tokens, raw)
    else Rejected("unparseable", raw)
  }

  function Classify(message: string): Message {
    ClassifyTokens(Split(Strip(message)), Strip(message))
  }

  /** The CQ branch as the program runs it, collecting the modifier token by token. */
  method ScanCq(rest: seq<string>, raw: string) returns (m: Message)
    ensures m == ClassifyCq(rest, raw)
  {
    var i := 0;
    var modifier: seq<string> := [];
    while i < |rest| && !IsCallOrHash(rest[i])
      invariant i <= |rest| && modifier == rest[..i]
      invariant forall j :: 0 <= j < i ==> !IsCallOrHash(rest[j])
    {
      modifier := modifier + [rest[i]];
      i := i + 1;
    }
    assert i == ModifierLength(rest);
    if i == |rest| {
      return Rejected("cq_no_caller", raw);
    }
    var caller, grid := rest[i], None;
    if i + 1 < |rest| && IsGrid(rest[i + 1]) {
      grid := Some(rest[i + 1]);
    }
    var joined := Join(modifier);
    return Message(CQ, None, Plain(caller), grid, None, if joined == "" then None else Some(joined),
                   false, StartsWith(caller, '<'), "", raw);
  }

  // --- facts about every message ----------------------------------------------

  /** Whatever the text: grid and report exclude each other, a grid is a locator and never an
      acknowledgement, a known callsign is not a hash, and only pairs carry a report. */
  lemma ClassifiedShape(message: string)
    ensures var m := Classify(message);
            && (m.grid.Some? ==> m.reportDb.None? && IsGrid(m.grid.value) && m.kind != REJECT)
            && (m.reportDb.Some? ==> m.kind in {STANDARD, NONSTD})
            && (m.callDe.Some? ==> !m.deHashed && IsCall(m.callDe.value))
            && (m.callTo.Some? ==> !m.toHashed && IsCall(m.callTo.value))
            && (m.kind == NONSTD <==> m.toHashed || (m.deHashed && m.kind != CQ))
            && (m.kind != REJECT ==> (m.callDe.None? <==> m.deHashed))
  {
  }

  // --- the grammar ------------------------------------------------------------

  datatype Station = Named(call: string) | Hashed(token: string)

  datatype Extra = Nothing | Grid(grid: string) | Report(roger: bool, db: int) | Ack(token: string)

  datatype Phrase =
    | Calling(qrz: bool, modifier: seq<string>, caller: Station, at: Option<string>)
    | Exchange(to: Station, de: Station, extra: Extra)

  predicate IsStation(s: Station) {
    match s
    case Named(call) => IsCall(call)
    case Hashed(token) => IsWord(token) && StartsWith(token, '<')
  }

  predicate IsExtra(e: Extra) {
    match e
    case Nothing => true
    case Grid(grid) => IsGrid(grid)
    case Report(_, db) => -99 <= db <= 99
    case Ack(token) => token in ACK_TOKENS
  }

  predicate IsPhrase(p: Phrase) {
    match p
    case Calling(_, modifier, caller, at) =>
      AreWords(modifier) && (forall t :: t in modifier ==> !IsCallOrHash(t)) && IsStation(caller)
        && (at.Some? ==> IsGrid(at.value))
    case Exchange(to, de, extra) =>
      IsStation(to) && IsStation(de) && IsExtra(extra)
  }

  function StationToken(s: Station): string {
    match s
    case Named(call) => call
    case Hashed(token) => token
  }

  function TwoDigits(n: nat): string
    requires n < 100
  {
    [DigitChar(n / 10), DigitChar(n % 10)]
  }

  function ExtraTokens(e: Extra): seq<string>
    requires IsExtra(e)
  {
    match e
    case Nothing => []
    case Grid(grid) => [grid]
    case Report(roger, db) =>
      [(if roger then "R" else "") + (if db < 0 then "-" else "+") + TwoDigits(if db < 0 then -db else db)]
    case Ack(token) => [token]
  }

  /** A phrase as the decoder prints it. */
  function Tokens(p: Phrase): seq<string>
    requires IsPhrase(p)
  {
    match p
    case Calling(qrz, modifier, caller, at) =>
      [if qrz then "QRZ" else "CQ"] + modifier + [StationToken(caller)] + (if at.Some? then [at.value] else [])
    case Exchange(to, de, extra) =>
      [StationToken(to), StationToken(de)] + ExtraTokens(extra)
  }

  function Known(s: Station): Option<string> {
    if s.Named? then Some(s.call) else None
  }

  /** What reading a phrase should produce. */
  function Meaning(p: Phrase, raw: string): Message {
    match p
    case Calling(_, modifier, caller, at) =>
      Message(CQ, None, Known(caller), at, None, if modifier == [] then None else Some(Join(modifier)),
              false, caller.Hashed?, "", raw)
    case Exchange(to, de, extra) =>
      Message(if to.Hashed? || de.Hashed? then NONSTD else STANDARD, Known(to), Known(de),
              if extra.Grid? then Some(extra.grid) else None,
              if extra.Report? then Some(extra.db) else None,
              None, to.Hashed?, de.Hashed?, "", raw)
  }

  lemma CallIsPlainWord(tok: string)
    requires IsCall(tok)
    ensures IsWord(tok) && !StartsWith(tok, '<') && !StartsWith(tok, 'i') && tok !in {"CQ", "QRZ"}
  {
    var a, b :| 1 <= a <= 3 && 1 <= b <= 4 && CallSplit(tok, a, b);
    var rest := tok[a + 1 + b..];
    forall i | 0 <= i < |tok| ensures !IsSpace(tok[i]) {
      if i < a {
        assert tok[i] == tok[..a][i];
      } else if a < i < a + 1 + b {
        assert tok[i] == tok[a + 1..a + 1 + b][i - a - 1];
      } else if i > a + 1 + b {
        assert tok[i] == rest[1..][i - a - 2 - b];
      }
    }
    assert tok[0] == tok[..a][0];
    assert IsDigit(tok[a]);
  }

  lemma StationIsWord(s: Station)
    requires IsStation(s)
    ensures var t := StationToken(s);
            && IsWord(t) && IsCallOrHash(t) && !StartsWith(t, 'i') && t !in {"CQ", "QRZ"}
            && Plain(t) == Known(s) && StartsWith(t, '<') == s.Hashed?
  {
    if s.Named? {
      CallIsPlainWord(s.call);
    }
  }

  lemma GridIsWord(g: string)
    requires IsGrid(g)
    ensures IsWord(g)
  {
  }

  lemma ReportReadsBack(e: Extra)
    requires IsExtra(e) && e.Report?
    ensures IsWord(ExtraTokens(e)[0]) && !IsGrid(ExtraTokens(e)[0])
    ensures ReportDb(ExtraTokens(e)[0]) == Some(e.db)
  {
    var n := if e.db < 0 then -e.db else e.db;
    var tok, digits := ExtraTokens(e)[0], TwoDigits(n);
    var t := if e.roger then tok[1..] else tok;
    assert t == (if e.db < 0 then "-" else "+") + digits;
    assert t[1..] == digits;
    assert digits[..1][..0] == "" && DecimalValue(digits[..1]) == n / 10;
    assert tok[|tok| - 1] == digits[1] && tok[|tok| - 2] == digits[0];
    assert tok[|tok| - 3] in {'+', '-'};
  }

  lemma ExtraIsWord(e: Extra)
    requires IsExtra(e)
    ensures AreWords(ExtraTokens(e))
    ensures |ExtraTokens(e)| <= 1
    ensures var ts := ExtraTokens(e);
            && (ts != [] && IsGrid(ts[0]) <==> e.Grid?)
            && (e.Grid? ==> ts[0] == e.grid)
            && (ts != [] && !IsGrid(ts[0]) ==> ReportDb(ts[0]) == if e.Report? then Some(e.db) else None)
  {
    match e
    case Nothing =>
    case Grid(grid) => GridIsWord(grid);
    case Report(_, _) => ReportReadsBack(e);
    case Ack(token) =>
  }

  lemma TokensAreWords(p: Phrase)
    requires IsPhrase(p)
    ensures AreWords(Tokens(p)) && Tokens(p) != [] && !StartsWith(Tokens(p)[0], 'i')
  {
    match p
    case Calling(_, modifier, caller, at) =>
      StationIsWord(caller);
    case Exchange(to, de, extra) =>
      StationIsWord(to);
      StationIsWord(de);
      ExtraIsWord(extra);
  }

  lemma NotUnrendered(tokens: seq<string>)
    requires AreWords(tokens) && tokens != [] && !StartsWith(tokens[0], 'i')
    ensures !IsUnrendered(Join(tokens))
  {
    assert Join(tokens)[0] == tokens[0][0];
  }

  lemma ReadCalling(p: Phrase, raw: string)
    requires IsPhrase(p) && p.Calling? && !IsUnrendered(raw)
    ensures ClassifyTokens(Tokens(p), raw) == Meaning(p, raw)
  {
    var rest := Tokens(p)[1..];
    var n := |p.modifier|;
    StationIsWord(p.caller);
    assert rest[..n] == p.modifier && rest[n] == StationToken(p.caller);
    assert forall i :: 0 <= i < n ==> rest[i] in p.modifier;
    var i := ModifierLength(rest);
    assert i == n;
    if p.modifier != [] {
      JoinEnds(p.modifier);
    }
    assert p.at.Some? <==> n + 1 < |rest|;
    assert p.at.Some? ==> rest[n + 1] == p.at.value;
  }

  lemma ReadExchange(p: Phrase, raw: string)
    requires IsPhrase(p) && p.Exchange? && !IsUnrendered(raw)
    ensures ClassifyTokens(Tokens(p), raw) == Meaning(p, raw)
  {
    var tokens, extra := Tokens(p), ExtraTokens(p.extra);
    StationIsWord(p.to);
    StationIsWord(p.de);
    ExtraIsWord(p.extra);
    assert tokens[0] == StationToken(p.to) && tokens[1] == StationToken(p.de);
    assert |tokens| == 2 + |extra| && (extra != [] ==> tokens[2] == extra[0]);
  }

  /** Printing any phrase of the grammar and classifying the text gives back its meaning. */
  lemma ClassifyReadsBack(p: Phrase)
    requires IsPhrase(p)
    ensures Classify(Join(Tokens(p))) == Meaning(p, Join(Tokens(p)))
  {
    var tokens := Tokens(p);
    TokensAreWords(p);
    SplitJoin(tokens);
    JoinIsStripped(tokens);
    NotUnrendered(tokens);
    if p.Calling? {
      ReadCalling(p, Join(tokens));
    } else {
      ReadExchange(p, Join(tokens));
    }
  }

  function StationOf(tok: string): Station {
    if StartsWith(tok, '<') then Hashed(tok) else Named(tok)
  }

  lemma StationOfToken(tok: string)
    requires IsWord(tok) && IsCallOrHash(tok)
    ensures IsStation(StationOf(tok)) && StationToken(StationOf(tok)) == tok
    ensures Plain(tok) == Known(StationOf(tok)) && StartsWith(tok, '<') == StationOf(tok).Hashed?
  {
  }

  lemma CallingIsPrefix(tokens: seq<string>, i: nat, at: Option<string>)
    requires tokens != [] && tokens[0] in {"CQ", "QRZ"} && i + 1 < |tokens| && IsCallOrHash(tokens[i + 1])
    requires at.Some? ==> i + 2 < |tokens| && tokens[i + 2] == at.value
    requires var p := Calling(tokens[0] == "QRZ", tokens[1..][..i], StationOf(tokens[i + 1]), at);
             IsPhrase(p)
    ensures Tokens(Calling(tokens[0] == "QRZ", tokens[1..][..i], StationOf(tokens[i + 1]), at)) <= tokens
  {
    var modifier := tokens[1..][..i];
    assert StationToken(StationOf(tokens[i + 1])) == tokens[i + 1];
    assert [tokens[0]] + modifier + [tokens[i + 1]] == tokens[..i + 2];
    assert at.Some? ==> tokens[..i + 2] + [at.value] == tokens[..i + 3];
  }

  lemma CqBeginsWithPhrase(tokens: seq<string>, raw: string) returns (p: Phrase)
    requires AreWords(tokens) && tokens != [] && tokens[0] in {"CQ", "QRZ"}
    requires ClassifyCq(tokens[1..], raw).kind == CQ
    ensures IsPhrase(p) && Tokens(p) <= tokens && ClassifyCq(tokens[1..], raw) == Meaning(p, raw)
  {
    var rest := tokens[1..];
    var i := ModifierLength(rest);
    var modifier, at := rest[..i], ClassifyCq(rest, raw).grid;
    assert AreWords(modifier) by { assert forall j :: 0 <= j < i ==> modifier[j] == tokens[j + 1]; }
    assert rest[i] == tokens[i + 1];
    StationOfToken(rest[i]);
    p := Calling(tokens[0] == "QRZ", modifier, StationOf(rest[i]), at);
    CallingIsPrefix(tokens, i, at);
    if i > 0 {
      JoinEnds(modifier);
    }
  }

  lemma PairBeginsWithPhrase(tokens: seq<string>, raw: string) returns (p: Phrase)
    requires AreWords(tokens) && |tokens| >= 2 && IsCallOrHash(tokens[0]) && IsCallOrHash(tokens[1])
    ensures IsPhrase(p) && Tokens(p) <= tokens
    ensures ClassifyPair(tokens, raw).(reportDb := None) == Meaning(p, raw)
    ensures ClassifyPair(tokens, raw).reportDb.Some? ==>
              |Tokens(p)| < |tokens| && ClassifyPair(tokens, raw).reportDb == ReportDb(tokens[|Tokens(p)|])
  {
    var grid := ClassifyPair(tokens, raw).grid;
    StationOfToken(tokens[0]);
    StationOfToken(tokens[1]);
    p := Exchange(StationOf(tokens[0]), StationOf(tokens[1]), if grid.Some? then Grid(grid.value) else Nothing);
    assert forall j :: 0 <= j < |Tokens(p)| ==> Tokens(p)[j] == tokens[j];
  }

  /** Conversely, whatever is not rejected begins with a phrase of the grammar, and everything
      but the report is that phrase's meaning; a report comes from the token after the phrase. */
  lemma AcceptedBeginsWithPhrase(message: string)
    requires Classify(message).kind != REJECT
    ensures var tokens, m := Split(Strip(message)), Classify(message);
            exists p :: IsPhrase(p) && Tokens(p) <= tokens && m.(reportDb := None) == Meaning(p, Strip(message))
                        && (m.reportDb.Some? ==> |Tokens(p)| < |tokens| && m.reportDb == ReportDb(tokens[|Tokens(p)|]))
  {
    var tokens, raw := Split(Strip(message)), Strip(message);
    if tokens[0] in {"CQ", "QRZ"} {
      var p := CqBeginsWithPhrase(tokens, raw);
    } else {
      var p := PairBeginsWithPhrase(tokens, raw);
    }
  }

  /** A subsquare locator also has the shape of a callsign, so only the position of a token
      tells the two apart. */
  lemma SubsquareLooksLikeACall(g: string)
    requires IsLocator(g) && |g| == 6
    ensures IsGrid(g) && IsCall(g)
  {
    assert CallSplit(g, 3, 2);
  }
}
