/** The parts of JSON text the signed form depends on: the value scanner, compaction, and
    string quoting (RFC 8259, sections 2 and 7). Texts are sequences of Unicode scalar values. */
module Json {
  import opened Options

  // ------------------------------------------------------------ the scanner

  datatype Nest = ObjectKey | ObjectValue | ArrayValue

  datatype Mode =
    | BeginValue | BeginValueOrEmpty | BeginString | BeginStringOrEmpty
    | InString | InEscape | InHex(left: nat) | Word(rest: string)
    | Neg | Zero | Digits | Dot | Frac | Exp | ExpSign | ExpDigits
    | EndValue | EndTop | Bad

  /** Where a scan stands: the mode, and the open containers with the innermost last. */
  datatype Scan = Scan(mode: Mode, stack: seq<Nest>)

  const START := Scan(BeginValue, [])

  predicate IsSpace(c: char) { c == ' ' || c == '\t' || c == '\r' || c == '\n' }
  predicate IsDigit(c: char) { '0' <= c <= '9' }
  predicate IsHex(c: char) { IsDigit(c) || 'a' <= c <= 'f' || 'A' <= c <= 'F' }

  function Pop(s: Scan): Scan
    requires s.stack != []
  {
    var stack := s.stack[..|s.stack| - 1];
    Scan(if stack == [] then EndTop else EndValue, stack)
  }

  /** A character after a complete value. */
  function AfterValue(s: Scan, c: char): Scan {
    if s.stack == [] then Scan(if IsSpace(c) then EndTop else Bad, [])
    else if IsSpace(c) then Scan(EndValue, s.stack)
    else
      var outer, top := s.stack[..|s.stack| - 1], s.stack[|s.stack| - 1];
      match top
      case ObjectKey => if c == ':' then Scan(BeginValue, outer + [ObjectValue]) else Scan(Bad, s.stack)
      case ObjectValue =>
        if c == ',' then Scan(BeginString, outer + [ObjectKey])
        else if c == '}' then Pop(s) else Scan(Bad, s.stack)
      case ArrayValue =>
        if c == ',' then Scan(BeginValue, s.stack)
        else if c == ']' then Pop(s) else Scan(Bad, s.stack)
  }

  function AtValue(s: Scan, c: char): Scan {
    if IsSpace(c) then s
    else if c == '{' then Scan(BeginStringOrEmpty, s.stack + [ObjectKey])
    else if c == '[' then Scan(BeginValueOrEmpty, s.stack + [ArrayValue])
    else if c == '"' then Scan(InString, s.stack)
    else if c == '-' then Scan(Neg, s.stack)
    else if c == '0' then Scan(Zero, s.stack)
    else if IsDigit(c) then Scan(Digits, s.stack)
    else if c == 't' then Scan(Word("rue"), s.stack)
    else if c == 'f' then Scan(Word("alse"), s.stack)
    else if c == 'n' then Scan(Word("ull"), s.stack)
    else Scan(Bad, s.stack)
  }

  function Next(s: Scan, c: char): Scan {
    match s.mode
    case BeginValue => AtValue(s, c)
    case BeginValueOrEmpty =>
      if IsSpace(c) then s else if c == ']' then AfterValue(s, c) else AtValue(s, c)
    case BeginString =>
      if IsSpace(c) then s else if c == '"' then Scan(InString, s.stack) else Scan(Bad, s.stack)
    case BeginStringOrEmpty =>
      if IsSpace(c) then s
      else if c == '}' && s.stack != [] then Pop(s)
      else if c == '"' then Scan(InString, s.stack) else Scan(Bad, s.stack)
    case InString =>
      if c == '"' then Scan(EndValue, s.stack)
      else if c == '\\' then Scan(InEscape, s.stack)
      else if c < ' ' then Scan(Bad, s.stack) else s
    case InEscape =>
      if c in "bfnrt\\/\"" then Scan(InString, s.stack)
      else if c == 'u' then Scan(InHex(4), s.stack) else Scan(Bad, s.stack)
    case InHex(left) =>
      if !IsHex(c) then Scan(Bad, s.stack)
      else if left <= 1 then Scan(InString, s.stack) else Scan(InHex(left - 1), s.stack)
    case Word(rest) =>
      if rest == "" || c != rest[0] || !('a' <= c <= 'z') then Scan(Bad, s.stack)
      else if |rest| == 1 then Scan(EndValue, s.stack) else Scan(Word(rest[1..]), s.stack)
    case Neg => if c == '0' then Scan(Zero, s.stack) else if IsDigit(c) then Scan(Digits, s.stack) else Scan(Bad, s.stack)
    case Digits => if IsDigit(c) then s else AfterInteger(s, c)
    case Zero => AfterInteger(s, c)
    case Dot => if IsDigit(c) then Scan(Frac, s.stack) else Scan(Bad, s.stack)
    case Frac =>
      if IsDigit(c) then s
      else if c == 'e' || c == 'E' then Scan(Exp, s.stack) else AfterValue(s, c)
    case Exp =>
      if c == '+' || c == '-' then Scan(ExpSign, s.stack)
      else if IsDigit(c) then Scan(ExpDigits, s.stack) else Scan(Bad, s.stack)
    case ExpSign => if IsDigit(c) then Scan(ExpDigits, s.stack) else Scan(Bad, s.stack)
    case ExpDigits => if IsDigit(c) then s else AfterValue(s, c)
    case EndValue => AfterValue(s, c)
    case EndTop => if IsSpace(c) then s else Scan(Bad, s.stack)
    case Bad => s
  }

  function AfterInteger(s: Scan, c: char): Scan {
    if c == '.' then Scan(Dot, s.stack)
    else if c == 'e' || c == 'E' then Scan(Exp, s.stack)
    else AfterValue(s, c)
  }

  function ScanAll(s: Scan, text: string): Scan
    decreases |text|
  {
    if text == "" then s else ScanAll(Next(s, text[0]), text[1..])
  }

  predicate Ended(m: Mode) {
    m == EndValue || m == EndTop || m == Zero || m == Digits || m == Frac || m == ExpDigits
  }

  /** The text is one complete JSON value. */
  predicate Valid(text: string) {
    var s := ScanAll(START, text);
    s.stack == [] && Ended(s.mode)
  }

  // ------------------------------------------------------------ compaction

  function HexDigit(n: nat): (c: char)
    requires n < 16
    ensures IsHex(c) && HexValue(c) == n && !Escaped(c) && !IsSpace(c)
  {
    "0123456789abcdef"[n]
  }

  function HexValue(c: char): (n: nat)
    requires IsHex(c)
    ensures n < 16
  {
    if IsDigit(c) then (c - '0') as nat else if 'a' <= c <= 'f' then (c - 'a') as nat + 10 else (c - 'A') as nat + 10
  }

  predicate IsHex4(h: string) { |h| == 4 && IsHex(h[0]) && IsHex(h[1]) && IsHex(h[2]) && IsHex(h[3]) }

  function Hex4(n: nat): (h: string)
    requires n < 0x10000
    ensures IsHex4(h)
  {
    var a := n / 16;
    var b := a / 16;
    [HexDigit(b / 16), HexDigit(b % 16), HexDigit(a % 16), HexDigit(n % 16)]
  }

  function Hex4Value(h: string): (n: nat)
    requires IsHex4(h)
    ensures n < 0x10000
  {
    ((HexValue(h[0]) * 16 + HexValue(h[1])) * 16 + HexValue(h[2])) * 16 + HexValue(h[3])
  }

  lemma Hex4Reads(n: nat)
    requires n < 0x10000
    ensures Hex4Value(Hex4(n)) == n
  {
  }

  /** The characters that are always written as \u escapes. */
  predicate Escaped(c: char) { c == '<' || c == '>' || c == '&' || c == '\U{2028}' || c == '\U{2029}' }

  function UnicodeEscape(c: char): string
    requires (c as int) < 0x10000
  {
    "\\u" + Hex4(c as int)
  }

  predicate Skipped(s: Scan, c: char) {
    IsSpace(c) && s.mode != InString && Next(s, c).mode != Bad
  }

  /** What compaction writes for one character. */
  function Emit(s: Scan, c: char): string {
    if Escaped(c) then UnicodeEscape(c) else if Skipped(s, c) then "" else [c]
  }

  function EmitAll(s: Scan, text: string): string
    decreases |text|
  {
    if text == "" then "" else Emit(s, text[0]) + EmitAll(Next(s, text[0]), text[1..])
  }

  /** json.Marshal of a raw message: an error unless the text is one valid value. */
  function Compact(text: string): Option<string> {
    if Valid(text) then Some(EmitAll(START, text)) else None
  }

  // ------------------------------------------------------------ compaction is stable

  lemma {:induction false} ScanConcat(s: Scan, a: string, b: string)
    ensures ScanAll(s, a + b) == ScanAll(ScanAll(s, a), b)
    ensures EmitAll(s, a + b) == EmitAll(s, a) + EmitAll(ScanAll(s, a), b)
    decreases |a|
  {
    if a == "" {
      assert a + b == b;
    } else {
      assert (a + b)[0] == a[0] && (a + b)[1..] == a[1..] + b;
      ScanConcat(Next(s, a[0]), a[1..], b);
    }
  }

  lemma {:induction false} BadStays(s: Scan, text: string)
    requires s.mode == Bad
    ensures ScanAll(s, text) == s
    decreases |text|
  {
    if text != "" {
      BadStays(s, text[1..]);
    }
  }

  /** t stands where s does, except that dropped spaces may have left it still at the end of the
      value s has moved past. */
  predicate Matches(s: Scan, t: Scan) {
    || s == t
    || (s.stack == t.stack && Ended(t.mode) && (s.mode == EndValue || (s.mode == EndTop && s.stack == []))
        && (t.mode == EndTop ==> s.stack == []))
  }

  lemma MatchesNext(s: Scan, t: Scan, c: char)
    requires Matches(s, t) && !IsSpace(c) && Next(s, c).mode != Bad
    ensures Next(t, c) == Next(s, c)
  {
  }

  lemma MatchesSpace(s: Scan, t: Scan, c: char)
    requires Matches(s, t) && Skipped(s, c)
    ensures Matches(Next(s, c), t)
  {
  }

  lemma ScanCons(s: Scan, c: char, text: string)
    ensures ScanAll(s, [c] + text) == ScanAll(Next(s, c), text)
    ensures EmitAll(s, [c] + text) == Emit(s, c) + EmitAll(Next(s, c), text)
  {
  }

  lemma EscapeOpens(s: Scan)
    requires s.mode == InString
    ensures Next(s, '\\') == Scan(InEscape, s.stack) && Emit(s, '\\') == "\\"
    ensures Next(Scan(InEscape, s.stack), 'u') == Scan(InHex(4), s.stack) && Emit(Scan(InEscape, s.stack), 'u') == "u"
  {
  }

  lemma UnicodeEscapeRuns(s: Scan, h: string)
    requires s.mode == InString && IsHex4(h) && forall i | 0 <= i < 4 :: !Escaped(h[i]) && !IsSpace(h[i])
    ensures ScanAll(s, "\\u" + h) == s && EmitAll(s, "\\u" + h) == "\\u" + h
  {
    var s1, s2 := Scan(InEscape, s.stack), Scan(InHex(4), s.stack);
    EscapeOpens(s);
    HexRun(s2, h);
    ScanCons(s1, 'u', h);
    ScanCons(s, '\\', ['u'] + h);
    EscapeIs(h);
  }

  lemma EscapeIs(h: string)
    ensures "\\u" + h == ['\\'] + (['u'] + h) == "\\" + ("u" + h)
  {
  }

  /** An escaped character can only be inside a string, and its escape leaves the scan there. */
  lemma EscapeStaysInString(s: Scan, c: char)
    requires Escaped(c) && Next(s, c).mode != Bad
    ensures s.mode == InString && Next(s, c) == s
    ensures ScanAll(s, UnicodeEscape(c)) == s && EmitAll(s, UnicodeEscape(c)) == UnicodeEscape(c)
  {
    OnlyInString(s, c);
    UnicodeEscapeRuns(s, Hex4(c as int));
  }

  lemma OnlyInString(s: Scan, c: char)
    requires Escaped(c) && Next(s, c).mode != Bad
    ensures s.mode == InString && Next(s, c) == s
  {
  }

  lemma {:induction false} HexRun(s: Scan, hex: string)
    requires s.mode == InHex(|hex|) && 0 < |hex|
    requires forall i | 0 <= i < |hex| :: IsHex(hex[i]) && !Escaped(hex[i]) && !IsSpace(hex[i])
    ensures ScanAll(s, hex) == Scan(InString, s.stack) && EmitAll(s, hex) == hex
    decreases |hex|
  {
    if |hex| == 1 {
      assert hex[1..] == "";
    } else {
      HexRun(Next(s, hex[0]), hex[1..]);
    }
  }

  /** Scanning what was emitted for one character. */
  lemma EmitStep(s: Scan, t: Scan, c: char)
    requires Matches(s, t) && Next(s, c).mode != Bad
    ensures Matches(Next(s, c), ScanAll(t, Emit(s, c)))
    ensures EmitAll(t, Emit(s, c)) == Emit(s, c)
  {
    if Escaped(c) {
      EscapeStaysInString(s, c);
    } else if Skipped(s, c) {
      MatchesSpace(s, t, c);
    } else {
      assert [c][1..] == "";
      if !IsSpace(c) {
        MatchesNext(s, t, c);
      }
    }
  }

  /** Compacted text scans like the original and is emitted unchanged. */
  lemma {:induction false} EmittedIsStable(s: Scan, t: Scan, text: string)
    requires Matches(s, t) && ScanAll(s, text).mode != Bad
    ensures Matches(ScanAll(s, text), ScanAll(t, EmitAll(s, text)))
    ensures EmitAll(t, EmitAll(s, text)) == EmitAll(s, text)
    decreases |text|
  {
    if text != "" {
      var c, rest := text[0], text[1..];
      if Next(s, c).mode == Bad {
        BadStays(Next(s, c), rest);
      }
      EmitStep(s, t, c);
      var e := Emit(s, c);
      EmittedIsStable(Next(s, c), ScanAll(t, e), rest);
      ScanConcat(t, e, EmitAll(Next(s, c), rest));
    }
  }

  /** Compaction is idempotent: its output is a valid value that compacts to itself. */
  lemma CompactIdempotent(text: string)
    requires Compact(text).Some?
    ensures Compact(Compact(text).value) == Compact(text)
  {
    EmittedIsStable(START, START, text);
  }

  // ------------------------------------------------------------ what compaction changes

  /** No character is escaped or skipped where it stands. */
  ghost predicate Plain(s: Scan, text: string) {
    forall i | 0 <= i < |text| :: !Escaped(text[i]) && !Skipped(ScanAll(s, text[..i]), text[i])
  }

  lemma PlainCons(s: Scan, text: string)
    requires text != ""
    ensures Plain(s, text) <==> !Escaped(text[0]) && !Skipped(s, text[0]) && Plain(Next(s, text[0]), text[1..])
  {
    var c, rest := text[0], text[1..];
    assert text[..0] == "";
    forall i | 0 <= i < |rest| ensures ScanAll(s, text[..i + 1]) == ScanAll(Next(s, c), rest[..i]) {
      assert text[..i + 1][0] == c && text[..i + 1][1..] == rest[..i];
    }
    if Plain(s, text) {
      forall i | 0 <= i < |rest| ensures !Escaped(rest[i]) && !Skipped(ScanAll(Next(s, c), rest[..i]), rest[i]) {
        assert text[i + 1] == rest[i];
      }
    }
    if !Escaped(c) && !Skipped(s, c) && Plain(Next(s, c), rest) {
      forall i | 0 <= i < |text| ensures !Escaped(text[i]) && !Skipped(ScanAll(s, text[..i]), text[i]) {
        if i > 0 {
          assert text[i] == rest[i - 1] && ScanAll(s, text[..i - 1 + 1]) == ScanAll(Next(s, c), rest[..i - 1]);
        }
      }
    }
  }

  /** Any space read here is skipped. */
  predicate BetweenTokens(s: Scan) {
    forall c | IsSpace(c) :: Skipped(s, c)
  }

  lemma StillBetween(s: Scan, c: char)
    requires Skipped(s, c)
    ensures BetweenTokens(Next(s, c))
  {
  }

  lemma {:induction false} NoLeadingSpace(s: Scan, text: string)
    requires BetweenTokens(s)
    ensures EmitAll(s, text) == "" || !IsSpace(EmitAll(s, text)[0])
    decreases |text|
  {
    if text != "" && IsSpace(text[0]) {
      StillBetween(s, text[0]);
      NoLeadingSpace(Next(s, text[0]), text[1..]);
    }
  }

  /** What is emitted is the text itself only where nothing is escaped or skipped: a skipped
      space is not made up for by what follows. */
  lemma {:induction false} EmittedVerbatim(s: Scan, text: string)
    ensures EmitAll(s, text) == text <==> Plain(s, text)
    decreases |text|
  {
    if text != "" {
      var c, rest := text[0], text[1..];
      PlainCons(s, text);
      EmittedVerbatim(Next(s, c), rest);
      if Escaped(c) {
        assert EmitAll(s, text)[0] == '\\';
      } else if Skipped(s, c) {
        StillBetween(s, c);
        NoLeadingSpace(Next(s, c), rest);
        assert EmitAll(s, text) == EmitAll(Next(s, c), rest);
      } else {
        assert EmitAll(s, text) == [c] + EmitAll(Next(s, c), rest) && text == [c] + rest;
      }
    }
  }

  /** A body is carried verbatim if and only if it is one valid value with no space between its
      tokens and none of the characters always written as escapes. */
  lemma VerbatimIff(text: string)
    ensures Compact(text) == Some(text) <==> Valid(text) && Plain(START, text)
  {
    EmittedVerbatim(START, text);
  }

  /** A body that is not carried verbatim: the string holding a single less-than sign. */
  lemma LessThanIsRewritten()
    ensures Valid("\"<\"") && Compact("\"<\"") == Some("\"\\u003c\"")
  {
    QuotedIsRewritten('<', "\"<\"");
    LessThanEscape();
  }

  lemma LessThanEscape()
    ensures "\"" + UnicodeEscape('<') + "\"" == "\"\\u003c\""
  {
    assert 0x3c / 16 == 3 && 0x3c % 16 == 12;
  }

  lemma QuotedIsRewritten(c: char, text: string)
    requires Escaped(c) && text == ['"'] + ([c] + (['"'] + ""))
    ensures Valid(text) && Compact(text) == Some("\"" + UnicodeEscape(c) + "\"")
  {
    var s := Scan(InString, []);
    var u := UnicodeEscape(c);
    QuoteSteps(s, c);
    var tail := ['"'] + "";
    ScanCons(START, '"', [c] + tail);
    ScanCons(s, c, tail);
    ScanCons(s, '"', "");
    assert EmitAll(s, tail) == "\"" && EmitAll(s, [c] + tail) == u + "\"";
    assert EmitAll(START, text) == "\"" + (u + "\"");
    AppendAssoc("\"", u, "\"");
  }

  lemma QuoteSteps(s: Scan, c: char)
    requires s == Scan(InString, []) && Escaped(c)
    ensures Next(START, '"') == s && Next(s, c) == s && Next(s, '"') == Scan(EndValue, [])
    ensures Emit(START, '"') == "\"" && Emit(s, '"') == "\"" && Emit(s, c) == UnicodeEscape(c)
  {
  }

  // ------------------------------------------------------------ finding the end of a value

  /** The length of the longest prefix that can still be part of a value. */
  function ValueLength(s: Scan, text: string): nat
    decreases |text|
  {
    if text == "" || Next(s, text[0]).mode == Bad then 0 else 1 + ValueLength(Next(s, text[0]), text[1..])
  }

  lemma {:induction false} ValueLengthIs(s: Scan, value: string, rest: string)
    requires s.mode != Bad
    requires ScanAll(s, value).stack == [] && Ended(ScanAll(s, value).mode)
    requires rest != "" && (rest[0] == ',' || rest[0] == '}')
    ensures ValueLength(s, value + rest) == |value|
    decreases |value|
  {
    if value == "" {
      assert value + rest == rest;
    } else {
      assert (value + rest)[0] == value[0] && (value + rest)[1..] == value[1..] + rest;
      if Next(s, value[0]).mode == Bad {
        BadStays(Next(s, value[0]), value[1..]);
      }
      ValueLengthIs(Next(s, value[0]), value[1..], rest);
    }
  }

  // ------------------------------------------------------------ strings

  function EscapeChar(c: char): string {
    if c == '"' then "\\\""
    else if c == '\\' then "\\\\"
    else if c == '\n' then "\\n"
    else if c == '\r' then "\\r"
    else if c == '\t' then "\\t"
    else if c as int == 8 then "\\b"
    else if c as int == 12 then "\\f"
    else if c < ' ' || Escaped(c) then UnicodeEscape(c)
    else [c]
  }

  function Escape(v: string): string
    decreases |v|
  {
    if v == "" then "" else EscapeChar(v[0]) + Escape(v[1..])
  }

  function Quote(v: string): string { "\"" + Escape(v) + "\"" }

  predicate Surrogate(n: int) { 0xD800 <= n < 0xE000 }

  /** Reads one character of a string literal. Surrogate escapes are not read. */
  function ReadChar(text: string): Option<(char, string)> {
    if text == "" || text[0] < ' ' || text[0] == '"' then None
    else if text[0] != '\\' then Some((text[0], text[1..]))
    else if |text| < 2 then None
    else if text[1] == 'n' then Some(('\n', text[2..]))
    else if text[1] == 'r' then Some(('\r', text[2..]))
    else if text[1] == 't' then Some(('\t', text[2..]))
    else if text[1] == 'b' then Some((8 as char, text[2..]))
    else if text[1] == 'f' then Some((12 as char, text[2..]))
    else if text[1] == '"' || text[1] == '\\' || text[1] == '/' then Some((text[1], text[2..]))
    else if text[1] == 'u' && |text| >= 6 && IsHex4(text[2..6]) then
      var n := Hex4Value(text[2..6]);
      if Surrogate(n) then None else Some((n as char, text[6..]))
    else None
  }

  /** Reads the rest of a string literal up to and including its closing quote. */
  function ReadString(text: string): Option<(string, string)>
    decreases |text|
  {
    if text == "" then None
    else if text[0] == '"' then Some(("", text[1..]))
    else
      match ReadChar(text)
      case None => None
      case Some((c, rest)) =>
        if |rest| >= |text| then None
        else
          match ReadString(rest)
          case None => None
          case Some((v, after)) => Some(([c] + v, after))
  }

  lemma ReadUnicodeEscape(c: char, rest: string)
    requires (c as int) < 0x10000
    ensures ReadChar(UnicodeEscape(c) + rest) == Some((c, rest))
  {
    var text := UnicodeEscape(c) + rest;
    Hex4Reads(c as int);
    assert text[0] == '\\' && text[1] == 'u' && text[6..] == rest && text[2..6] == Hex4(c as int);
  }

  lemma ReadEscapedChar(c: char, rest: string)
    ensures ReadChar(EscapeChar(c) + rest) == Some((c, rest))
    ensures EscapeChar(c) != "" && EscapeChar(c)[0] != '"'
  {
    var text := EscapeChar(c) + rest;
    if |EscapeChar(c)| == 6 {
      ReadUnicodeEscape(c, rest);
    } else if |EscapeChar(c)| == 2 {
      assert text[0] == '\\' && text[1] == EscapeChar(c)[1] && text[2..] == rest;
    } else {
      assert text[0] == c && text[1..] == rest;
    }
  }

  /** Reading inverts quoting, whatever follows the closing quote. */
  lemma {:induction false} ReadQuoted(v: string, rest: string)
    ensures ReadString(Escape(v) + "\"" + rest) == Some((v, rest))
    decreases |v|
  {
    if v == "" {
      assert Escape(v) + "\"" + rest == "\"" + rest && ("\"" + rest)[1..] == rest;
    } else {
      var tail := Escape(v[1..]) + "\"" + rest;
      ReadQuoted(v[1..], rest);
      ReadOneMore(v[0], tail, v[1..], rest);
      AppendAssoc(EscapeChar(v[0]), Escape(v[1..]), "\"" + rest);
      AppendAssoc(Escape(v[1..]), "\"", rest);
      AppendAssoc(Escape(v), "\"", rest);
      assert v == [v[0]] + v[1..];
    }
  }

  lemma AppendAssoc(a: string, b: string, c: string)
    ensures a + b + c == a + (b + c)
  {
  }

  lemma ReadOneMore(c: char, tail: string, v: string, rest: string)
    requires ReadString(tail) == Some((v, rest))
    ensures ReadString(EscapeChar(c) + tail) == Some(([c] + v, rest))
  {
    ReadEscapedChar(c, tail);
  }
}
