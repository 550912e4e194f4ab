/** JSON values with whatever white space stands between their tokens, and their text, after the
    grammar of RFC 8259 (sections 2 to 7). The scanner accepts exactly these texts. */
module JsonValues {
  import opened Options
  import opened Json

  // ------------------------------------------------------------ values and their text

  /** One character of a string as written: itself, a two-character escape, or a \u escape. */
  datatype Unit = Plainly(c: char) | Short(c: char) | Code(hex: string)

  datatype Exponent = NoExponent | Exponent(e: char, sign: string, digits: string)

  /** Gaps hold the white space: of an empty container, before and after an item, around a colon. */
  datatype Value =
    | Null | True | False
    | Number(minus: bool, whole: string, frac: string, exp: Exponent)
    | Str(units: seq<Unit>)
    | EmptyArray(gap: string) | Array(items: Items)
    | EmptyObject(gap: string) | Object(members: Members)

  datatype Items =
    | LastItem(before: string, value: Value, after: string)
    | Item(before: string, value: Value, after: string, more: Items)

  datatype Members =
    | LastMember(before: string, key: seq<Unit>, mid: string, pre: string, value: Value, after: string)
    | Member(before: string, key: seq<Unit>, mid: string, pre: string, value: Value, after: string, more: Members)

  function UnitText(u: Unit): string {
    match u
    case Plainly(c) => [c]
    case Short(c) => ['\\', c]
    case Code(hex) => ['\\', 'u'] + hex
  }

  function UnitsText(units: seq<Unit>): string
    decreases |units|
  {
    if units == [] then "" else UnitText(units[0]) + UnitsText(units[1..])
  }

  function StrText(units: seq<Unit>): string { ['"'] + (UnitsText(units) + ['"']) }

  function ExponentText(x: Exponent): string {
    match x
    case NoExponent => ""
    case Exponent(e, sign, digits) => [e] + (sign + digits)
  }

  function FracText(frac: string): string { if frac == "" then "" else ['.'] + frac }

  function NumberText(minus: bool, whole: string, frac: string, exp: Exponent): string {
    (if minus then "-" else "") + (whole + (FracText(frac) + ExponentText(exp)))
  }

  function Text(v: Value): string {
    match v
    case Null => "null"
    case True => "true"
    case False => "false"
    case Number(minus, whole, frac, exp) => NumberText(minus, whole, frac, exp)
    case Str(units) => StrText(units)
    case EmptyArray(gap) => ['['] + (gap + [']'])
    case Array(items) => ['['] + (ItemsText(items) + [']'])
    case EmptyObject(gap) => ['{'] + (gap + ['}'])
    case Object(members) => ['{'] + (MembersText(members) + ['}'])
  }

  function ItemsText(items: Items): string {
    match items
    case LastItem(before, value, after) => before + (Text(value) + after)
    case Item(before, value, after, more) => before + (Text(value) + (after + ([','] + ItemsText(more))))
  }

  function MembersText(members: Members): string {
    match members
    case LastMember(before, key, mid, pre, value, after) =>
      before + (StrText(key) + (mid + ([':'] + (pre + (Text(value) + after)))))
    case Member(before, key, mid, pre, value, after, more) =>
      before + (StrText(key) + (mid + ([':'] + (pre + (Text(value) + (after + ([','] + MembersText(more))))))))
  }

  // ------------------------------------------------------------ well-formed values

  predicate Space(c: char) { c == ' ' || c == '\t' || c == '\n' || c == '\r' }
  predicate Gap(g: string) { forall c | c in g :: Space(c) }
  predicate Digit(c: char) { '0' <= c <= '9' }
  predicate Numerals(d: string) { d != "" && forall c | c in d :: Digit(c) }

  predicate UnitOk(u: Unit) {
    match u
    case Plainly(c) => ' ' <= c && c != '"' && c != '\\'
    case Short(c) => c in "\"\\/bfnrt"
    case Code(hex) => |hex| == 4 && forall c | c in hex :: Digit(c) || 'a' <= c <= 'f' || 'A' <= c <= 'F'
  }

  predicate UnitsOk(units: seq<Unit>) { forall u | u in units :: UnitOk(u) }

  predicate NumberOk(whole: string, frac: string, exp: Exponent) {
    && (whole == "0" || (Numerals(whole) && whole[0] != '0'))
    && (frac == "" || Numerals(frac))
    && (exp.Exponent? ==> (exp.e == 'e' || exp.e == 'E') && exp.sign in {"", "+", "-"} && Numerals(exp.digits))
  }

  predicate WellFormed(v: Value) {
    match v
    case Null => true
    case True => true
    case False => true
    case Number(minus, whole, frac, exp) => NumberOk(whole, frac, exp)
    case Str(units) => UnitsOk(units)
    case EmptyArray(gap) => Gap(gap)
    case Array(items) => ItemsOk(items)
    case EmptyObject(gap) => Gap(gap)
    case Object(members) => MembersOk(members)
  }

  predicate ItemsOk(items: Items) {
    Gap(items.before) && Gap(items.after) && WellFormed(items.value) && (items.Item? ==> ItemsOk(items.more))
  }

  predicate MembersOk(members: Members) {
    && Gap(members.before) && UnitsOk(members.key) && Gap(members.mid) && Gap(members.pre)
    && WellFormed(members.value) && Gap(members.after) && (members.Member? ==> MembersOk(members.more))
  }

  // ------------------------------------------------------------ the compact form

  /** The five characters that are never written plainly, each with its escape. */
  function TightUnit(u: Unit): Unit {
    if u == Plainly('<') then Code("003c")
    else if u == Plainly('>') then Code("003e")
    else if u == Plainly('&') then Code("0026")
    else if u == Plainly('\U{2028}') then Code("2028")
    else if u == Plainly('\U{2029}') then Code("2029")
    else u
  }

  function TightUnits(units: seq<Unit>): seq<Unit> {
    seq(|units|, i requires 0 <= i < |units| => TightUnit(units[i]))
  }

  /** The same value with no white space, and those characters escaped. */
  function Tight(v: Value): Value {
    match v
    case Str(units) => Str(TightUnits(units))
    case EmptyArray(_) => EmptyArray("")
    case Array(items) => Array(TightItems(items))
    case EmptyObject(_) => EmptyObject("")
    case Object(members) => Object(TightMembers(members))
    case _ => v
  }

  function TightItems(items: Items): Items {
    match items
    case LastItem(_, value, _) => LastItem("", Tight(value), "")
    case Item(_, value, _, more) => Item("", Tight(value), "", TightItems(more))
  }

  function TightMembers(members: Members): Members {
    match members
    case LastMember(_, key, _, _, value, _) => LastMember("", TightUnits(key), "", "", Tight(value), "")
    case Member(_, key, _, _, value, _, more) =>
      Member("", TightUnits(key), "", "", Tight(value), "", TightMembers(more))
  }

  // ------------------------------------------------------------ scanning a piece of text

  /** Scanning text from s leads to t and emits out. */
  predicate Runs(s: Scan, text: string, t: Scan, out: string) {
    ScanAll(s, text) == t && EmitAll(s, text) == out
  }

  lemma Then(s: Scan, a: string, t: Scan, x: string, b: string, u: Scan, y: string)
    requires Runs(s, a, t, x) && Runs(t, b, u, y)
    ensures Runs(s, a + b, u, x + y)
  {
    ScanConcat(s, a, b);
  }

  lemma One(s: Scan, c: char)
    requires !Escaped(c) && !Skipped(s, c)
    ensures Runs(s, [c], Next(s, c), [c])
  {
    assert [c][1..] == "";
  }

  /** Where a gap may stand before a token. */
  predicate Before(s: Scan) {
    s.mode == BeginValue || s.mode == BeginValueOrEmpty || s.mode == BeginString || s.mode == BeginStringOrEmpty
  }

  lemma {:induction false} GapBefore(s: Scan, g: string)
    requires Before(s) && Gap(g)
    ensures Runs(s, g, s, "")
    decreases |g|
  {
    if g != "" {
      assert g[0] in g && forall c | c in g[1..] :: c in g;
      GapBefore(s, g[1..]);
    }
  }

  /** A complete value has just been read. */
  predicate Done(t: Scan, stack: seq<Nest>) {
    t.stack == stack && Ended(t.mode) && (t.mode == EndTop ==> stack == [])
  }

  lemma {:induction false} GapAfter(t: Scan, g: string)
    requires Done(t, t.stack) && Gap(g)
    ensures Done(ScanAll(t, g), t.stack) && EmitAll(t, g) == ""
    decreases |g|
  {
    if g != "" {
      assert g[0] in g && forall c | c in g[1..] :: c in g;
      GapAfter(Next(t, g[0]), g[1..]);
    }
  }

  // ------------------------------------------------------------ every print is accepted

  lemma Hex4Is(n: nat, x: nat, y: nat, a: nat, b: nat, c: nat, d: nat)
    requires a < 16 && b < 16 && c < 16 && d < 16
    requires n == 16 * x + d && x == 16 * y + c && y == 16 * a + b
    ensures n < 0x10000 && Hex4(n) == [HexDigit(a), HexDigit(b), HexDigit(c), HexDigit(d)]
  {
    SixteenthOf(n, x, d);
    SixteenthOf(x, y, c);
    SixteenthOf(y, a, b);
  }

  lemma SixteenthOf(n: nat, q: nat, r: nat)
    requires r < 16 && n == 16 * q + r
    ensures n / 16 == q && n % 16 == r
  {
  }

  lemma HexDigits()
    ensures HexDigit(0) == '0' && HexDigit(2) == '2' && HexDigit(3) == '3' && HexDigit(6) == '6'
    ensures HexDigit(8) == '8' && HexDigit(9) == '9' && HexDigit(12) == 'c' && HexDigit(14) == 'e'
  {
  }

  lemma FiveEscapes(c: char)
    requires Escaped(c)
    ensures UnicodeEscape(c) == ['\\', 'u'] + TightUnit(Plainly(c)).hex && TightUnit(Plainly(c)).Code?
  {
    HexDigits();
    if c == '<' { Hex4Is(0x3c, 3, 0, 0, 0, 3, 12); }
    else if c == '>' { Hex4Is(0x3e, 3, 0, 0, 0, 3, 14); }
    else if c == '&' { Hex4Is(0x26, 2, 0, 0, 0, 2, 6); }
    else if c == '\U{2028}' { Hex4Is(0x2028, 0x202, 0x20, 2, 0, 2, 8); }
    else { Hex4Is(0x2029, 0x202, 0x20, 2, 0, 2, 9); }
  }

  lemma ScanPlainly(s: Scan, c: char)
    requires s.mode == InString && UnitOk(Plainly(c))
    ensures Runs(s, UnitText(Plainly(c)), s, UnitText(TightUnit(Plainly(c))))
  {
    assert [c][1..] == "";
    if Escaped(c) { FiveEscapes(c); }
  }

  lemma ScanShort(s: Scan, c: char)
    requires s.mode == InString && UnitOk(Short(c))
    ensures Runs(s, UnitText(Short(c)), s, UnitText(TightUnit(Short(c))))
  {
    var e := Scan(InEscape, s.stack);
    One(s, '\\');
    ShortStays(e, c);
    One(e, c);
    Then(s, ['\\'], e, ['\\'], [c], s, [c]);
    assert ['\\'] + [c] == ['\\', c];
  }

  lemma ShortStays(e: Scan, c: char)
    requires e.mode == InEscape && UnitOk(Short(c))
    ensures Next(e, c) == Scan(InString, e.stack) && !Escaped(c) && !IsSpace(c)
  {
  }

  lemma ScanEscape(s: Scan, hex: string)
    requires s.mode == InString && UnitOk(Code(hex))
    ensures Runs(s, ['\\', 'u'] + hex, s, ['\\', 'u'] + hex)
  {
    var e, x := Scan(InEscape, s.stack), Scan(InHex(4), s.stack);
    assert forall i | 0 <= i < 4 :: hex[i] in hex;
    One(s, '\\');
    EscapeOpens(s);
    One(e, 'u');
    HexRun(x, hex);
    Then(s, ['\\'], e, ['\\'], ['u'], x, ['u']);
    assert ['\\'] + ['u'] == ['\\', 'u'];
    Then(s, ['\\', 'u'], x, ['\\', 'u'], hex, s, hex);
  }

  lemma ScanCode(s: Scan, u: Unit, text: string)
    requires s.mode == InString && UnitOk(u) && u.Code? && text == UnitText(u)
    ensures Runs(s, text, s, text)
  {
    ScanEscape(s, u.hex);
  }

  lemma ScanUnit(s: Scan, u: Unit)
    requires s.mode == InString && UnitOk(u)
    ensures Runs(s, UnitText(u), s, UnitText(TightUnit(u)))
  {
    match u
    case Plainly(c) => ScanPlainly(s, c);
    case Short(c) => ScanShort(s, c);
    case Code(_) => ScanCode(s, u, UnitText(u));
  }

  lemma {:induction false} ScanUnits(s: Scan, units: seq<Unit>)
    requires s.mode == InString && UnitsOk(units)
    ensures Runs(s, UnitsText(units), s, UnitsText(TightUnits(units)))
    decreases |units|
  {
    if units != [] {
      assert units[0] in units && forall u | u in units[1..] :: u in units;
      assert TightUnits(units)[1..] == TightUnits(units[1..]);
      ScanUnit(s, units[0]);
      ScanUnits(s, units[1..]);
      Then(s, UnitText(units[0]), s, UnitText(TightUnit(units[0])),
           UnitsText(units[1..]), s, UnitsText(TightUnits(units[1..])));
    }
  }

  lemma ScanStr(s: Scan, units: seq<Unit>)
    requires Before(s) && UnitsOk(units)
    ensures Runs(s, StrText(units), Scan(EndValue, s.stack), StrText(TightUnits(units)))
  {
    var i := Scan(InString, s.stack);
    var a, b := UnitsText(units), UnitsText(TightUnits(units));
    One(s, '"');
    ScanUnits(i, units);
    One(i, '"');
    Then(i, a, i, b, ['"'], Scan(EndValue, s.stack), ['"']);
    Then(s, ['"'], i, ['"'], a + ['"'], Scan(EndValue, s.stack), b + ['"']);
  }

  lemma {:induction false} ScanDigits(s: Scan, d: string)
    requires (s.mode == Digits || s.mode == Frac || s.mode == ExpDigits) && forall c | c in d :: Digit(c)
    ensures Runs(s, d, s, d)
    decreases |d|
  {
    if d != "" {
      assert d[0] in d && forall c | c in d[1..] :: c in d;
      ScanDigits(s, d[1..]);
    }
  }

  /** A first character, then the rest, both emitted as they are. */
  lemma OneThen(s: Scan, text: string, t: Scan)
    requires text != "" && !Escaped(text[0]) && !IsSpace(text[0]) && Runs(Next(s, text[0]), text[1..], t, text[1..])
    ensures Runs(s, text, t, text)
  {
    assert text == [text[0]] + text[1..];
  }

  /** Digits from a mode whose next digit leads to mode m. */
  lemma DigitsFrom(s: Scan, d: string, m: Mode)
    requires Numerals(d) && Next(s, d[0]) == Scan(m, s.stack) && (m == Digits || m == Frac || m == ExpDigits)
    ensures Runs(s, d, Scan(m, s.stack), d)
  {
    assert d[0] in d && forall c | c in d[1..] :: c in d;
    ScanDigits(Scan(m, s.stack), d[1..]);
    OneThen(s, d, Scan(m, s.stack));
  }

  predicate AtStart(s: Scan) { s.mode == BeginValue || s.mode == BeginValueOrEmpty }

  predicate InInteger(m: Mode) { m == Zero || m == Digits }

  lemma ScanWhole(s: Scan, whole: string)
    requires (AtStart(s) || s.mode == Neg) && (whole == "0" || (Numerals(whole) && whole[0] != '0'))
    ensures Runs(s, whole, Scan(if whole == "0" then Zero else Digits, s.stack), whole)
  {
    if whole == "0" {
      One(s, '0');
    } else {
      assert whole[0] in whole;
      DigitsFrom(s, whole, Digits);
    }
  }

  lemma ScanFrac(s: Scan, frac: string)
    requires InInteger(s.mode) && (frac == "" || Numerals(frac))
    ensures Runs(s, FracText(frac), if frac == "" then s else Scan(Frac, s.stack), FracText(frac))
  {
    if frac != "" {
      assert frac[0] in frac;
      DigitsFrom(Scan(Dot, s.stack), frac, Frac);
      assert (['.'] + frac)[1..] == frac;
      OneThen(s, ['.'] + frac, Scan(Frac, s.stack));
    }
  }

  lemma ScanExponent(s: Scan, x: Exponent)
    requires InInteger(s.mode) || s.mode == Frac
    requires x.Exponent? ==> (x.e == 'e' || x.e == 'E') && x.sign in {"", "+", "-"} && Numerals(x.digits)
    ensures Runs(s, ExponentText(x), if x.NoExponent? then s else Scan(ExpDigits, s.stack), ExponentText(x))
  {
    if x.Exponent? {
      var tail := x.sign + x.digits;
      ScanSigned(Scan(Exp, s.stack), x.sign, x.digits);
      assert ([x.e] + tail)[1..] == tail;
      OneThen(s, [x.e] + tail, Scan(ExpDigits, s.stack));
    }
  }

  lemma ScanSigned(s: Scan, sign: string, digits: string)
    requires s.mode == Exp && sign in {"", "+", "-"} && Numerals(digits)
    ensures Runs(s, sign + digits, Scan(ExpDigits, s.stack), sign + digits)
  {
    assert digits[0] in digits;
    if sign == "" {
      DigitsFrom(s, digits, ExpDigits);
      assert sign + digits == digits;
    } else {
      DigitsFrom(Scan(ExpSign, s.stack), digits, ExpDigits);
      assert (sign + digits)[1..] == digits;
      OneThen(s, sign + digits, Scan(ExpDigits, s.stack));
    }
  }

  lemma ScanNumber(s: Scan, v: Value)
    requires AtStart(s) && v.Number? && WellFormed(v)
    ensures Done(ScanAll(s, Text(v)), s.stack) && EmitAll(s, Text(v)) == Text(v)
  {
    var s1 := if v.minus then Scan(Neg, s.stack) else s;
    var m := if v.minus then "-" else "";
    if v.minus { One(s, '-'); }
    ScanWhole(s1, v.whole);
    var s2 := Scan(if v.whole == "0" then Zero else Digits, s.stack);
    ScanFrac(s2, v.frac);
    var s3 := if v.frac == "" then s2 else Scan(Frac, s.stack);
    ScanExponent(s3, v.exp);
    var s4 := if v.exp.NoExponent? then s3 else Scan(ExpDigits, s.stack);
    var x, y := FracText(v.frac), ExponentText(v.exp);
    Then(s2, x, s3, x, y, s4, y);
    Then(s1, v.whole, s2, v.whole, x + y, s4, x + y);
    Then(s, m, s1, m, v.whole + (x + y), s4, v.whole + (x + y));
  }

  lemma {:induction false} ScanLetters(s: Scan, word: string)
    requires word != "" && s.mode == Word(word) && forall i | 0 <= i < |word| :: 'a' <= word[i] <= 'z'
    ensures Runs(s, word, Scan(EndValue, s.stack), word)
    decreases |word|
  {
    if |word| == 1 {
      assert word[1..] == "";
    } else {
      ScanLetters(Next(s, word[0]), word[1..]);
    }
    OneThen(s, word, Scan(EndValue, s.stack));
  }

  lemma ScanWord(s: Scan, c: char, rest: string)
    requires AtStart(s)
    requires (c == 'n' && rest == "ull") || (c == 't' && rest == "rue") || (c == 'f' && rest == "alse")
    ensures Runs(s, [c] + rest, Scan(EndValue, s.stack), [c] + rest)
  {
    ScanLetters(Scan(Word(rest), s.stack), rest);
    assert ([c] + rest)[1..] == rest;
    OneThen(s, [c] + rest, Scan(EndValue, s.stack));
  }

  /** Scanning a value leads past it, with the stack as it was, and emits its compact form. */
  lemma {:induction false} ScanValue(s: Scan, v: Value)
    requires AtStart(s) && WellFormed(v)
    ensures Done(ScanAll(s, Text(v)), s.stack) && EmitAll(s, Text(v)) == Text(Tight(v))
    decreases v
  {
    match v
    case Null => assert "null" == ['n'] + "ull"; ScanWord(s, 'n', "ull");
    case True => assert "true" == ['t'] + "rue"; ScanWord(s, 't', "rue");
    case False => assert "false" == ['f'] + "alse"; ScanWord(s, 'f', "alse");
    case Number(_, _, _, _) => ScanNumber(s, v);
    case Str(units) => ScanStr(s, units);
    case EmptyArray(gap) => ScanEmpty(s, '[', gap, ']');
    case EmptyObject(gap) => ScanEmpty(s, '{', gap, '}');
    case Array(items) =>
      var i := Scan(BeginValueOrEmpty, s.stack + [ArrayValue]);
      ScanItems(i, s.stack, items);
      Enclosed(s, '[', i, ItemsText(items), ScanAll(i, ItemsText(items)), ItemsText(TightItems(items)), ']');
    case Object(members) =>
      var i := Scan(BeginStringOrEmpty, s.stack + [ObjectKey]);
      ScanMembers(i, s.stack, members);
      Enclosed(s, '{', i, MembersText(members), ScanAll(i, MembersText(members)), MembersText(TightMembers(members)), '}');
  }

  lemma ScanEmpty(s: Scan, open: char, gap: string, close: char)
    requires AtStart(s) && Gap(gap) && ((open == '[' && close == ']') || (open == '{' && close == '}'))
    ensures var text := [open] + (gap + [close]);
      Done(ScanAll(s, text), s.stack) && EmitAll(s, text) == [open] + ("" + [close])
  {
    var i := if open == '[' then Scan(BeginValueOrEmpty, s.stack + [ArrayValue]) else Scan(BeginStringOrEmpty, s.stack + [ObjectKey]);
    var t := Next(i, close);
    GapBefore(i, gap);
    One(s, open);
    One(i, close);
    Then(i, gap, i, "", [close], t, [close]);
    Then(s, [open], i, [open], gap + [close], t, "" + [close]);
    assert i.stack[..|i.stack| - 1] == s.stack;
  }

  lemma Enclosed(s: Scan, open: char, i: Scan, body: string, t: Scan, out: string, close: char)
    requires AtStart(s) && Next(s, open) == i && Runs(i, body, t, out)
    requires || (open == '[' && close == ']' && Done(t, s.stack + [ArrayValue]))
             || (open == '{' && close == '}' && Done(t, s.stack + [ObjectValue]))
    ensures var text := [open] + (body + [close]);
      Done(ScanAll(s, text), s.stack) && EmitAll(s, text) == [open] + (out + [close])
  {
    var u := Next(t, close);
    Closes(t, s.stack, close);
    One(s, open);
    Then(i, body, t, out, [close], u, [close]);
    Then(s, [open], i, [open], body + [close], u, out + [close]);
  }

  lemma Closes(t: Scan, outer: seq<Nest>, close: char)
    requires || (close == ']' && Done(t, outer + [ArrayValue])) || (close == '}' && Done(t, outer + [ObjectValue]))
    ensures Done(Next(t, close), outer) && Runs(t, [close], Next(t, close), [close])
  {
    assert t.stack[..|t.stack| - 1] == outer;
    AfterDone(t, close);
    One(t, close);
  }

  /** A comma leads to the next item or member. */
  lemma CommaThen(t: Scan, outer: seq<Nest>, next: Scan, more: string, u: Scan, out: string)
    requires || (Done(t, outer + [ArrayValue]) && next == Scan(BeginValue, outer + [ArrayValue]))
             || (Done(t, outer + [ObjectValue]) && next == Scan(BeginString, outer + [ObjectKey]))
    requires Runs(next, more, u, out)
    ensures Runs(t, [','] + more, u, [','] + out)
  {
    assert t.stack[..|t.stack| - 1] == outer;
    AfterDone(t, ',');
    One(t, ',');
    Then(t, [','], next, [','], more, u, out);
  }

  predicate Punctuation(c: char) { c == ',' || c == ':' || c == ']' || c == '}' }

  /** Punctuation or white space after a value is read as after any value. */
  lemma AfterDone(t: Scan, c: char)
    requires Done(t, t.stack) && (Punctuation(c) || IsSpace(c))
    ensures Next(t, c) == AfterValue(Scan(EndValue, t.stack), c)
  {
  }

  lemma {:induction false} ScanItems(s: Scan, outer: seq<Nest>, items: Items)
    requires AtStart(s) && s.stack == outer + [ArrayValue] && ItemsOk(items)
    ensures Done(ScanAll(s, ItemsText(items)), s.stack) && EmitAll(s, ItemsText(items)) == ItemsText(TightItems(items))
    decreases items
  {
    var first, tight := items.before + (Text(items.value) + items.after), Text(Tight(items.value));
    ScanValue(s, items.value);
    ValueInGaps(s, items.before, items.value, items.after);
    ItemParts(items);
    ItemParts(TightItems(items));
    var t := ScanAll(s, first);
    assert "" + (tight + "") == tight;
    if items.Item? {
      var next := Scan(BeginValue, s.stack);
      var more, out := ItemsText(items.more), ItemsText(TightItems(items.more));
      ScanItems(next, outer, items.more);
      CommaThen(t, outer, next, more, ScanAll(next, more), out);
      Then(s, first, t, tight, [','] + more, ScanAll(next, more), [','] + out);
    }
  }

  lemma ItemParts(items: Items)
    ensures var first := items.before + (Text(items.value) + items.after);
      ItemsText(items) == if items.LastItem? then first else first + ([','] + ItemsText(items.more))
  {
  }

  /** A value with a gap on either side. */
  lemma ValueInGaps(s: Scan, before: string, v: Value, after: string)
    requires AtStart(s) && Gap(before) && Gap(after)
    requires Done(ScanAll(s, Text(v)), s.stack) && EmitAll(s, Text(v)) == Text(Tight(v))
    ensures var text := before + (Text(v) + after);
      Done(ScanAll(s, text), s.stack) && EmitAll(s, text) == Text(Tight(v))
  {
    var t, out := ScanAll(s, Text(v)), Text(Tight(v));
    GapBefore(s, before);
    GapAfter(t, after);
    var u := ScanAll(t, after);
    Then(s, Text(v), t, out, after, u, "");
    Then(s, before, s, "", Text(v) + after, u, out + "");
  }

  lemma {:induction false} ScanMembers(s: Scan, outer: seq<Nest>, members: Members)
    requires (s.mode == BeginString || s.mode == BeginStringOrEmpty) && s.stack == outer + [ObjectKey] && MembersOk(members)
    ensures Done(ScanAll(s, MembersText(members)), outer + [ObjectValue])
    ensures EmitAll(s, MembersText(members)) == MembersText(TightMembers(members))
    decreases members
  {
    var first, out := FirstText(members), FirstText(TightMembers(members));
    ScanValue(Scan(BeginValue, outer + [ObjectValue]), members.value);
    ScanMember(s, outer, members);
    MemberParts(members);
    MemberParts(TightMembers(members));
    if members.Member? {
      var next := Scan(BeginString, outer + [ObjectKey]);
      var more, rest := MembersText(members.more), MembersText(TightMembers(members.more));
      ScanMembers(next, outer, members.more);
      CommaThen(ScanAll(s, first), outer, next, more, ScanAll(next, more), rest);
      Then(s, first, ScanAll(s, first), out, [','] + more, ScanAll(next, more), [','] + rest);
    }
  }

  lemma ScanMember(s: Scan, outer: seq<Nest>, members: Members)
    requires (s.mode == BeginString || s.mode == BeginStringOrEmpty) && s.stack == outer + [ObjectKey] && MembersOk(members)
    requires var v, text := Scan(BeginValue, outer + [ObjectValue]), Text(members.value);
      Done(ScanAll(v, text), v.stack) && EmitAll(v, text) == Text(Tight(members.value))
    ensures Done(ScanAll(s, FirstText(members)), outer + [ObjectValue])
    ensures EmitAll(s, FirstText(members)) == FirstText(TightMembers(members))
  {
    var v := Scan(BeginValue, outer + [ObjectValue]);
    var body, tight := members.pre + (Text(members.value) + members.after), Text(Tight(members.value));
    ScanKey(s, outer, members);
    ValueInGaps(v, members.pre, members.value, members.after);
    Then(s, KeyText(members), v, StrText(TightUnits(members.key)) + [':'], body, ScanAll(v, body), tight);
    TightFirst(members);
  }

  lemma TightFirst(members: Members)
    ensures FirstText(TightMembers(members)) == StrText(TightUnits(members.key)) + [':'] + Text(Tight(members.value))
  {
    var key, value := StrText(TightUnits(members.key)), Text(Tight(members.value));
    assert "" + (key + ("" + [':'])) == key + [':'] && "" + (value + "") == value;
  }

  function FirstText(members: Members): string {
    KeyText(members) + (members.pre + (Text(members.value) + members.after))
  }

  function KeyText(members: Members): string {
    members.before + (StrText(members.key) + (members.mid + [':']))
  }

  lemma MemberParts(members: Members)
    ensures MembersText(members)
         == if members.LastMember? then FirstText(members) else FirstText(members) + ([','] + MembersText(members.more))
  {
    var m, v := members, Text(members.value);
    if m.Member? {
      SixJoin(m.before, StrText(m.key), m.mid, m.pre, v, m.after, [','] + MembersText(m.more));
    } else {
      SixJoin(m.before, StrText(m.key), m.mid, m.pre, v, m.after, "");
      assert m.after + "" == m.after;
    }
  }

  lemma SixJoin(a: string, b: string, c: string, d: string, e: string, f: string, more: string)
    ensures a + (b + (c + ([':'] + (d + (e + (f + more)))))) == a + (b + (c + [':'])) + (d + (e + f)) + more
  {
    var t := d + (e + (f + more));
    assert t == d + (e + f) + more;
    assert a + (b + (c + ([':'] + t))) == a + (b + (c + [':'])) + t;
  }

  lemma ScanKey(s: Scan, outer: seq<Nest>, members: Members)
    requires (s.mode == BeginString || s.mode == BeginStringOrEmpty) && s.stack == outer + [ObjectKey] && MembersOk(members)
    ensures Runs(s, KeyText(members), Scan(BeginValue, outer + [ObjectValue]), StrText(TightUnits(members.key)) + [':'])
  {
    var e, v := Scan(EndValue, s.stack), Scan(BeginValue, outer + [ObjectValue]);
    var key, out := StrText(members.key), StrText(TightUnits(members.key));
    GapBefore(s, members.before);
    ScanStr(s, members.key);
    GapAfter(e, members.mid);
    var t := ScanAll(e, members.mid);
    AfterDone(t, ':');
    assert t.stack[..|t.stack| - 1] == outer;
    One(t, ':');
    Then(e, members.mid, t, "", [':'], v, [':']);
    Then(s, key, e, out, members.mid + [':'], v, "" + [':']);
    Then(s, members.before, s, "", key + (members.mid + [':']), v, out + ("" + [':']));
  }
}
