/** The scanner accepts nothing but texts of JSON values: from any accepted text the value and its
    white space are read back. */
module JsonAccepts {
  import opened Options
  import opened Json
  import opened JsonValues

  /** Read on from s, the text completes a value and nothing is left open. */
  predicate Accepts(s: Scan, text: string) {
    var t := ScanAll(s, text);
    t.stack == [] && Ended(t.mode)
  }

  lemma AcceptsFrom(s: Scan, a: string, b: string)
    requires Accepts(s, a + b)
    ensures Accepts(ScanAll(s, a), b)
  {
    ScanConcat(s, a, b);
  }

  /** One character of an accepted text. */
  lemma AcceptsNext(s: Scan, text: string)
    requires Accepts(s, text) && text != ""
    ensures Next(s, text[0]).mode != Bad && Accepts(Next(s, text[0]), text[1..])
  {
    if Next(s, text[0]).mode == Bad {
      BadStays(Next(s, text[0]), text[1..]);
    }
  }

  // ------------------------------------------------------------ gaps and digits

  lemma {:induction false} TakeGap(text: string) returns (g: string, rest: string)
    ensures text == g + rest && Gap(g) && (rest != "" ==> !Space(rest[0]))
    decreases |text|
  {
    if text == "" || !Space(text[0]) {
      g, rest := "", text;
    } else {
      g, rest := TakeGap(text[1..]);
      g := [text[0]] + g;
    }
  }

  lemma {:induction false} TakeDigits(text: string) returns (d: string, rest: string)
    ensures text == d + rest && (forall c | c in d :: Digit(c)) && (rest != "" ==> !Digit(rest[0]))
    ensures text != "" && Digit(text[0]) ==> d != "" && d[0] == text[0]
    decreases |text|
  {
    if text == "" || !Digit(text[0]) {
      d, rest := "", text;
    } else {
      d, rest := TakeDigits(text[1..]);
      d := [text[0]] + d;
    }
  }

  /** After a value, white space changes nothing about what may follow. */
  lemma {:induction false} AcceptsPastGap(stack: seq<Nest>, g: string, rest: string)
    requires Gap(g) && Accepts(Scan(EndValue, stack), g + rest)
    ensures Accepts(Scan(EndValue, stack), rest)
    decreases |g|
  {
    if g == "" {
      assert g + rest == rest;
    } else {
      assert g[0] in g && (forall c | c in g[1..] :: c in g) && (g + rest)[0] == g[0] && (g + rest)[1..] == g[1..] + rest;
      AcceptsAfter(Next(Scan(EndValue, stack), g[0]), stack, g[1..] + rest);
      AcceptsPastGap(stack, g[1..], rest);
    }
  }

  /** A complete value with nothing more of its own to come is like any other. */
  lemma AcceptsAfter(t: Scan, stack: seq<Nest>, rest: string)
    requires Done(t, stack) && Accepts(t, rest)
    requires rest != "" && t.mode != EndTop ==> Next(t, rest[0]) == AfterValue(Scan(EndValue, stack), rest[0])
    ensures Accepts(Scan(EndValue, stack), rest)
  {
  }

  // ------------------------------------------------------------ words, strings, numbers

  lemma {:induction false} ReadLetters(s: Scan, word: string, text: string)
    requires word != "" && s.mode == Word(word) && Accepts(s, text)
    ensures word <= text && Accepts(Scan(EndValue, s.stack), text[|word|..])
    decreases |word|
  {
    AcceptsNext(s, text);
    if |word| > 1 {
      ReadLetters(Next(s, text[0]), word[1..], text[1..]);
      assert word == [word[0]] + word[1..] && text == [text[0]] + text[1..];
      assert text[|word|..] == text[1..][|word| - 1..];
    }
  }

  lemma ReadUnit(s: Scan, text: string) returns (u: Unit, rest: string)
    requires s.mode == InString && Accepts(s, text) && text != "" && text[0] != '"'
    ensures UnitOk(u) && text == UnitText(u) + rest && Accepts(s, rest)
  {
    var c := text[0];
    AcceptsNext(s, text);
    if c != '\\' {
      u, rest := Plainly(c), text[1..];
    } else {
      u, rest := ReadEscape(s, text[1..]);
    }
  }

  lemma ReadEscape(s: Scan, text: string) returns (u: Unit, rest: string)
    requires s.mode == InString && Accepts(Scan(InEscape, s.stack), text)
    ensures UnitOk(u) && ['\\'] + text == UnitText(u) + rest && Accepts(s, rest)
  {
    AcceptsNext(Scan(InEscape, s.stack), text);
    if text[0] == 'u' {
      var hex := text[1..];
      ReadHex(Scan(InHex(4), s.stack), hex);
      u, rest := Code(hex[..4]), hex[4..];
      assert text == ['u'] + hex && hex == hex[..4] + rest;
      CodeJoins(hex[..4], rest);
    } else {
      u, rest := Short(text[0]), text[1..];
      assert ['\\'] + text == ['\\', text[0]] + rest;
    }
  }

  lemma CodeJoins(hex: string, rest: string)
    ensures ['\\'] + (['u'] + (hex + rest)) == ['\\', 'u'] + hex + rest
  {
  }

  lemma {:induction false} ReadHex(s: Scan, text: string)
    requires s.mode.InHex? && 0 < s.mode.left && Accepts(s, text)
    ensures s.mode.left <= |text| && (forall i | 0 <= i < s.mode.left :: IsHex(text[i]))
    ensures Accepts(Scan(InString, s.stack), text[s.mode.left..])
    decreases s.mode.left
  {
    AcceptsNext(s, text);
    var n := s.mode.left;
    if n > 1 {
      ReadHex(Next(s, text[0]), text[1..]);
      assert text[n..] == text[1..][n - 1..];
      assert forall i | 1 <= i < n :: text[i] == text[1..][i - 1];
    }
  }

  lemma {:induction false} ReadUnits(s: Scan, text: string) returns (units: seq<Unit>, rest: string)
    requires s.mode == InString && Accepts(s, text)
    ensures UnitsOk(units) && text == UnitsText(units) + (['"'] + rest) && Accepts(Scan(EndValue, s.stack), rest)
    decreases |text|
  {
    if text[0] == '"' {
      AcceptsNext(s, text);
      units, rest := [], text[1..];
      assert text == "" + (['"'] + rest);
    } else {
      var u, after := ReadUnit(s, text);
      units, rest := ReadUnits(s, after);
      UnitsCons(u, units, rest);
      units := [u] + units;
    }
  }

  lemma UnitsCons(u: Unit, units: seq<Unit>, rest: string)
    ensures UnitsText([u] + units) + (['"'] + rest) == UnitText(u) + (UnitsText(units) + (['"'] + rest))
  {
    assert ([u] + units)[1..] == units;
  }

  lemma ReadStr(s: Scan, text: string) returns (units: seq<Unit>, rest: string)
    requires Before(s) && text != "" && text[0] == '"' && Accepts(s, text)
    ensures UnitsOk(units) && text == StrText(units) + rest && Accepts(Scan(EndValue, s.stack), rest)
  {
    AcceptsNext(s, text);
    units, rest := ReadUnits(Scan(InString, s.stack), text[1..]);
    assert text == ['"'] + text[1..];
    assert text == StrText(units) + rest;
  }

  lemma ReadWhole(s: Scan, text: string) returns (whole: string, rest: string)
    requires (AtStart(s) || s.mode == Neg) && text != "" && Digit(text[0]) && Accepts(s, text)
    ensures text == whole + rest && (whole == "0" || (Numerals(whole) && whole[0] != '0'))
    ensures Accepts(Scan(if whole == "0" then Zero else Digits, s.stack), rest)
    ensures whole != "0" && rest != "" ==> !Digit(rest[0])
  {
    if text[0] == '0' {
      AcceptsNext(s, text);
      whole, rest := "0", text[1..];
    } else {
      whole, rest := TakeDigits(text);
      DigitsFrom(s, whole, Digits);
      AcceptsFrom(s, whole, rest);
    }
  }

  lemma ReadFrac(s: Scan, text: string) returns (frac: string, rest: string)
    requires InInteger(s.mode) && Accepts(s, text) && (s.mode == Digits && text != "" ==> !Digit(text[0]))
    ensures text == FracText(frac) + rest && (frac == "" || Numerals(frac))
    ensures Accepts(if frac == "" then s else Scan(Frac, s.stack), rest)
    ensures frac == "" && rest != "" ==> rest[0] != '.' && (s.mode == Digits ==> !Digit(rest[0]))
    ensures frac != "" && rest != "" ==> !Digit(rest[0])
  {
    if text == "" || text[0] != '.' {
      frac, rest := "", text;
    } else {
      AcceptsNext(s, text);
      frac, rest := ReadFraction(Scan(Dot, s.stack), text[1..]);
      assert text == ['.'] + text[1..];
      assert FracText(frac) + rest == ['.'] + (frac + rest);
    }
  }

  lemma ReadFraction(d: Scan, text: string) returns (frac: string, rest: string)
    requires d.mode == Dot && Accepts(d, text)
    ensures text == frac + rest && Numerals(frac) && Accepts(Scan(Frac, d.stack), rest) && (rest != "" ==> !Digit(rest[0]))
  {
    AcceptsNext(d, text);
    frac, rest := TakeDigits(text);
    DigitsFrom(d, frac, Frac);
    AcceptsFrom(d, frac, rest);
  }

  lemma ReadExponent(s: Scan, text: string) returns (x: Exponent, rest: string)
    requires (InInteger(s.mode) || s.mode == Frac) && Accepts(s, text)
    requires text != "" ==> (s.mode == Zero || !Digit(text[0])) && (InInteger(s.mode) ==> text[0] != '.')
    ensures text == ExponentText(x) + rest
    ensures x.Exponent? ==> (x.e == 'e' || x.e == 'E') && x.sign in {"", "+", "-"} && Numerals(x.digits)
    ensures Accepts(Scan(EndValue, s.stack), rest)
  {
    if text == "" || (text[0] != 'e' && text[0] != 'E') {
      x, rest := NoExponent, text;
      NumberEnds(s, text);
    } else {
      AcceptsNext(s, text);
      x, rest := ReadPower(Scan(Exp, s.stack), text[0], text[1..]);
      assert text == [text[0]] + text[1..];
      NumberEnds(Scan(ExpDigits, s.stack), rest);
    }
  }

  lemma NumberEnds(s: Scan, rest: string)
    requires (InInteger(s.mode) || s.mode == Frac || s.mode == ExpDigits) && Accepts(s, rest)
    requires rest != "" ==> (s.mode == Zero || !Digit(rest[0])) && (InInteger(s.mode) ==> rest[0] != '.')
                            && (s.mode != ExpDigits ==> rest[0] != 'e' && rest[0] != 'E')
    ensures Accepts(Scan(EndValue, s.stack), rest)
  {
    AcceptsAfter(s, s.stack, rest);
  }

  lemma ReadPower(s: Scan, e: char, text: string) returns (x: Exponent, rest: string)
    requires s.mode == Exp && Accepts(s, text) && (e == 'e' || e == 'E')
    ensures [e] + text == ExponentText(x) + rest && x.Exponent?
    ensures (x.e == 'e' || x.e == 'E') && x.sign in {"", "+", "-"} && Numerals(x.digits)
    ensures Accepts(Scan(ExpDigits, s.stack), rest) && (rest != "" ==> !Digit(rest[0]))
  {
    var sign, digits, after := ReadSigned(s, text);
    x, rest := Exponent(e, sign, digits), after;
    assert ExponentText(x) + rest == [e] + (sign + digits + rest);
  }

  lemma ReadSigned(s: Scan, text: string) returns (sign: string, digits: string, rest: string)
    requires s.mode == Exp && Accepts(s, text)
    ensures text == sign + digits + rest && sign in {"", "+", "-"} && Numerals(digits)
    ensures Accepts(Scan(ExpDigits, s.stack), rest) && (rest != "" ==> !Digit(rest[0]))
  {
    AcceptsNext(s, text);
    if Digit(text[0]) {
      sign := "";
      digits, rest := TakeDigits(text);
      DigitsFrom(s, digits, ExpDigits);
      AcceptsFrom(s, digits, rest);
    } else {
      var g := Scan(ExpSign, s.stack);
      AcceptsNext(g, text[1..]);
      sign := [text[0]];
      digits, rest := TakeDigits(text[1..]);
      DigitsFrom(g, digits, ExpDigits);
      AcceptsFrom(g, digits, rest);
      assert text == sign + (digits + rest);
    }
  }

  lemma ReadNumber(s: Scan, text: string) returns (v: Value, rest: string)
    requires AtStart(s) && text != "" && (text[0] == '-' || Digit(text[0])) && Accepts(s, text)
    ensures v.Number? && WellFormed(v) && text == Text(v) + rest && Accepts(Scan(EndValue, s.stack), rest)
  {
    if text[0] == '-' {
      AcceptsNext(s, text);
      AcceptsNext(Scan(Neg, s.stack), text[1..]);
      v, rest := ReadUnsigned(Scan(Neg, s.stack), true, text[1..]);
      assert text == "-" + text[1..];
    } else {
      v, rest := ReadUnsigned(s, false, text);
      assert text == "" + text;
    }
  }

  lemma ReadUnsigned(s: Scan, minus: bool, text: string) returns (v: Value, rest: string)
    requires (AtStart(s) || s.mode == Neg) && text != "" && Digit(text[0]) && Accepts(s, text)
    ensures v.Number? && WellFormed(v) && (if minus then "-" else "") + text == Text(v) + rest
    ensures Accepts(Scan(EndValue, s.stack), rest)
  {
    var whole, t2 := ReadWhole(s, text);
    var s2 := Scan(if whole == "0" then Zero else Digits, s.stack);
    var frac, t3 := ReadFrac(s2, t2);
    var exp, t4 := ReadExponent(if frac == "" then s2 else Scan(Frac, s.stack), t3);
    v, rest := Number(minus, whole, frac, exp), t4;
    NumberJoins(if minus then "-" else "", whole, FracText(frac), ExponentText(exp), rest);
  }

  lemma NumberJoins(a: string, b: string, c: string, d: string, rest: string)
    ensures a + (b + (c + (d + rest))) == a + (b + (c + d)) + rest
  {
  }

  // ------------------------------------------------------------ values

  lemma ReadWord(s: Scan, text: string) returns (v: Value, rest: string)
    requires AtStart(s) && text != "" && text[0] in "ntf" && Accepts(s, text)
    ensures WellFormed(v) && text == Text(v) + rest && Accepts(Scan(EndValue, s.stack), rest)
  {
    AcceptsNext(s, text);
    if text[0] == 'n' {
      v := Null;
      rest := ReadNamed(s, 'n', "ull", text);
    } else if text[0] == 't' {
      v := True;
      rest := ReadNamed(s, 't', "rue", text);
    } else {
      v := False;
      rest := ReadNamed(s, 'f', "alse", text);
    }
    WordTexts();
  }

  lemma WordTexts()
    ensures Text(Null) == ['n'] + "ull" && Text(True) == ['t'] + "rue" && Text(False) == ['f'] + "alse"
  {
  }

  lemma ReadNamed(s: Scan, c: char, word: string, text: string) returns (rest: string)
    requires word != "" && text != "" && text[0] == c && Next(s, c) == Scan(Word(word), s.stack) && Accepts(s, text)
    ensures text == [c] + word + rest && Accepts(Scan(EndValue, s.stack), rest)
  {
    ReadLetters(Scan(Word(word), s.stack), word, text[1..]);
    rest := text[1..][|word|..];
    assert text == [c] + text[1..] && text[1..] == word + rest;
  }

  /** An accepted text starts with a value; what follows continues after any value. */
  lemma {:induction false} ReadValue(s: Scan, text: string) returns (v: Value, rest: string)
    requires AtStart(s) && Accepts(s, text) && (text != "" ==> !Space(text[0]) && (s.mode == BeginValueOrEmpty ==> text[0] != ']'))
    ensures WellFormed(v) && text == Text(v) + rest && Accepts(Scan(EndValue, s.stack), rest)
    ensures |rest| < |text|
    decreases |text|, 1
  {
    var c := text[0];
    AcceptsNext(s, text);
    assert text == [c] + text[1..];
    if c in "ntf" {
      v, rest := ReadWord(s, text);
    } else if c == '-' || Digit(c) {
      v, rest := ReadNumber(s, text);
    } else if c == '"' {
      var units, after := ReadStr(s, text);
      v, rest := Str(units), after;
    } else if c == '[' {
      v, rest := ReadArray(s, text);
    } else {
      v, rest := ReadObject(s, text);
    }
    TextNotEmpty(v);
  }

  lemma TextNotEmpty(v: Value)
    requires WellFormed(v)
    ensures Text(v) != ""
  {
  }

  lemma {:induction false} ReadArray(s: Scan, text: string) returns (v: Value, rest: string)
    requires AtStart(s) && text != "" && text[0] == '[' && Accepts(s, text)
    ensures WellFormed(v) && text == Text(v) + rest && Accepts(Scan(EndValue, s.stack), rest)
    decreases |text|, 0
  {
    var i := Scan(BeginValueOrEmpty, s.stack + [ArrayValue]);
    AcceptsNext(s, text);
    var gap, t1 := TakeGap(text[1..]);
    GapBefore(i, gap);
    AcceptsFrom(i, gap, t1);
    assert text == ['['] + (gap + t1);
    if t1[0] == ']' {
      v, rest := EmptyArray(gap), t1[1..];
      ReadClose(i, s.stack, t1);
      assert t1 == [']'] + rest;
      Encloses('[', gap, ']', rest);
    } else {
      var items, after := ReadItems(i, s.stack, gap, t1);
      v, rest := Array(items), after;
      Encloses('[', ItemsText(items), ']', rest);
    }
  }

  lemma Encloses(open: char, body: string, close: char, rest: string)
    ensures [open] + (body + ([close] + rest)) == [open] + (body + [close]) + rest
  {
  }

  /** A closing bracket ends a container. */
  lemma ReadClose(t: Scan, outer: seq<Nest>, text: string)
    requires text != "" && Accepts(t, text) && t.stack != [] && t.stack[..|t.stack| - 1] == outer
    requires Next(t, text[0]) == Pop(t)
    ensures Accepts(Scan(EndValue, outer), text[1..])
  {
    AcceptsNext(t, text);
    AcceptsAfter(Pop(t), outer, text[1..]);
  }

  /** A comma, and the gap up to the next item or key. */
  lemma ReadComma(outer: seq<Nest>, top: Nest, text: string) returns (gap: string, rest: string)
    requires text != "" && text[0] == ',' && (top == ArrayValue || top == ObjectValue)
    requires Accepts(Scan(EndValue, outer + [top]), text)
    ensures text == [','] + (gap + rest) && Gap(gap) && (rest != "" ==> !Space(rest[0])) && |rest| < |text|
    ensures Accepts(if top == ArrayValue then Scan(BeginValue, outer + [ArrayValue]) else Scan(BeginString, outer + [ObjectKey]), rest)
  {
    var stack := outer + [top];
    assert stack[..|stack| - 1] == outer && stack[|stack| - 1] == top;
    AcceptsNext(Scan(EndValue, stack), text);
    var next := if top == ArrayValue then Scan(BeginValue, stack) else Scan(BeginString, outer + [ObjectKey]);
    gap, rest := TakeGap(text[1..]);
    GapBefore(next, gap);
    AcceptsFrom(next, gap, rest);
  }

  /** What may follow a value inside a container. */
  lemma CommaOrClose(outer: seq<Nest>, top: Nest, text: string)
    requires (top == ArrayValue || top == ObjectValue) && Accepts(Scan(EndValue, outer + [top]), text)
    requires text != "" ==> !Space(text[0])
    ensures text != "" && (text[0] == ',' || text[0] == if top == ArrayValue then ']' else '}')
    ensures text[0] != ',' ==> Accepts(Scan(EndValue, outer), text[1..])
  {
    var stack := outer + [top];
    assert stack[..|stack| - 1] == outer && stack[|stack| - 1] == top;
    AcceptsNext(Scan(EndValue, stack), text);
    if text[0] != ',' {
      ReadClose(Scan(EndValue, stack), outer, text);
    }
  }

  /** Items after a first gap that has been taken off already. */
  lemma {:induction false} ReadItems(s: Scan, outer: seq<Nest>, before: string, text: string)
    returns (items: Items, rest: string)
    requires AtStart(s) && s.stack == outer + [ArrayValue] && Gap(before) && Accepts(s, text)
    requires text != "" ==> !Space(text[0]) && (s.mode == BeginValueOrEmpty ==> text[0] != ']')
    ensures ItemsOk(items) && before + text == ItemsText(items) + ([']'] + rest) && Accepts(Scan(EndValue, outer), rest)
    decreases |text|, 2
  {
    var value, t1 := ReadValue(s, text);
    var after, t2 := TakeGap(t1);
    AcceptsPastGap(s.stack, after, t2);
    CommaOrClose(outer, ArrayValue, t2);
    ItemJoins(before, Text(value), after, t2);
    assert t2 == [t2[0]] + t2[1..];
    if t2[0] == ']' {
      items, rest := LastItem(before, value, after), t2[1..];
    } else {
      var gap, t3 := ReadComma(outer, ArrayValue, t2);
      var more, end := ReadItems(Scan(BeginValue, s.stack), outer, gap, t3);
      items, rest := Item(before, value, after, more), end;
      MoreJoins(before + (Text(value) + after), ItemsText(more), ']', rest);
      ItemParts(items);
    }
  }

  lemma MoreJoins(first: string, more: string, close: char, rest: string)
    ensures first + ([','] + (more + ([close] + rest))) == first + ([','] + more) + ([close] + rest)
  {
  }

  lemma ItemJoins(a: string, b: string, c: string, d: string)
    ensures a + (b + (c + d)) == a + (b + c) + d
  {
  }

  lemma {:induction false} ReadObject(s: Scan, text: string) returns (v: Value, rest: string)
    requires AtStart(s) && text != "" && text[0] == '{' && Accepts(s, text)
    ensures WellFormed(v) && text == Text(v) + rest && Accepts(Scan(EndValue, s.stack), rest)
    decreases |text|, 0
  {
    var i := Scan(BeginStringOrEmpty, s.stack + [ObjectKey]);
    AcceptsNext(s, text);
    var gap, t1 := TakeGap(text[1..]);
    GapBefore(i, gap);
    AcceptsFrom(i, gap, t1);
    assert text == ['{'] + (gap + t1);
    if t1[0] == '}' {
      v, rest := EmptyObject(gap), t1[1..];
      ReadClose(i, s.stack, t1);
      assert t1 == ['}'] + rest;
      Encloses('{', gap, '}', rest);
    } else {
      var members, after := ReadMembers(i, s.stack, gap, t1);
      v, rest := Object(members), after;
      Encloses('{', MembersText(members), '}', rest);
    }
  }

  /** A key, the colon, and the gap before the member's value. */
  lemma ReadKey(s: Scan, outer: seq<Nest>, text: string) returns (key: seq<Unit>, mid: string, pre: string, rest: string)
    requires (s.mode == BeginString || s.mode == BeginStringOrEmpty) && s.stack == outer + [ObjectKey] && Accepts(s, text)
    requires text != "" ==> !Space(text[0]) && (s.mode == BeginStringOrEmpty ==> text[0] != '}')
    ensures UnitsOk(key) && Gap(mid) && Gap(pre) && text == StrText(key) + (mid + ([':'] + (pre + rest)))
    ensures Accepts(Scan(BeginValue, outer + [ObjectValue]), rest) && (rest != "" ==> !Space(rest[0])) && |rest| < |text|
  {
    var end, v := Scan(EndValue, s.stack), Scan(BeginValue, outer + [ObjectValue]);
    AcceptsNext(s, text);
    var units, t1 := ReadStr(s, text);
    var g, t2 := TakeGap(t1);
    AcceptsPastGap(s.stack, g, t2);
    AcceptsNext(end, t2);
    assert s.stack[..|s.stack| - 1] == outer && s.stack[|s.stack| - 1] == ObjectKey;
    var h, t3 := TakeGap(t2[1..]);
    GapBefore(v, h);
    AcceptsFrom(v, h, t3);
    key, mid, pre, rest := units, g, h, t3;
    assert t2 == [':'] + (pre + rest);
  }

  /** A member and the gap after it, up to the comma or the closing brace. */
  lemma {:induction false} ReadMember(s: Scan, outer: seq<Nest>, before: string, text: string)
    returns (m: Members, rest: string)
    requires (s.mode == BeginString || s.mode == BeginStringOrEmpty) && s.stack == outer + [ObjectKey]
    requires Gap(before) && Accepts(s, text)
    requires text != "" ==> !Space(text[0]) && (s.mode == BeginStringOrEmpty ==> text[0] != '}')
    ensures m.LastMember? && MembersOk(m) && before + text == FirstText(m) + rest && |rest| < |text|
    ensures Accepts(Scan(EndValue, outer + [ObjectValue]), rest) && (rest != "" ==> !Space(rest[0]))
    decreases |text|, 2
  {
    var key, mid, pre, t0 := ReadKey(s, outer, text);
    var stack := outer + [ObjectValue];
    var value, t1 := ReadValue(Scan(BeginValue, stack), t0);
    var after, t2 := TakeGap(t1);
    AcceptsPastGap(stack, after, t2);
    m, rest := LastMember(before, key, mid, pre, value, after), t2;
    MemberJoins(m, t2);
  }

  lemma {:induction false} ReadMembers(s: Scan, outer: seq<Nest>, before: string, text: string)
    returns (members: Members, rest: string)
    requires (s.mode == BeginString || s.mode == BeginStringOrEmpty) && s.stack == outer + [ObjectKey]
    requires Gap(before) && Accepts(s, text)
    requires text != "" ==> !Space(text[0]) && (s.mode == BeginStringOrEmpty ==> text[0] != '}')
    ensures MembersOk(members) && before + text == MembersText(members) + (['}'] + rest) && Accepts(Scan(EndValue, outer), rest)
    decreases |text|, 3
  {
    var m, t2 := ReadMember(s, outer, before, text);
    CommaOrClose(outer, ObjectValue, t2);
    assert t2 == [t2[0]] + t2[1..];
    if t2[0] == '}' {
      members, rest := m, t2[1..];
      MemberParts(members);
    } else {
      var gap, t3 := ReadComma(outer, ObjectValue, t2);
      var more, end := ReadMembers(Scan(BeginString, outer + [ObjectKey]), outer, gap, t3);
      members, rest := Member(m.before, m.key, m.mid, m.pre, m.value, m.after, more), end;
      MoreJoins(FirstText(m), MembersText(more), '}', rest);
      MemberParts(members);
    }
  }

  lemma MemberJoins(m: Members, rest: string)
    ensures m.before + (StrText(m.key) + (m.mid + ([':'] + (m.pre + (Text(m.value) + (m.after + rest)))))) == FirstText(m) + rest
  {
  }

  // ------------------------------------------------------------ whole texts

  /** A text is a valid value exactly when it is the text of a JSON value with white space around
      it. */
  lemma ValidIsPrint(text: string) returns (lead: string, v: Value, trail: string)
    requires Valid(text)
    ensures Gap(lead) && WellFormed(v) && Gap(trail) && text == lead + (Text(v) + trail)
  {
    var t1;
    lead, t1 := TakeGap(text);
    GapBefore(START, lead);
    AcceptsFrom(START, lead, t1);
    var value, t2 := ReadValue(START, t1);
    v := value;
    var t3;
    trail, t3 := TakeGap(t2);
    AcceptsPastGap([], trail, t3);
    if t3 != "" {
      AcceptsNext(Scan(EndValue, []), t3);
      assert false;
    }
  }

  /** Such a text is valid, and compaction gives the text of the value without white space and
      with the five characters escaped. */
  lemma PrintIsValid(lead: string, v: Value, trail: string)
    requires Gap(lead) && WellFormed(v) && Gap(trail)
    ensures Valid(lead + (Text(v) + trail)) && Compact(lead + (Text(v) + trail)) == Some(Text(Tight(v)))
  {
    ScanValue(START, v);
    ValueInGaps(START, lead, v, trail);
  }

  ghost predicate IsJson(text: string) {
    exists lead, v, trail :: Gap(lead) && WellFormed(v) && Gap(trail) && text == lead + (Text(v) + trail)
  }

  lemma ValidIff(text: string)
    ensures Valid(text) <==> IsJson(text)
  {
    if Valid(text) {
      var lead, v, trail := ValidIsPrint(text);
    }
    if IsJson(text) {
      var lead, v, trail :| Gap(lead) && WellFormed(v) && Gap(trail) && text == lead + (Text(v) + trail);
      PrintIsValid(lead, v, trail);
    }
  }

  /** Compacted text holds white space only inside strings. */
  lemma NoSpaceOutsideStrings(text: string, i: nat)
    requires Compact(text).Some? && i < |Compact(text).value| && Space(Compact(text).value[i])
    ensures ScanAll(START, Compact(text).value[..i]).mode == InString
  {
    var u := Compact(text).value;
    CompactIdempotent(text);
    VerbatimIff(u);
    NextIsGood(u, i);
    PlainSpace(START, u, i);
  }

  lemma NextIsGood(text: string, i: nat)
    requires Valid(text) && i < |text|
    ensures Next(ScanAll(START, text[..i]), text[i]).mode != Bad
  {
    assert text == text[..i] + text[i..];
    AcceptsFrom(START, text[..i], text[i..]);
    AcceptsNext(ScanAll(START, text[..i]), text[i..]);
  }

  lemma PlainSpace(s: Scan, text: string, i: nat)
    requires Plain(s, text) && i < |text| && Space(text[i]) && Next(ScanAll(s, text[..i]), text[i]).mode != Bad
    ensures ScanAll(s, text[..i]).mode == InString
  {
  }
}
