/** What the signed form and the frame of an envelope are, as JSON objects. */
module SignedForm {
  import opened Options
  import opened Envelopes
  import opened Json
  import opened JsonValues
  import opened JsonAccepts
  import opened Wire
  import Hmac

  // ------------------------------------------------------------ strings

  /** How each character of a string is written. */
  function UnitFor(c: char): Unit {
    if c == '"' || c == '\\' then Short(c)
    else if c < ' ' then ControlUnit(c as int)
    else TightUnit(Plainly(c))
  }

  function ControlUnit(n: nat): Unit
    requires n < 32
  {
    if n == 8 then Short('b')
    else if n == 9 then Short('t')
    else if n == 10 then Short('n')
    else if n == 12 then Short('f')
    else if n == 13 then Short('r')
    else if n < 16 then Code("000" + ["0123456789abcdef"[n]])
    else Code("001" + ["0123456789abcdef"[n - 16]])
  }

  function UnitsFor(v: string): seq<Unit> {
    seq(|v|, i requires 0 <= i < |v| => UnitFor(v[i]))
  }

  lemma UnitForIs(c: char)
    ensures EscapeChar(c) == UnitText(UnitFor(c)) && UnitOk(UnitFor(c))
  {
    if c == '"' || c == '\\' {
      assert UnitFor(c) == Short(c) && EscapeChar(c) == ['\\', c];
    } else if c < ' ' {
      if c as int in {8, 9, 10, 12, 13} { ShortIs(c); } else { ControlIs(c); }
    } else if Escaped(c) {
      FiveEscapes(c);
      EscapedIs(c);
      HexOk(TightUnit(Plainly(c)).hex, c);
    } else {
      PlainIs(c);
    }
  }

  lemma PlainIs(c: char)
    requires ' ' <= c && c != '"' && c != '\\' && !Escaped(c)
    ensures EscapeChar(c) == [c] && UnitFor(c) == Plainly(c)
  {
  }

  lemma EscapedIs(c: char)
    requires Escaped(c)
    ensures EscapeChar(c) == UnicodeEscape(c) && UnitFor(c) == TightUnit(Plainly(c))
  {
    EscapedIsPrintable(c);
    assert UnitFor(c) == TightUnit(Plainly(c));
  }

  lemma EscapedIsPrintable(c: char)
    requires Escaped(c)
    ensures ' ' < c && c != '"' && c != '\\' && c as int !in {8, 9, 10, 12, 13} && c != '\n' && c != '\r' && c != '\t'
  {
  }

  lemma HexOk(hex: string, c: char)
    requires c as int < 0x10000 && UnicodeEscape(c) == ['\\', 'u'] + hex
    ensures UnitOk(Code(hex))
  {
    var h := Hex4(c as int);
    assert (['\\', 'u'] + hex)[2..] == hex && UnicodeEscape(c)[2..] == h;
    forall x | x in h ensures Digit(x) || 'a' <= x <= 'f' || 'A' <= x <= 'F' {
      var i :| 0 <= i < 4 && h[i] == x;
    }
  }

  lemma ShortIs(c: char)
    requires c as int in {8, 9, 10, 12, 13}
    ensures EscapeChar(c) == UnitText(UnitFor(c)) && UnitOk(UnitFor(c))
  {
  }

  lemma ControlIs(c: char)
    requires c < ' ' && c as int !in {8, 9, 10, 12, 13}
    ensures EscapeChar(c) == UnitText(UnitFor(c)) && UnitOk(UnitFor(c))
  {
    var n := c as int;
    var d := if n < 16 then n else n - 16;
    HexDigits();
    HexLow(d);
    Hex4Is(n, if n < 16 then 0 else 1, 0, 0, 0, if n < 16 then 0 else 1, d);
    assert UnitFor(c).hex == Hex4(n);
    assert EscapeChar(c) == UnicodeEscape(c);
  }

  lemma HexLow(d: nat)
    requires d < 16
    ensures HexDigit(d) == "0123456789abcdef"[d] && HexDigit(1) == '1'
    ensures var c := "0123456789abcdef"[d]; Digit(c) || 'a' <= c <= 'f'
  {
  }

  lemma {:induction false} EscapeIsUnits(v: string)
    ensures Escape(v) == UnitsText(UnitsFor(v)) && UnitsOk(UnitsFor(v))
    decreases |v|
  {
    if v != "" {
      UnitForIs(v[0]);
      EscapeIsUnits(v[1..]);
      assert UnitsFor(v)[1..] == UnitsFor(v[1..]) && UnitsFor(v) == [UnitFor(v[0])] + UnitsFor(v[1..]);
    }
  }

  lemma QuoteIsStr(v: string)
    ensures Quote(v) == Text(Str(UnitsFor(v))) && WellFormed(Str(UnitsFor(v)))
  {
    EscapeIsUnits(v);
  }

  // ------------------------------------------------------------ objects

  /** A lit of plain letters. */
  function Letters(name: string): seq<Unit> {
    seq(|name|, i requires 0 <= i < |name| => Plainly(name[i]))
  }

  lemma {:induction false} LettersText(name: string)
    ensures UnitsText(Letters(name)) == name
    decreases |name|
  {
    if name != "" {
      LettersText(name[1..]);
      assert Letters(name)[1..] == Letters(name[1..]) && name == [name[0]] + name[1..];
    }
  }

  function Field(name: string, value: Value, more: Members): Members { Member("", Letters(name), "", "", value, "", more) }

  function LastField(name: string, value: Value): Members { LastMember("", Letters(name), "", "", value, "") }

  function StrOf(v: string): Value { Str(UnitsFor(v)) }

  /** The seven string fields in their fixed order, then what follows. */
  function Fields(e: Envelope, rest: Members): Members {
    Field("protocol_version", StrOf(e.version), Inner(e, rest))
  }

  /** The signed form: eight fields, always all of them. */
  function SignedObject(e: Envelope, body: Value): Value { Object(Fields(e, LastField("body", body))) }

  /** The frame: the same fields and the signature. */
  function FrameObject(e: Envelope, body: Value): Value {
    Object(Fields(e, Field("body", body, LastField("hmac", StrOf(e.hmac)))))
  }

  // ------------------------------------------------------------ their text

  lemma FieldJoins(name: string, lit: string, value: Value, more: Members)
    requires lit == ",\"" + name + "\":"
    ensures "," + (MembersText(Field(name, value, more)) + "}") == lit + Text(value) + ("," + (MembersText(more) + "}"))
  {
    LettersText(name);
    LabelJoins(name, Text(value), "," + MembersText(more));
    MemberParts(Field(name, value, more));
    FirstIs(Field(name, value, more), name);
    assert lit + Text(value) + ("," + (MembersText(more) + "}")) == lit + Text(value) + ("," + MembersText(more)) + "}";
  }

  lemma LastFieldJoins(name: string, lit: string, value: Value)
    requires lit == ",\"" + name + "\":"
    ensures "," + (MembersText(LastField(name, value)) + "}") == lit + Text(value) + "}"
  {
    var text := Text(value);
    LettersText(name);
    MemberParts(LastField(name, value));
    FirstIs(LastField(name, value), name);
    LabelJoins(name, text, "}");
  }

  lemma FirstIs(m: Members, name: string)
    requires m.before == "" && m.mid == "" && m.pre == "" && m.after == "" && UnitsText(m.key) == name
    ensures FirstText(m) == "\"" + name + "\":" + Text(m.value)
  {
    assert KeyText(m) == "\"" + name + "\":";
    assert "" + (Text(m.value) + "") == Text(m.value);
  }

  lemma LabelJoins(name: string, value: string, more: string)
    ensures "," + ("\"" + name + "\":" + value + more) == ",\"" + name + "\":" + value + more
  {
  }

  /** The text of an object whose first fields are the seven strings. */
  lemma FieldsText(e: Envelope, body: Value, rest: Members, tail: string)
    requires "," + (MembersText(rest) + "}") == ",\"body\":" + Text(body) + tail
    ensures Text(Object(Fields(e, rest))) == Header(e) + (Text(body) + tail)
  {
    var last := ",\"body\":" + (Text(body) + tail);
    AppendAssoc(",\"body\":", Text(body), tail);
    InnerText(e, rest, last);
    FirstField(e, Inner(e, rest));
    HeaderSplit(e, Text(body) + tail);
  }

  function Late(e: Envelope, rest: Members): Members {
    Field("ts", StrOf(e.ts), Field("source", StrOf(e.source), Field("kind", StrOf(e.kind), rest)))
  }

  function Inner(e: Envelope, rest: Members): Members {
    Field("id", StrOf(e.id), Field("from", StrOf(e.from), Field("to", StrOf(e.to), Late(e, rest))))
  }

  lemma InnerText(e: Envelope, rest: Members, last: string)
    requires "," + (MembersText(rest) + "}") == last
    ensures "," + (MembersText(Inner(e, rest)) + "}")
         == ",\"id\":" + Quote(e.id) + (",\"from\":" + Quote(e.from) + (",\"to\":" + Quote(e.to)
            + (",\"ts\":" + Quote(e.ts) + (",\"source\":" + Quote(e.source) + (",\"kind\":" + Quote(e.kind) + last)))))
  {
    var t := ",\"ts\":" + Quote(e.ts) + (",\"source\":" + Quote(e.source) + (",\"kind\":" + Quote(e.kind) + last));
    ThreeFields("ts", ",\"ts\":", e.ts, "source", ",\"source\":", e.source, "kind", ",\"kind\":", e.kind, rest, last);
    ThreeFields("id", ",\"id\":", e.id, "from", ",\"from\":", e.from, "to", ",\"to\":", e.to, Late(e, rest), t);
  }

  lemma FirstField(e: Envelope, more: Members)
    ensures Text(Object(Field("protocol_version", StrOf(e.version), more)))
         == "{\"protocol_version\":" + Quote(e.version) + ("," + (MembersText(more) + "}"))
  {
    var first := Field("protocol_version", StrOf(e.version), more);
    VersionLabel();
    OneField("protocol_version", "," + VERSION_LABEL, e.version, more);
    Opening(MembersText(first) + "}", VERSION_LABEL, Quote(e.version), "," + (MembersText(more) + "}"));
  }

  const VERSION_LABEL := "\"protocol_version\":"

  lemma VersionLabel()
    ensures "," + VERSION_LABEL == ",\"" + "protocol_version" + "\":"
    ensures "{" + VERSION_LABEL == "{\"protocol_version\":"
  {
  }

  lemma ThreeFields(n1: string, l1: string, v1: string, n2: string, l2: string, v2: string, n3: string, l3: string, v3: string,
                    more: Members, tail: string)
    requires l1 == ",\"" + n1 + "\":" && l2 == ",\"" + n2 + "\":" && l3 == ",\"" + n3 + "\":"
    requires "," + (MembersText(more) + "}") == tail
    ensures "," + (MembersText(Field(n1, StrOf(v1), Field(n2, StrOf(v2), Field(n3, StrOf(v3), more)))) + "}")
         == l1 + Quote(v1) + (l2 + Quote(v2) + (l3 + Quote(v3) + tail))
  {
    var f3 := Field(n3, StrOf(v3), more);
    var f2 := Field(n2, StrOf(v2), f3);
    OneField(n3, l3, v3, more);
    OneField(n2, l2, v2, f3);
    OneField(n1, l1, v1, f2);
  }

  lemma OneField(name: string, lit: string, v: string, more: Members)
    requires lit == ",\"" + name + "\":"
    ensures "," + (MembersText(Field(name, StrOf(v), more)) + "}") == lit + Quote(v) + ("," + (MembersText(more) + "}"))
  {
    QuoteIsStr(v);
    FieldJoins(name, lit, StrOf(v), more);
  }

  /** The opening brace in place of the comma. */
  lemma Opening(text: string, first: string, v: string, rest: string)
    requires "," + text == "," + first + v + rest
    ensures ['{'] + text == "{" + first + v + rest
  {
    assert ("," + text)[1..] == text && ("," + first + v + rest)[1..] == first + v + rest;
    assert "{" + (first + v + rest) == "{" + first + v + rest;
  }

  // ------------------------------------------------------------ the signed form and the frame

  /** The body as the codec writes it: null for an absent body, else its compact form; there is
      none exactly when the body is no JSON text. */
  lemma BodyIs(body: string) returns (v: Value)
    ensures BodyText(body) == None <==> body != "" && !IsJson(body)
    ensures BodyText(body).Some? ==> WellFormed(v) && BodyText(body) == Some(Text(Tight(v)))
    ensures body == "" ==> v == Null
    ensures body != "" && BodyText(body).Some? ==> exists lead, trail :: Gap(lead) && Gap(trail) && body == lead + (Text(v) + trail)
  {
    ValidIff(body);
    v := Null;
    if body != "" && Valid(body) {
      var lead, value, trail := ValidIsPrint(body);
      v := value;
      PrintIsValid(lead, v, trail);
    }
  }

  lemma ObjectTexts(e: Envelope, v: Value)
    requires BodyText(e.body) == Some(Text(v))
    ensures Canonical(e) == Some(Text(SignedObject(e, v))) && Marshal(e) == Some(Text(FrameObject(e, v)))
  {
    LastFieldJoins("body", ",\"body\":", v);
    FieldsText(e, v, LastField("body", v), "}");
    SignatureField(e, v);
    FieldsText(e, v, Field("body", v, LastField("hmac", StrOf(e.hmac))), ",\"hmac\":" + Quote(e.hmac) + "}");
  }

  lemma SignatureField(e: Envelope, v: Value)
    ensures "," + (MembersText(Field("body", v, LastField("hmac", StrOf(e.hmac)))) + "}")
         == ",\"body\":" + Text(v) + (",\"hmac\":" + Quote(e.hmac) + "}")
  {
    QuoteIsStr(e.hmac);
    LastFieldJoins("hmac", ",\"hmac\":", StrOf(e.hmac));
    FieldJoins("body", ",\"body\":", v, LastField("hmac", StrOf(e.hmac)));
  }

  /** The signed form is the text of the object of exactly these eight fields in this order, with
      the body compact, and the frame has the signature as a ninth; an envelope whose body is no
      JSON text has neither. */
  lemma CanonicalIsObject(e: Envelope) returns (v: Value)
    ensures Canonical(e) == None <==> e.body != "" && !IsJson(e.body)
    ensures Marshal(e) == None <==> Canonical(e) == None
    ensures Canonical(e).Some? ==>
      && WellFormed(v) && Canonical(e) == Some(Text(SignedObject(e, Tight(v)))) && Marshal(e) == Some(Text(FrameObject(e, Tight(v))))
      && if e.body == "" then v == Null else exists lead, trail :: Gap(lead) && Gap(trail) && e.body == lead + (Text(v) + trail)
  {
    v := BodyIs(e.body);
    if BodyText(e.body).Some? {
      ObjectTexts(e, Tight(v));
    }
  }

  // ------------------------------------------------------------ signing and verifying, case by case

  predicate NoJson(body: string) { body != "" && !Valid(body) }

  lemma NoJsonIs(body: string)
    ensures NoJson(body) <==> body != "" && !IsJson(body)
    ensures BodyText(body) == None <==> NoJson(body)
  {
    ValidIff(body);
  }

  /** Signing fails exactly for a secret under 32 bytes or a body that is no JSON text. */
  lemma SigningIs(mac: Hmac.Mac, secret: seq<Hmac.Byte>, e: Envelope)
    ensures var r := Hmac.Sign(mac, secret, e);
      && (r == Hmac.Failure(Hmac.ShortSecret) <==> |secret| < 32)
      && (r == Hmac.Failure(Hmac.NotCanonical) <==> |secret| >= 32 && e.body != "" && !IsJson(e.body))
      && (r.Success? <==> |secret| >= 32 && (e.body == "" || IsJson(e.body)))
  {
    NoJsonIs(e.body);
  }

  predicate HexPairs(t: string) {
    |t| % 2 == 0 && forall i | 0 <= i < |t| :: '0' <= t[i] <= '9' || 'a' <= t[i] <= 'f' || 'A' <= t[i] <= 'F'
  }

  /** The error of a verification is that of the first check that fails. */
  lemma VerifyingIs(mac: Hmac.Mac, secret: seq<Hmac.Byte>, e: Envelope)
    ensures var r := Hmac.Verify(mac, secret, e); var json := e.body == "" || IsJson(e.body);
      && (r == Hmac.Failure(Hmac.ShortSecret) <==> |secret| < 32)
      && (r == Hmac.Failure(Hmac.MissingHmac) <==> |secret| >= 32 && e.hmac == "")
      && (r == Hmac.Failure(Hmac.BadHmacHex) <==> |secret| >= 32 && e.hmac != "" && !HexPairs(e.hmac))
      && (r == Hmac.Failure(Hmac.NotCanonical) <==> |secret| >= 32 && e.hmac != "" && HexPairs(e.hmac) && !json)
      && (r.Success? ==> |secret| >= 32 && e.hmac != "" && HexPairs(e.hmac) && json)
  {
    NoJsonIs(e.body);
    Hmac.DecodesIff(e.hmac);
    VerifyingCases(mac, secret, e, HexPairs(e.hmac), e.body == "" || IsJson(e.body));
  }

  lemma VerifyingCases(mac: Hmac.Mac, secret: seq<Hmac.Byte>, e: Envelope, pairs: bool, json: bool)
    requires Hmac.DecodeHex(e.hmac).Some? == pairs && BodyText(e.body).Some? == json
    ensures var r := Hmac.Verify(mac, secret, e);
      && (r == Hmac.Failure(Hmac.ShortSecret) <==> |secret| < 32)
      && (r == Hmac.Failure(Hmac.MissingHmac) <==> |secret| >= 32 && e.hmac == "")
      && (r == Hmac.Failure(Hmac.BadHmacHex) <==> |secret| >= 32 && e.hmac != "" && !pairs)
      && (r == Hmac.Failure(Hmac.NotCanonical) <==> |secret| >= 32 && e.hmac != "" && pairs && !json)
      && (r.Success? ==> |secret| >= 32 && e.hmac != "" && pairs && json)
  {
  }
}
