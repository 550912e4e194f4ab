/** The envelope as text: the canonical signed form, the wire form, and reading it back. */
module Wire {
  import opened Options
  import opened Envelopes
  import opened Json

  /** An absent body is written as null. */
  function BodyText(body: string): Option<string> {
    if body == "" then Some("null") else Compact(body)
  }

  /** Everything up to the body, in the fixed field order. */
  function Header(e: Envelope): string {
    "{\"protocol_version\":" + Quote(e.version) + (",\"id\":" + Quote(e.id) + (",\"from\":" + Quote(e.from)
    + (",\"to\":" + Quote(e.to) + (",\"ts\":" + Quote(e.ts) + (",\"source\":" + Quote(e.source)
    + (",\"kind\":" + Quote(e.kind) + ",\"body\":"))))))
  }

  /** The signed bytes; None when the body is not JSON. */
  function Canonical(e: Envelope): Option<string> {
    match BodyText(e.body)
    case None => None
    case Some(body) => Some(Header(e) + (body + "}"))
  }

  /** The frame written to a connection or stored in the queue. */
  function Marshal(e: Envelope): Option<string> {
    match BodyText(e.body)
    case None => None
    case Some(body) => Some(Header(e) + (body + (",\"hmac\":" + Quote(e.hmac) + "}")))
  }

  // ------------------------------------------------------------ reading back

  function Expect(lit: string, text: string): Option<string> {
    if lit <= text then Some(text[|lit|..]) else None
  }

  /** Reads `lit` and then a string literal. */
  function ReadField(lit: string, text: string): Option<(string, string)> {
    match Expect(lit + "\"", text)
    case None => None
    case Some(rest) => ReadString(rest)
  }

  /** Reads the seven string fields in order, then the body label. */
  function ReadHeader(text: string): Option<(Envelope, string)> {
    match ReadField("{\"protocol_version\":", text) case None => None case Some((version, t1)) =>
    match ReadField(",\"id\":", t1) case None => None case Some((id, t2)) =>
    match ReadField(",\"from\":", t2) case None => None case Some((from, t3)) =>
    match ReadField(",\"to\":", t3) case None => None case Some((to, t4)) =>
    match ReadField(",\"ts\":", t4) case None => None case Some((ts, t5)) =>
    match ReadField(",\"source\":", t5) case None => None case Some((source, t6)) =>
    match ReadField(",\"kind\":", t6) case None => None case Some((kind, t7)) =>
    match Expect(",\"body\":", t7) case None => None case Some(t8) =>
    Some((Envelope(version, id, from, to, ts, source, kind, "", ""), t8))
  }

  function ReadBody(text: string): Option<(string, string)> {
    var n := ValueLength(START, text);
    if n <= |text| && Valid(text[..n]) then Some((text[..n], text[n..])) else None
  }

  /** Reads a frame as Marshal writes it. */
  function Unmarshal(text: string): Option<Envelope> {
    match ReadHeader(text) case None => None case Some((e, t1)) =>
    match ReadBody(t1) case None => None case Some((body, t2)) =>
    match ReadField(",\"hmac\":", t2) case None => None case Some((hmac, t3)) =>
    if t3 == "}" then Some(e.(body := body, hmac := hmac)) else None
  }

  /** Reads a canonical form back into the seven string fields and the body text. */
  function ReadCanonical(text: string): Option<Envelope> {
    match ReadHeader(text) case None => None case Some((e, t1)) =>
    match ReadBody(t1) case None => None case Some((body, t2)) =>
    if t2 == "}" then Some(e.(body := body)) else None
  }

  lemma ReadFieldQuoted(lit: string, v: string, rest: string)
    ensures ReadField(lit, lit + Quote(v) + rest) == Some((v, rest))
  {
    var text := lit + Quote(v) + rest;
    var tail := Escape(v) + "\"" + rest;
    assert text == (lit + "\"") + tail;
    assert text[|lit + "\""|..] == tail;
    ReadQuoted(v, rest);
  }

  lemma ReadHeaderInverts(e: Envelope, rest: string)
    ensures ReadHeader(Header(e) + rest) == Some((e.(body := "", hmac := ""), rest))
  {
    var t7 := ",\"body\":" + rest;
    var t6 := ",\"kind\":" + Quote(e.kind) + t7;
    var t5 := ",\"source\":" + Quote(e.source) + t6;
    var t4 := ",\"ts\":" + Quote(e.ts) + t5;
    var t3 := ",\"to\":" + Quote(e.to) + t4;
    var t2 := ",\"from\":" + Quote(e.from) + t3;
    var t1 := ",\"id\":" + Quote(e.id) + t2;
    HeaderSplit(e, rest);
    ReadFieldQuoted("{\"protocol_version\":", e.version, t1);
    ReadFieldQuoted(",\"id\":", e.id, t2);
    ReadFieldQuoted(",\"from\":", e.from, t3);
    ReadFieldQuoted(",\"to\":", e.to, t4);
    ReadFieldQuoted(",\"ts\":", e.ts, t5);
    ReadFieldQuoted(",\"source\":", e.source, t6);
    ReadFieldQuoted(",\"kind\":", e.kind, t7);
    assert t7[|",\"body\":"|..] == rest;
  }

  lemma HeaderSplit(e: Envelope, rest: string)
    ensures Header(e) + rest
         == "{\"protocol_version\":" + Quote(e.version) + (",\"id\":" + Quote(e.id) + (",\"from\":" + Quote(e.from)
          + (",\"to\":" + Quote(e.to) + (",\"ts\":" + Quote(e.ts) + (",\"source\":" + Quote(e.source)
          + (",\"kind\":" + Quote(e.kind) + (",\"body\":" + rest)))))))
  {
  }

  lemma BodyTextValid(body: string)
    requires BodyText(body).Some?
    ensures Valid(BodyText(body).value) && BodyText(body).value != ""
    ensures BodyText(BodyText(body).value) == BodyText(body)
  {
    if body == "" {
      NullIsValid();
    } else {
      EmittedIsStable(START, START, body);
      CompactIdempotent(body);
      var c := Compact(body).value;
      assert Valid(c);
      assert c != "" by { assert !Valid(""); }
    }
  }

  lemma NullIsValid()
    ensures Valid("null") && Compact("null") == Some("null")
  {
    assert "null" == ['n'] + "ull";
    WordIsValid('n', "ull", "null");
  }

  lemma WordIsValid(c: char, rest: string, word: string)
    requires c == 'n' && rest == "ull" && word == [c] + rest
    ensures Valid(word) && Compact(word) == Some(word)
  {
    WordRun(Scan(Word(rest), []), rest);
    assert Next(START, c) == Scan(Word(rest), []) && Emit(START, c) == [c];
    ScanCons(START, c, rest);
  }

  lemma {:induction false} WordRun(s: Scan, word: string)
    requires word != "" && s.mode == Word(word) && forall i | 0 <= i < |word| :: 'a' <= word[i] <= 'z'
    ensures ScanAll(s, word) == Scan(EndValue, s.stack) && EmitAll(s, word) == word
    decreases |word|
  {
    assert Emit(s, word[0]) == [word[0]];
    if |word| == 1 {
      assert word[1..] == "";
    } else {
      WordRun(Next(s, word[0]), word[1..]);
    }
  }

  lemma ReadBodyInverts(body: string, rest: string)
    requires Valid(body) && rest != "" && (rest[0] == ',' || rest[0] == '}')
    ensures ReadBody(body + rest) == Some((body, rest))
  {
    ValueLengthIs(START, body, rest);
    assert (body + rest)[..|body|] == body && (body + rest)[|body|..] == rest;
  }

  // ------------------------------------------------------------ the signed form is unambiguous

  /** A canonical form determines the seven signed string fields and the body text. */
  lemma CanonicalReadsBack(e: Envelope)
    requires Canonical(e).Some?
    ensures ReadCanonical(Canonical(e).value) == Some(e.(body := BodyText(e.body).value, hmac := ""))
  {
    var body := BodyText(e.body).value;
    BodyTextValid(e.body);
    ReadHeaderInverts(e, body + "}");
    ReadBodyInverts(body, "}");
  }

  /** Envelopes sign alike exactly when their seven string fields are equal and their bodies are
      equal up to compaction, an absent body counting as null. */
  lemma CanonicalInjective(a: Envelope, b: Envelope)
    requires Canonical(a).Some? && Canonical(b).Some?
    ensures Canonical(a) == Canonical(b) <==>
      && a.version == b.version && a.id == b.id && a.from == b.from && a.to == b.to
      && a.ts == b.ts && a.source == b.source && a.kind == b.kind
      && BodyText(a.body) == BodyText(b.body)
  {
    CanonicalReadsBack(a);
    CanonicalReadsBack(b);
  }

  // ------------------------------------------------------------ hops

  /** What an envelope looks like after it has been written and read once. */
  function Normal(e: Envelope): Envelope
    requires BodyText(e.body).Some?
  {
    e.(body := BodyText(e.body).value)
  }

  /** Reading a written frame gives the envelope with its body compacted and nothing else
      changed; its signed form is unchanged; writing it again gives the same bytes. */
  lemma MarshalRoundTrip(e: Envelope)
    requires Marshal(e).Some?
    ensures Unmarshal(Marshal(e).value) == Some(Normal(e))
    ensures Canonical(Normal(e)) == Canonical(e)
    ensures Marshal(Normal(e)) == Marshal(e)
  {
    var body := BodyText(e.body).value;
    var tail := ",\"hmac\":" + Quote(e.hmac) + "}";
    BodyTextValid(e.body);
    ReadHeaderInverts(e, body + tail);
    ReadBodyInverts(body, tail);
    ReadFieldQuoted(",\"hmac\":", e.hmac, "}");
    assert Header(Normal(e)) == Header(e);
  }

  /** One round of writing and reading. */
  function Hop(e: Envelope): Option<Envelope> {
    match Marshal(e)
    case None => None
    case Some(text) => Unmarshal(text)
  }

  /** n rounds of writing and reading, as the broker does between socket and queue. */
  function Hops(e: Envelope, n: nat): Option<Envelope>
    decreases n
  {
    if n == 0 then Some(e) else if Hop(e) == None then None else Hops(Hop(e).value, n - 1)
  }

  lemma HopIsNormal(e: Envelope)
    requires Canonical(e).Some?
    ensures Hop(e) == Some(Normal(e)) && Canonical(Normal(e)) == Canonical(e)
    ensures Normal(Normal(e)) == Normal(e)
  {
    MarshalRoundTrip(e);
    BodyTextValid(e.body);
  }

  /** However many hops an envelope takes, it arrives as it did after the first. */
  lemma {:induction false} HopsAreNormal(e: Envelope, n: nat)
    requires Canonical(e).Some? && 0 < n
    ensures Hops(e, n) == Some(Normal(e))
    decreases n
  {
    HopIsNormal(e);
    if n > 1 {
      HopsAreNormal(Normal(e), n - 1);
    }
  }

  /** An envelope arrives after any number of hops with the signed form it was sent with. */
  lemma HopsKeepCanonical(e: Envelope, n: nat)
    requires Canonical(e).Some?
    ensures Hops(e, n).Some? && Canonical(Hops(e, n).value) == Canonical(e) && Hops(e, n).value.hmac == e.hmac
  {
    if n > 0 {
      HopIsNormal(e);
      HopsAreNormal(e, n);
    }
  }
}
