/** Signing and verifying envelopes over their canonical form. The MAC itself is a parameter. */
module Hmac {
  import opened Options
  import opened Envelopes
  import opened Json
  import opened Wire

  type Byte = n: int | 0 <= n < 256

  /** A keyed digest of the canonical text. */
  type Mac = (seq<Byte>, string) -> seq<Byte>

  const MIN_SECRET_LEN := 32

  datatype Error = ShortSecret | MissingHmac | BadHmacHex | NotCanonical | Mismatch

  datatype Result<T> = Success(value: T) | Failure(error: Error)

  // ------------------------------------------------------------ hex

  function EncodeHex(b: seq<Byte>): string
    decreases |b|
  {
    if b == [] then "" else [HexDigit(b[0] / 16), HexDigit(b[0] % 16)] + EncodeHex(b[1..])
  }

  /** Either case is read; an odd length or any other character is an error. */
  function DecodeHex(t: string): Option<seq<Byte>>
    decreases |t|
  {
    if t == "" then Some([])
    else if |t| < 2 || !IsHex(t[0]) || !IsHex(t[1]) then None
    else
      match DecodeHex(t[2..])
      case None => None
      case Some(rest) => Some([(HexValue(t[0]) * 16 + HexValue(t[1])) as Byte] + rest)
  }

  lemma {:induction false} HexRoundTrip(b: seq<Byte>)
    ensures DecodeHex(EncodeHex(b)) == Some(b) && |EncodeHex(b)| == 2 * |b|
    decreases |b|
  {
    if b != [] {
      HexRoundTrip(b[1..]);
      HexByte(b[0], EncodeHex(b[1..]));
      assert b == [b[0]] + b[1..];
    }
  }

  lemma HexByte(x: Byte, rest: string)
    requires DecodeHex(rest).Some?
    ensures DecodeHex([HexDigit(x / 16), HexDigit(x % 16)] + rest) == Some([x] + DecodeHex(rest).value)
  {
    var t := [HexDigit(x / 16), HexDigit(x % 16)] + rest;
    assert t[2..] == rest && HexValue(t[0]) == x / 16 && HexValue(t[1]) == x % 16;
  }

  /** Two lower-case digits a byte, the high one first, byte after byte. */
  lemma HexDigitsOf(x: Byte, rest: seq<Byte>)
    ensures EncodeHex([]) == ""
    ensures EncodeHex([x] + rest) == ["0123456789abcdef"[x / 16], "0123456789abcdef"[x % 16]] + EncodeHex(rest)
  {
    assert ([x] + rest)[1..] == rest;
  }

  /** Text is decoded exactly when it is hex digits, of either case, in pairs. */
  lemma {:induction false} DecodesIff(t: string)
    ensures DecodeHex(t).Some? <==> |t| % 2 == 0 && forall i | 0 <= i < |t| ::
              '0' <= t[i] <= '9' || 'a' <= t[i] <= 'f' || 'A' <= t[i] <= 'F'
    decreases |t|
  {
    if |t| >= 2 {
      DecodesIff(t[2..]);
      assert forall i | 2 <= i < |t| :: t[i] == t[2..][i - 2];
    }
  }

  // ------------------------------------------------------------ sign and verify

  function Sign(mac: Mac, secret: seq<Byte>, e: Envelope): Result<string> {
    if |secret| < MIN_SECRET_LEN then Failure(ShortSecret)
    else if Canonical(e) == None then Failure(NotCanonical)
    else Success(EncodeHex(mac(secret, Canonical(e).value)))
  }

  function Verify(mac: Mac, secret: seq<Byte>, e: Envelope): Result<()> {
    if |secret| < MIN_SECRET_LEN then Failure(ShortSecret)
    else if e.hmac == "" then Failure(MissingHmac)
    else if DecodeHex(e.hmac) == None then Failure(BadHmacHex)
    else if Canonical(e) == None then Failure(NotCanonical)
    else if mac(secret, Canonical(e).value) != DecodeHex(e.hmac).value then Failure(Mismatch)
    else Success(())
  }

  function SignEnvelope(mac: Mac, secret: seq<Byte>, e: Envelope): Result<Envelope> {
    match Sign(mac, secret, e)
    case Failure(error) => Failure(error)
    case Success(sig) => Success(e.(hmac := sig))
  }

  /** An envelope signed with an acceptable secret verifies after any number of hops. The MAC
      only has to produce some output. */
  lemma SignedVerifiesAfterHops(mac: Mac, secret: seq<Byte>, e: Envelope, n: nat)
    requires |secret| >= MIN_SECRET_LEN && Canonical(e).Some? && mac(secret, Canonical(e).value) != []
    ensures SignEnvelope(mac, secret, e).Success?
    ensures var sent := SignEnvelope(mac, secret, e).value;
      Hops(sent, n).Some? && Verify(mac, secret, Hops(sent, n).value) == Success(())
  {
    var sent := SignEnvelope(mac, secret, e).value;
    HexRoundTrip(mac(secret, Canonical(e).value));
    assert Canonical(sent) == Canonical(e);
    HopsKeepCanonical(sent, n);
  }

  /** Hops change no verdict, whatever the envelope carries. */
  lemma HopsKeepVerdict(mac: Mac, secret: seq<Byte>, e: Envelope, n: nat)
    requires Canonical(e).Some?
    ensures Hops(e, n).Some? && Verify(mac, secret, Hops(e, n).value) == Verify(mac, secret, e)
  {
    HopsKeepCanonical(e, n);
  }

  /** Two envelopes that verify under one signature agree on everything signed, or exhibit two
      texts with the same MAC. */
  lemma OneSignatureOneMessage(mac: Mac, secret: seq<Byte>, a: Envelope, b: Envelope)
    requires Verify(mac, secret, a).Success? && Verify(mac, secret, b).Success?
    requires DecodeHex(a.hmac) == DecodeHex(b.hmac)
    ensures
      || (&& a.version == b.version && a.id == b.id && a.from == b.from && a.to == b.to
          && a.ts == b.ts && a.source == b.source && a.kind == b.kind
          && BodyText(a.body) == BodyText(b.body))
      || (&& Canonical(a).value != Canonical(b).value
          && mac(secret, Canonical(a).value) == mac(secret, Canonical(b).value))
  {
    CanonicalInjective(a, b);
  }

  /** Verification accepts exactly the signature that signing produces, in either hex case. */
  lemma VerifiesIffSigned(mac: Mac, secret: seq<Byte>, e: Envelope)
    requires e.hmac != ""
    ensures Verify(mac, secret, e).Success? <==>
      Sign(mac, secret, e).Success? && DecodeHex(e.hmac) == DecodeHex(Sign(mac, secret, e).value)
  {
    if Canonical(e).Some? {
      HexRoundTrip(mac(secret, Canonical(e).value));
    }
  }
}
