/** The stdio reader that accepts newline-delimited messages and Content-Length frames mixed on
    one stream. Input is a sequence of bytes, written as characters. */
module Mcp {

  datatype Outcome = Message(raw: string) | Eof | UnexpectedEof | BadContentLength | NoContentLength

  predicate IsBlank(c: char) { c == '\n' || c == '\r' }

  function SkipBlank(input: string): (rest: string)
    ensures |rest| <= |input| && (rest != "" ==> !IsBlank(rest[0]))
    decreases |input|
  {
    if input != "" && IsBlank(input[0]) then SkipBlank(input[1..]) else input
  }

  /** The length of the next line including its newline; the whole input if there is none. */
  function LineLength(input: string): (n: nat)
    ensures n <= |input| && (input != "" ==> n > 0)
    decreases |input|
  {
    if input == "" then 0 else if input[0] == '\n' then 1 else 1 + LineLength(input[1..])
  }

  /** Trailing carriage returns and newlines removed. */
  function TrimEol(line: string): string
    decreases |line|
  {
    if line != "" && IsBlank(line[|line| - 1]) then TrimEol(line[..|line| - 1]) else line
  }

  predicate IsSpace(c: char) { c == ' ' || 9 <= c as int <= 13 }

  function TrimLeft(t: string): string
    decreases |t|
  {
    if t != "" && IsSpace(t[0]) then TrimLeft(t[1..]) else t
  }

  function TrimRight(t: string): string
    decreases |t|
  {
    if t != "" && IsSpace(t[|t| - 1]) then TrimRight(t[..|t| - 1]) else t
  }

  function TrimSpace(t: string): string { TrimRight(TrimLeft(t)) }

  function Lower(c: char): char {
    if 'A' <= c <= 'Z' then ((c as int) + 32) as char else c
  }

  predicate EqualFold(a: string, b: string) {
    |a| == |b| && forall i | 0 <= i < |a| :: Lower(a[i]) == Lower(b[i])
  }

  /** The position of the first colon, or the length if there is none. */
  function Colon(line: string): (n: nat)
    ensures n <= |line| && (n < |line| ==> line[n] == ':')
    decreases |line|
  {
    if line == "" || line[0] == ':' then 0 else 1 + Colon(line[1..])
  }

  // ------------------------------------------------------------ numbers

  datatype Number = NotANumber | Number(value: int)

  const MAX_INT := 0x7FFF_FFFF_FFFF_FFFF

  predicate AllDigits(t: string) { forall i | 0 <= i < |t| :: '0' <= t[i] <= '9' }

  function DigitsValue(t: string): nat
    requires AllDigits(t)
    decreases |t|
  {
    if t == "" then 0 else DigitsValue(t[..|t| - 1]) * 10 + (t[|t| - 1] - '0') as nat
  }

  /** A decimal integer with an optional sign, in the range of a 64-bit int. */
  function Atoi(t: string): Number {
    var signed := t != "" && (t[0] == '-' || t[0] == '+');
    var digits := if signed then t[1..] else t;
    if digits == "" || !AllDigits(digits) then NotANumber
    else
      var n: int := if signed && t[0] == '-' then 0 - DigitsValue(digits) else DigitsValue(digits);
      if -MAX_INT - 1 <= n <= MAX_INT then Number(n) else NotANumber
  }

  function Itoa(n: nat): string {
    if n < 10 then [('0' as int + n) as char] else Itoa(n / 10) + [('0' as int + n % 10) as char]
  }

  lemma {:induction false} ItoaDigits(n: nat)
    ensures Itoa(n) != "" && AllDigits(Itoa(n)) && DigitsValue(Itoa(n)) == n
    decreases n
  {
    var t := Itoa(n);
    if n < 10 {
      assert t[..|t| - 1] == "";
    } else {
      ItoaDigits(n / 10);
      assert t[..|t| - 1] == Itoa(n / 10);
    }
  }

  lemma AtoiItoa(n: nat)
    requires n <= MAX_INT
    ensures Atoi(Itoa(n)) == Number(n)
  {
    ItoaDigits(n);
  }

  // ------------------------------------------------------------ reading one message

  const CONTENT_LENGTH := "Content-Length"

  /** What a header line does to the content length seen so far. */
  function HeaderLine(line: string, contentLen: int): Number {
    var i := Colon(line);
    if i < |line| && EqualFold(TrimSpace(line[..i]), CONTENT_LENGTH) then Atoi(TrimSpace(line[i + 1..]))
    else Number(contentLen)
  }

  /** Reads header lines up to the empty one, then exactly the announced number of bytes. */
  function ReadFramed(input: string, contentLen: int): (Outcome, string)
    decreases |input|
  {
    var n := LineLength(input);
    if n == 0 || input[n - 1] != '\n' then (Eof, "")
    else
      var line := TrimEol(input[..n]);
      if line == "" then ReadContent(input[n..], contentLen)
      else
        match HeaderLine(line, contentLen)
        case NotANumber => (BadContentLength, input[n..])
        case Number(len) => ReadFramed(input[n..], len)
  }

  function ReadContent(input: string, contentLen: int): (Outcome, string) {
    if contentLen < 0 then (NoContentLength, input)
    else if |input| < contentLen then (if input == "" then Eof else UnexpectedEof, "")
    else (Message(input[..contentLen]), input[contentLen..])
  }

  /** One call of readMessage: the outcome and the unread input. */
  function NextMessage(input: string): (Outcome, string) {
    var start := SkipBlank(input);
    if start == "" then (Eof, "")
    else if start[0] == 'C' then ReadFramed(start, -1)
    else (Message(TrimEol(start[..LineLength(start)])), start[LineLength(start)..])
  }

  lemma {:induction false} ReadFramedConsumes(input: string, contentLen: int)
    ensures ReadFramed(input, contentLen).0.Message? ==> |ReadFramed(input, contentLen).1| < |input|
    decreases |input|
  {
    var n := LineLength(input);
    if n != 0 && input[n - 1] == '\n' && TrimEol(input[..n]) != "" {
      var next := HeaderLine(TrimEol(input[..n]), contentLen);
      if next.Number? {
        ReadFramedConsumes(input[n..], next.value);
      }
    }
  }

  /** A read that yields a message uses up input, so reading a finite stream ends. */
  lemma NextMessageConsumes(input: string)
    ensures NextMessage(input).0.Message? ==> |NextMessage(input).1| < |input|
  {
    ReadFramedConsumes(SkipBlank(input), -1);
  }

  // ------------------------------------------------------------ the reader object

  class Reader {
    const data: string
    var pos: nat

    ghost predicate Valid()
      reads this
    {
      pos <= |data|
    }

    ghost function Rest(): string
      requires Valid()
      reads this
    {
      data[pos..]
    }

    constructor (data: string)
      ensures Valid() && Rest() == data
    {
      this.data := data;
      pos := 0;
    }

    /** Reads through the next newline, or to the end of the input. */
    method ReadLine() returns (line: string)
      requires Valid()
      modifies this`pos
      ensures Valid() && line == old(Rest())[..LineLength(old(Rest()))] && Rest() == old(Rest())[LineLength(old(Rest()))..]
      ensures line == "" || line[|line| - 1] != '\n' ==> Rest() == ""
    {
      var start := pos;
      while pos < |data| && data[pos] != '\n'
        invariant start <= pos <= |data|
        invariant LineLength(data[start..]) == pos - start + LineLength(data[pos..])
        decreases |data| - pos
      {
        assert data[pos..][1..] == data[pos + 1..];
        pos := pos + 1;
      }
      if pos < |data| {
        assert LineLength(data[pos..]) == 1;
        pos := pos + 1;
        assert data[start..pos][pos - start - 1] == '\n';
      } else {
        assert data[pos..] == "";
      }
      line := data[start..pos];
      assert data[start..][..pos - start] == line && data[start..][pos - start..] == data[pos..];
    }

    method ReadMessage() returns (out: Outcome)
      requires Valid()
      modifies this`pos
      ensures Valid() && out == NextMessage(old(Rest())).0 && Rest() == NextMessage(old(Rest())).1
    {
      ghost var input := Rest();
      while pos < |data| && IsBlank(data[pos])
        invariant Valid() && SkipBlank(input) == SkipBlank(Rest())
        decreases |data| - pos
      {
        assert Rest()[1..] == data[pos + 1..];
        pos := pos + 1;
      }
      if pos == |data| {
        assert Rest() == "";
        return Eof;
      }
      assert SkipBlank(Rest()) == Rest();
      if data[pos] == 'C' {
        out := ReadContentLengthFramed();
      } else {
        var line := ReadLine();
        out := Message(TrimEol(line));
      }
    }

    method ReadContentLengthFramed() returns (out: Outcome)
      requires Valid()
      modifies this`pos
      ensures Valid() && out == ReadFramed(old(Rest()), -1).0 && Rest() == ReadFramed(old(Rest()), -1).1
    {
      ghost var input := Rest();
      var contentLen := -1;
      while true
        invariant Valid() && ReadFramed(input, -1) == ReadFramed(Rest(), contentLen)
        decreases |data| - pos
      {
        var line := ReadLine();
        if line == "" || line[|line| - 1] != '\n' {
          return Eof;
        }
        line := TrimEol(line);
        if line == "" {
          break;
        }
        var next := HeaderLine(line, contentLen);
        if next.NotANumber? {
          return BadContentLength;
        }
        contentLen := next.value;
      }
      if contentLen < 0 {
        return NoContentLength;
      }
      out := ReadFull(contentLen);
    }

    /** Reads exactly n bytes, or reports whether none or only some of them were there. */
    method ReadFull(n: nat) returns (out: Outcome)
      requires Valid()
      modifies this`pos
      ensures Valid() && out == ReadContent(old(Rest()), n).0
      ensures Rest() == ReadContent(old(Rest()), n).1
    {
      if |data| - pos < n {
        out := if pos == |data| then Eof else UnexpectedEof;
        pos := |data|;
      } else {
        out := Message(data[pos..pos + n]);
        pos := pos + n;
      }
    }

    /** Dispatches every non-empty message until the input ends or breaks. */
    method Serve() returns (dispatched: seq<string>, end: Outcome)
      requires Valid()
      modifies this`pos
      ensures dispatched == ServeAll(old(Rest())).0 && end == ServeAll(old(Rest())).1
    {
      dispatched := [];
      ghost var input := Rest();
      while true
        invariant Valid()
        invariant ServeAll(input).0 == dispatched + ServeAll(Rest()).0 && ServeAll(input).1 == ServeAll(Rest()).1
        decreases |data| - pos
      {
        NextMessageConsumes(Rest());
        ServeAllStep(Rest());
        var out := ReadMessage();
        if !out.Message? {
          return dispatched, out;
        }
        if out.raw != "" {
          assert dispatched + ([out.raw] + ServeAll(Rest()).0) == dispatched + [out.raw] + ServeAll(Rest()).0;
          dispatched := dispatched + [out.raw];
        }
      }
    }
  }

  lemma ServeAllStep(input: string)
    ensures var (out, rest) := NextMessage(input);
      if !out.Message? then ServeAll(input) == ([], out)
      else ServeAll(input) == (if out.raw == "" then ServeAll(rest).0 else [out.raw] + ServeAll(rest).0, ServeAll(rest).1)
  {
  }

  function ServeAll(input: string): (seq<string>, Outcome)
    decreases |input|
  {
    var (out, rest) := NextMessage(input);
    if !out.Message? then ([], out)
    else
      NextMessageConsumes(input);
      var (later, end) := ServeAll(rest);
      (if out.raw == "" then later else [out.raw] + later, end)
  }

  // ------------------------------------------------------------ writing frames

  /** A header line: a length, with the name in any letter case and spaces anywhere around name
      and value; a header of another name; or a line without a colon. */
  datatype Header =
    | Length(lead: string, name: string, trail: string, pad: string, n: int, post: string, eol: string)
    | Other(lead: string, name: string, trail: string, value: string, eol: string)
    | Bare(text: string, eol: string)

  predicate Padding(t: string) { forall c | c in t :: c == ' ' || c == '\t' }

  predicate Eol(t: string) { t == "\n" || t == "\r\n" }

  /** Content-Length in any letter case. */
  predicate NamesLength(name: string) {
    |name| == 14 && forall i | 0 <= i < 14 :: name[i] == "content-length"[i] || name[i] == "CONTENT-LENGTH"[i]
  }

  predicate EndsBare(t: string) { t != "" ==> !IsSpace(t[0]) && !IsSpace(t[|t| - 1]) }

  predicate HeaderOk(h: Header) {
    && Eol(h.eol)
    && match h
       case Length(lead, name, trail, pad, n, post, _) =>
         Padding(lead) && NamesLength(name) && Padding(trail) && Padding(pad) && Padding(post) && -MAX_INT - 1 <= n <= MAX_INT
       case Other(lead, name, trail, value, _) =>
         && Padding(lead) && Padding(trail) && ':' !in name && '\n' !in name && EndsBare(name) && !NamesLength(name)
         && '\n' !in value && (value != "" ==> value[|value| - 1] != '\r')
       case Bare(text, _) => text != "" && ':' !in text && '\n' !in text && text[|text| - 1] != '\r'
  }

  function IntText(n: int): string { if n < 0 then "-" + Itoa(0 - n) else Itoa(n) }

  function HeaderText(h: Header): string {
    match h
    case Length(lead, name, trail, pad, n, post, _) => lead + name + trail + ":" + (pad + IntText(n) + post)
    case Other(lead, name, trail, value, _) => lead + name + trail + ":" + value
    case Bare(text, _) => text
  }

  function Block(hs: seq<Header>): string
    decreases |hs|
  {
    if hs == [] then "" else Block(hs[..|hs| - 1]) + (HeaderText(hs[|hs| - 1]) + hs[|hs| - 1].eol)
  }

  /** The last length given, or none. */
  function Declared(hs: seq<Header>): int
    decreases |hs|
  {
    if hs == [] then -1 else if hs[|hs| - 1].Length? then hs[|hs| - 1].n else Declared(hs[..|hs| - 1])
  }

  /** A header block is taken for one by its first letter. */
  predicate BlockOk(hs: seq<Header>) {
    hs != [] && (forall h | h in hs :: HeaderOk(h)) && HeaderText(hs[0]) != "" && HeaderText(hs[0])[0] == 'C'
  }

  /** One message as a peer may frame it, after any run of blank lines: on a line of its own, or
      after headers and an empty line. */
  datatype Framed =
    | Lined(gap: string, msg: string)
    | Headed(gap: string, headers: seq<Header>, end: string, msg: string)

  predicate Writable(f: Framed) {
    && (forall c | c in f.gap :: IsBlank(c))
    && match f
       case Lined(_, msg) =>
         msg != "" && '\n' !in msg && msg[0] != 'C' && !IsBlank(msg[0]) && !IsBlank(msg[|msg| - 1])
       case Headed(_, headers, end, msg) => BlockOk(headers) && Eol(end) && Declared(headers) == |msg|
  }

  function Write(f: Framed): string {
    f.gap + match f
            case Lined(_, msg) => msg + "\n"
            case Headed(_, headers, end, msg) => Block(headers) + (end + msg)
  }

  function WriteAll(fs: seq<Framed>, end: string): string
    decreases |fs|
  {
    if fs == [] then end else Write(fs[0]) + WriteAll(fs[1..], end)
  }

  function Bodies(fs: seq<Framed>): seq<string>
    decreases |fs|
  {
    if fs == [] then [] else (if fs[0].msg == "" then [] else [fs[0].msg]) + Bodies(fs[1..])
  }

  // ------------------------------------------------------------ trimming and header lines

  lemma {:induction false} TrimLeftPadding(pad: string, rest: string)
    requires Padding(pad)
    ensures TrimLeft(pad + rest) == TrimLeft(rest)
    decreases |pad|
  {
    if pad == "" {
      assert pad + rest == rest;
    } else {
      assert pad[0] in pad && (forall c | c in pad[1..] :: c in pad) && (pad + rest)[1..] == pad[1..] + rest;
      TrimLeftPadding(pad[1..], rest);
    }
  }

  lemma {:induction false} TrimRightPadding(t: string, pad: string)
    requires Padding(pad)
    ensures TrimRight(t + pad) == TrimRight(t)
    decreases |pad|
  {
    if pad == "" {
      assert t + pad == t;
    } else {
      var n := |pad| - 1;
      assert pad[n] in pad && (forall c | c in pad[..n] :: c in pad) && (t + pad)[..|t| + n] == t + pad[..n];
      TrimRightPadding(t, pad[..n]);
    }
  }

  lemma TrimPadding(lead: string, core: string, trail: string)
    requires Padding(lead) && Padding(trail) && EndsBare(core)
    ensures TrimSpace(lead + core + trail) == core
  {
    assert lead + core + trail == lead + (core + trail);
    TrimLeftPadding(lead, core + trail);
    if core == "" {
      assert core + trail == trail == trail + "";
      TrimLeftPadding(trail, "");
    } else {
      assert (core + trail)[0] == core[0];
      TrimRightPadding(core, trail);
    }
  }

  lemma FoldsAt(c: char, i: nat)
    requires i < 14
    ensures Lower(c) == Lower(CONTENT_LENGTH[i]) <==> c == "content-length"[i] || c == "CONTENT-LENGTH"[i]
  {
  }

  lemma FoldsIff(name: string)
    ensures EqualFold(name, CONTENT_LENGTH) <==> NamesLength(name)
  {
    forall i | 0 <= i < 14 && i < |name|
      ensures Lower(name[i]) == Lower(CONTENT_LENGTH[i]) <==> name[i] == "content-length"[i] || name[i] == "CONTENT-LENGTH"[i]
    {
      FoldsAt(name[i], i);
    }
  }

  lemma {:induction false} ColonAt(name: string, value: string)
    requires ':' !in name
    ensures Colon(name + ":" + value) == |name|
    decreases |name|
  {
    var line := name + ":" + value;
    if name == "" {
      assert line[0] == ':';
    } else {
      assert name[0] in name && line[0] == name[0] && line[1..] == name[1..] + ":" + value;
      ColonAt(name[1..], value);
    }
  }

  lemma {:induction false} NoColon(t: string)
    requires ':' !in t
    ensures Colon(t) == |t|
    decreases |t|
  {
    if t != "" {
      assert t[0] in t && forall c | c in t[1..] :: c in t;
      NoColon(t[1..]);
    }
  }

  /** A line with a colon is decided by its trimmed name. */
  lemma NamedLine(lead: string, name: string, trail: string, value: string, contentLen: int)
    requires Padding(lead) && Padding(trail) && EndsBare(name) && ':' !in name
    ensures HeaderLine(lead + name + trail + ":" + value, contentLen)
         == if NamesLength(name) then Atoi(TrimSpace(value)) else Number(contentLen)
  {
    var key := lead + name + trail;
    var line := key + ":" + value;
    assert ':' !in key by {
      forall c | c in key ensures c != ':' { assert c in lead || c in name || c in trail; }
    }
    ColonAt(key, value);
    assert line[..|key|] == key && line[|key| + 1..] == value;
    TrimPadding(lead, name, trail);
    FoldsIff(name);
  }

  lemma NoColonOrSpace(name: string)
    requires NamesLength(name)
    ensures ':' !in name && '\n' !in name && EndsBare(name)
  {
    forall c | c in name ensures c != ':' && c != '\n' && !IsSpace(c) {
      var i :| 0 <= i < |name| && name[i] == c;
    }
  }

  lemma AtoiInt(n: int)
    requires -MAX_INT - 1 <= n <= MAX_INT
    ensures Atoi(IntText(n)) == Number(n) && IntText(n) != "" && EndsBare(IntText(n)) && '\n' !in IntText(n)
  {
    if n < 0 {
      ItoaDigits(0 - n);
      AtoiNegative(Itoa(0 - n));
      DigitsBare("-", Itoa(0 - n));
    } else {
      AtoiItoa(n);
      ItoaDigits(n);
      DigitsBare("", Itoa(n));
      assert "" + Itoa(n) == Itoa(n);
    }
  }

  lemma AtoiNegative(digits: string)
    requires digits != "" && AllDigits(digits) && DigitsValue(digits) <= MAX_INT + 1
    ensures Atoi("-" + digits) == Number(0 - DigitsValue(digits))
  {
    assert ("-" + digits)[1..] == digits;
  }

  lemma DigitsBare(sign: string, digits: string)
    requires (sign == "" || sign == "-") && digits != "" && AllDigits(digits)
    ensures EndsBare(sign + digits) && '\n' !in sign + digits
  {
    assert '\n' !in digits && '\n' !in sign;
  }

  /** What one header line makes of the length seen so far. */
  lemma HeaderIs(h: Header, contentLen: int)
    requires HeaderOk(h)
    ensures HeaderLine(HeaderText(h), contentLen) == Number(if h.Length? then h.n else contentLen)
  {
    match h
    case Length(lead, name, trail, pad, n, post, _) =>
      NoColonOrSpace(name);
      NamedLine(lead, name, trail, pad + IntText(n) + post, contentLen);
      AtoiInt(n);
      TrimPadding(pad, IntText(n), post);
    case Other(lead, name, trail, value, _) => NamedLine(lead, name, trail, value, contentLen);
    case Bare(text, _) => NoColon(text);
  }

  lemma HeaderTextOk(h: Header)
    requires HeaderOk(h)
    ensures HeaderText(h) != "" && '\n' !in HeaderText(h) && !IsBlank(HeaderText(h)[|HeaderText(h)| - 1])
  {
    var t := HeaderText(h);
    match h
    case Length(lead, name, trail, pad, n, post, _) =>
      NoColonOrSpace(name);
      AtoiInt(n);
      var value := pad + IntText(n);
      LastOf(value, post);
      assert '\n' !in value + post && t[|t| - 1] == (value + post)[|value + post| - 1];
    case Other(_, _, _, _, _) =>
    case Bare(_, _) =>
  }

  lemma LastOf(t: string, post: string)
    requires t != "" && !IsBlank(t[|t| - 1]) && Padding(post)
    ensures !IsBlank((t + post)[|t + post| - 1])
  {
    assert post != "" ==> post[|post| - 1] in post;
  }

  // ------------------------------------------------------------ reading back

  lemma {:induction false} SkipGap(gap: string, rest: string)
    requires forall c | c in gap :: IsBlank(c)
    ensures SkipBlank(gap + rest) == SkipBlank(rest)
    decreases |gap|
  {
    if gap == "" {
      assert gap + rest == rest;
    } else {
      assert gap[0] in gap && (gap + rest)[1..] == gap[1..] + rest;
      SkipGap(gap[1..], rest);
    }
  }

  lemma {:induction false} LineIs(body: string, rest: string)
    requires '\n' !in body
    ensures LineLength(body + "\n" + rest) == |body| + 1
    decreases |body|
  {
    var text := body + "\n" + rest;
    if body == "" {
      assert text[0] == '\n';
    } else {
      assert text[0] == body[0] && text[1..] == body[1..] + "\n" + rest;
      assert body[0] in body;
      LineIs(body[1..], rest);
    }
  }

  lemma TrimLine(line: string, eol: string)
    requires Eol(eol) && (line != "" ==> !IsBlank(line[|line| - 1]))
    ensures TrimEol(line + eol) == line
  {
    TrimOne(line, '\n');
    TrimOne(line, '\r');
    TrimOne(line + ['\r'], '\n');
    assert line + ['\r'] + ['\n'] == line + "\r\n";
  }

  lemma TrimOne(line: string, c: char)
    requires IsBlank(c)
    ensures TrimEol(line + [c]) == TrimEol(line)
  {
    assert (line + [c])[..|line|] == line;
  }

  /** The first line of the input, and what is left after it. */
  lemma FirstLine(line: string, eol: string, rest: string)
    requires Eol(eol) && '\n' !in line && (line != "" ==> !IsBlank(line[|line| - 1]))
    ensures var input, n := line + eol + rest, LineLength(line + eol + rest);
      n == |line| + |eol| && input[n - 1] == '\n' && TrimEol(input[..n]) == line && input[n..] == rest
  {
    var input, body := line + eol + rest, line + eol[..|eol| - 1];
    assert '\n' !in body && input == body + "\n" + rest;
    LineIs(body, rest);
    assert input[..|line| + |eol|] == line + eol;
    TrimLine(line, eol);
  }

  lemma ReadOneLine(line: string, eol: string, tail: string, contentLen: int)
    requires line != "" && Eol(eol) && '\n' !in line && !IsBlank(line[|line| - 1])
    ensures ReadFramed(line + eol + tail, contentLen)
         == match HeaderLine(line, contentLen)
            case NotANumber => (BadContentLength, tail)
            case Number(len) => ReadFramed(tail, len)
  {
    FirstLine(line, eol, tail);
  }

  /** A header block is read to its end, keeping the last length. */
  lemma {:induction false} ReadBlock(hs: seq<Header>, tail: string)
    requires forall h | h in hs :: HeaderOk(h)
    ensures ReadFramed(Block(hs) + tail, -1) == ReadFramed(tail, Declared(hs))
    decreases |hs|
  {
    if hs == [] {
      assert Block(hs) + tail == tail;
    } else {
      var init, h := hs[..|hs| - 1], hs[|hs| - 1];
      var line := HeaderText(h);
      assert h in hs && forall g | g in init :: g in hs;
      ReadBlock(init, line + h.eol + tail);
      Regroup(Block(init), line, h.eol, tail);
      ReadHeader(h, tail, Declared(init));
    }
  }

  lemma ReadHeader(h: Header, tail: string, contentLen: int)
    requires HeaderOk(h)
    ensures ReadFramed(HeaderText(h) + h.eol + tail, contentLen) == ReadFramed(tail, if h.Length? then h.n else contentLen)
  {
    HeaderTextOk(h);
    ReadOneLine(HeaderText(h), h.eol, tail, contentLen);
    HeaderIs(h, contentLen);
  }

  lemma Regroup(a: string, b: string, c: string, d: string)
    ensures a + (b + c) + d == a + (b + c + d)
  {
  }

  lemma {:induction false} BlockStarts(hs: seq<Header>)
    requires hs != [] && HeaderText(hs[0]) != ""
    ensures Block(hs) != "" && Block(hs)[0] == HeaderText(hs[0])[0]
    decreases |hs|
  {
    var init := hs[..|hs| - 1];
    if init == [] {
      assert Block(init) == "";
    } else {
      BlockStarts(init);
      assert Block(hs)[0] == Block(init)[0];
    }
  }

  /** What comes of a header block: the last length counts whatever other headers stand around it;
      without one, or with a negative one, the input after the empty line is left unread; a body
      cut short is used up and reported as such, or as the end of input if none of it is there. */
  lemma ReadHeaded(gap: string, hs: seq<Header>, end: string, tail: string)
    requires (forall c | c in gap :: IsBlank(c)) && BlockOk(hs) && Eol(end)
    ensures var len := Declared(hs);
      NextMessage(gap + (Block(hs) + (end + tail)))
      == if len < 0 then (NoContentLength, tail)
         else if len <= |tail| then (Message(tail[..len]), tail[len..])
         else if tail == "" then (Eof, "")
         else (UnexpectedEof, "")
  {
    var text := Block(hs) + (end + tail);
    SkipGap(gap, text);
    BlockStarts(hs);
    assert text[0] == 'C' && SkipBlank(text) == text;
    ReadBlock(hs, end + tail);
    FirstLine("", end, tail);
    assert "" + end + tail == end + tail;
  }

  /** A length that is no number stops the reading there. */
  lemma ReadBadLength(hs: seq<Header>, lead: string, name: string, trail: string, value: string, eol: string, tail: string)
    requires (forall h | h in hs :: HeaderOk(h)) && Padding(lead) && Padding(trail) && NamesLength(name) && Eol(eol)
    requires '\n' !in value && EndsBare(value) && !Integer(value)
    requires hs != [] ==> HeaderText(hs[0]) != "" && HeaderText(hs[0])[0] == 'C'
    requires hs == [] ==> (lead + name)[0] == 'C'
    ensures NextMessage(Block(hs) + (lead + name + trail + ":" + value + eol + tail)) == (BadContentLength, tail)
  {
    var line := lead + name + trail + ":" + value;
    var rest := line + eol + tail;
    BadLine(lead, name, trail, value, Declared(hs));
    if hs != [] { BlockStarts(hs); } else { assert Block(hs) + rest == rest; }
    assert (Block(hs) + rest)[0] == 'C';
    ReadBlock(hs, rest);
    ReadOneLine(line, eol, tail, Declared(hs));
  }

  lemma BadLine(lead: string, name: string, trail: string, value: string, contentLen: int)
    requires Padding(lead) && Padding(trail) && NamesLength(name) && '\n' !in value && EndsBare(value) && !Integer(value)
    ensures var line := lead + name + trail + ":" + value;
      line != "" && '\n' !in line && !IsBlank(line[|line| - 1]) && HeaderLine(line, contentLen) == NotANumber
  {
    NoColonOrSpace(name);
    NamedLine(lead, name, trail, value, contentLen);
    assert "" + value + "" == value;
    TrimPadding("", value, "");
    NotANumberIff(value);
  }

  /** The text of an integer a length may have: digits after at most one sign, within 64 bits. */
  predicate Integer(t: string) {
    || Natural(t, 9223372036854775807)
    || (t != "" && t[0] == '+' && Natural(t[1..], 9223372036854775807))
    || (t != "" && t[0] == '-' && Natural(t[1..], 9223372036854775808))
  }

  predicate Natural(t: string, max: int) {
    t != "" && AllDigits(t) && DigitsValue(t) <= max
  }

  lemma NotANumberIff(t: string)
    ensures Atoi(t).NotANumber? <==> !Integer(t)
  {
    if t != "" && (t[0] == '-' || t[0] == '+') {
      assert !AllDigits(t);
    }
  }

  lemma {:induction false} NoNewline(t: string)
    requires '\n' !in t
    ensures LineLength(t) == |t|
    decreases |t|
  {
    if t != "" {
      assert t[0] in t && forall c | c in t[1..] :: c in t;
      NoNewline(t[1..]);
    }
  }

  /** A last line without a newline is still a message. */
  lemma ReadLastLine(gap: string, msg: string)
    requires (forall c | c in gap :: IsBlank(c)) && Writable(Lined("", msg))
    ensures NextMessage(gap + msg) == (Message(msg), "")
  {
    SkipGap(gap, msg);
    NoNewline(msg);
    assert msg[..|msg|] == msg && msg[|msg|..] == "";
  }

  /** A header block cut off before its empty line is the end of the input. */
  lemma ReadCutBlock(hs: seq<Header>, cut: string)
    requires (forall h | h in hs :: HeaderOk(h)) && '\n' !in cut
    requires if hs == [] then cut != "" && cut[0] == 'C' else HeaderText(hs[0]) != "" && HeaderText(hs[0])[0] == 'C'
    ensures NextMessage(Block(hs) + cut) == (Eof, "")
  {
    if hs != [] { BlockStarts(hs); } else { assert Block(hs) + cut == cut; }
    assert (Block(hs) + cut)[0] == 'C';
    ReadBlock(hs, cut);
    NoNewline(cut);
    assert cut != "" ==> cut[|cut| - 1] in cut;
  }

  lemma ReadLined(msg: string, rest: string)
    requires Writable(Lined("", msg))
    ensures NextMessage(msg + "\n" + rest) == (Message(msg), rest)
  {
    var text := msg + "\n" + rest;
    FirstLine(msg, "\n", rest);
    assert text[0] == msg[0];
  }

  /** Reading one written frame gives back its message and leaves the rest. */
  lemma ReadWritten(f: Framed, rest: string)
    requires Writable(f)
    ensures NextMessage(Write(f) + rest) == (Message(f.msg), rest)
  {
    match f
    case Lined(gap, msg) =>
      assert Write(f) + rest == gap + (msg + "\n" + rest);
      SkipGap(gap, msg + "\n" + rest);
      ReadLined(msg, rest);
    case Headed(gap, headers, end, msg) =>
      assert Write(f) + rest == gap + (Block(headers) + (end + (msg + rest)));
      ReadHeaded(gap, headers, end, msg + rest);
      assert (msg + rest)[..|msg|] == msg && (msg + rest)[|msg|..] == rest;
  }

  /** Any mix of line and header frames, with blank lines anywhere between them, is dispatched as
      exactly its non-empty messages in order, and then the stream ends. */
  lemma {:induction false} ServeReadsWhatWasWritten(fs: seq<Framed>, end: string)
    requires (forall f | f in fs :: Writable(f)) && (forall c | c in end :: IsBlank(c))
    ensures ServeAll(WriteAll(fs, end)).0 == Bodies(fs)
    ensures ServeAll(WriteAll(fs, end)).1 == Eof
    decreases |fs|
  {
    if fs == [] {
      SkipGap(end, "");
      assert end + "" == end;
    } else {
      var rest := WriteAll(fs[1..], end);
      assert fs[0] in fs;
      ReadWritten(fs[0], rest);
      ServeReadsWhatWasWritten(fs[1..], end);
      NextMessageConsumes(Write(fs[0]) + rest);
      assert ServeAll(Write(fs[0]) + rest).1 == ServeAll(rest).1;
    }
  }
}
