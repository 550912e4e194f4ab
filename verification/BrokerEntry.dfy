/** Who gets in and who is let go: the verdict of every handshake by its content, and the release of
    a name when its connection ends or the broker restarts. */
module BrokerEntry {
  import opened Envelopes
  import opened Order
  import opened Store
  import opened Broker
  import opened BrokerSafety
  import opened BrokerNames

  /** A register frame of this version for n, under a token the broker knows. */
  ghost predicate Presents(b: State, hello: Hello, n: string) {
    && hello.Frame? && hello.kind == "register" && hello.version == "v1"
    && hello.name == n && n != "" && hello.token != "" && hello.token in b.tokens
  }

  /** The new connection is bound to n exactly when it presents n, n is free or held under the same
      token, and the acknowledgement is written. Nothing else changes any other name. */
  lemma BoundIff(b: State, hello: Hello, ackOk: bool, written: nat, n: string)
    requires Safe(b)
    ensures var b' := Apply(b, Accept(hello, ackOk, written));
      && (n in b'.registry && b'.registry[n].conn == b.accepted
          <==> Presents(b, hello, n) && (n !in b.registry || b.registry[n].token == hello.token) && ackOk)
      && (n in b'.registry && b'.registry[n].conn == b.accepted ==>
            b'.registry[n].token == hello.token && b.accepted in b'.links
            && b'.links[b.accepted].name == n && b'.links[b.accepted].serving)
      && (!Presents(b, hello, n) ==> (n in b'.registry <==> n in b.registry)
                                     && (n in b.registry ==> b'.registry[n] == b.registry[n]))
  {
    StepNames(b, Accept(hello, ackOk, written));
    ApplySafe(b, Accept(hello, ackOk, written));
    var b' := Apply(b, Accept(hello, ackOk, written));
    assert RegistryOk(b') && LinksOk(b);
  }

  /** The verdict on a hello, by what it says: the first check that fails decides. */
  lemma VerdictIs(b: State, hello: Hello, ackOk: bool)
    ensures var v := Judge(b, hello, ackOk);
      match hello
      case ReadError => v == NoHandshakeFrame
      case NotText => v == HandshakeNotText
      case BadJson => v == MalformedHandshake
      case Frame(kind, version, token, name) =>
        && (v == NotRegister <==> kind != "register")
        && (v == UnsupportedVersion <==> kind == "register" && version != "v1")
        && (v == EmptyPeerName <==> kind == "register" && version == "v1" && name == "")
        && (v == InvalidToken <==> kind == "register" && version == "v1" && name != "" && (token == "" || token !in b.tokens))
        && (v == NameClaimed <==> Presents(b, hello, name) && name in b.registry && b.registry[name].token != token)
        && (v == AckFailed <==> Presents(b, hello, name) && (name in b.registry ==> b.registry[name].token == token) && !ackOk)
        && (v.Admitted? <==> Presents(b, hello, name) && (name in b.registry ==> b.registry[name].token == token) && ackOk)
        && (v.Admitted? ==> (v.takenOver <==> name in b.registry))
  {
  }

  /** A handshake turned away before the name is bound leaves names, messages, log and every other
      connection as they were. */
  lemma RefusedChangesNothing(b: State, hello: Hello, ackOk: bool, written: nat)
    requires !Judge(b, hello, ackOk).Admitted? && Judge(b, hello, ackOk) != AckFailed
    ensures var b' := Apply(b, Accept(hello, ackOk, written));
      && b'.registry == b.registry && b'.tables.messages == b.tables.messages && b'.log == b.log && b'.tokens == b.tokens
      && b'.links == b.links[b.accepted := DEAD] && !b'.links[b.accepted].serving
  {
  }

  /** The connection of a name ends: it is closed and removes itself. */
  ghost function Departed(b: State, c: nat): State {
    Apply(Apply(b, Hangup(c)), Leave(c))
  }

  /** When the connection bound to n ends, n is free, every other binding stands, the connection
      serves no more, and no message is touched. */
  lemma DepartureReleases(b: State, n: string)
    requires Safe(b) && n in b.registry
    ensures var c := b.registry[n].conn; var b' := Departed(b, c);
      && Safe(b') && n !in b'.registry && b'.registry.Keys == b.registry.Keys - {n}
      && (forall m | m in b.registry && m != n :: b'.registry[m] == b.registry[m])
      && c in b'.links && !b'.links[c].serving && b'.links[c].closed
      && b'.tables == b.tables && b'.log == b.log && b'.tokens == b.tokens
  {
    DepartedSafe(b, b.registry[n].conn);
    HeldByServing(b, n);
    DepartedIs(b, n, b.registry[n].conn);
  }

  lemma HeldByServing(b: State, n: string)
    requires Safe(b) && n in b.registry
    ensures var c := b.registry[n].conn; c in b.links && b.links[c].name == n && b.links[c].serving
  {
    assert RegistryOk(b);
  }

  lemma DepartedSafe(b: State, c: nat)
    requires Safe(b)
    ensures Safe(Departed(b, c))
  {
    ApplySafe(b, Hangup(c));
    ApplySafe(Apply(b, Hangup(c)), Leave(c));
  }

  lemma DepartedIs(b: State, n: string, c: nat)
    requires n in b.registry && b.registry[n].conn == c && c in b.links && b.links[c].name == n && b.links[c].serving
    ensures Departed(b, c) == b.(
              links := b.links[c := b.links[c].(closed := true, broken := true, serving := false)],
              registry := b.registry - {n})
  {
  }

  /** After that, a register frame for n under any valid token is admitted, with nobody taken
      over. */
  lemma FreeNameIsAdmitted(b: State, n: string, token: string)
    requires Safe(b) && n in b.registry && token != "" && token in b.tokens
    ensures Judge(Departed(b, b.registry[n].conn), Frame("register", "v1", token, n), true) == Admitted(false)
  {
    DepartureReleases(b, n);
    assert RegistryOk(b);
  }

  /** A connection that is not bound leaves every name alone when it ends, and still stops
      serving. */
  lemma UnboundDeparture(b: State, c: nat)
    requires c in b.links && b.links[c].serving && (b.links[c].name in b.registry ==> b.registry[b.links[c].name].conn != c)
    ensures var b' := Departed(b, c);
      b'.registry == b.registry && !b'.links[c].serving && b'.links[c].closed && b'.tables == b.tables && b'.log == b.log
  {
  }

  /** A restart forgets every binding and connection, and keeps queue and log. */
  lemma RestartForgets(b: State)
    ensures var b' := Apply(b, Restart);
      && b'.registry == map[] && b'.tables == b.tables && b'.log == b.log && b'.tokens == b.tokens
      && b'.links.Keys == b.links.Keys && forall c | c in b'.links :: !b'.links[c].serving && b'.links[c].broken
  {
  }
}
