/** How name bindings change hands: takeover, rejection and removal over whole runs. */
module BrokerNames {
  import Envelopes
  import opened Order
  import opened Store
  import opened Broker
  import opened BrokerSafety
  import opened BrokerOrigins

  /** Every name a broadcast or a direct send can see is one the queue accepts rows for. */
  lemma ListedNamesAreKnown(tokens: set<string>, ops: seq<Op>, name: string)
    requires name in Run(Initial(tokens), ops).registry
    ensures var b := Run(Initial(tokens), ops);
      && (forall id, from :: EnqueueOutcome(b.tables, id, from, name) != UnknownPeer)
      && b.registry[name].token in tokens
      && b.registry[name].conn in b.links && b.links[b.registry[name].conn].name == name
      && !b.links[b.registry[name].conn].takeover
  {
    RunSafe(Initial(tokens), ops);
    TokensFixed(Initial(tokens), ops);
  }

  /** Bindings, tokens and close flags are the same in both states. */
  ghost predicate SameNames(b: State, b': State) {
    && b'.registry == b.registry && b'.tokens == b.tokens && b'.links.Keys == b.links.Keys
    && forall c | c in b.links :: b'.links[c].takeover == b.links[c].takeover && b'.links[c].closed == b.links[c].closed
  }

  lemma {:induction false} FanOutKeepsNames(b: State, from: string, env: Envelopes.Envelope, names: seq<string>, up: set<string>)
    ensures SameNames(b, FanOut(b, from, env, names, up))
    decreases |names|
  {
    if names != [] {
      var b1 := if names[0] == from then b
                else Submit(b, CopyKey(env.id, names[0]), from, names[0], env, names[0] in up);
      assert SameNames(b, b1);
      FanOutKeepsNames(b1, from, env, names[1..], up);
    }
  }

  lemma {:induction false} FlushKeepsNames(b: State, c: nat, to: string, keys: seq<string>, written: nat)
    ensures SameNames(b, Flush(b, c, to, keys, written))
    decreases |keys|
  {
    if keys != [] && written != 0 {
      var b1 := Push(b, c, to, keys[0], true);
      assert SameNames(b, b1);
      FlushKeepsNames(b1, c, to, keys[1..], written - 1);
    }
  }

  /** Routing never changes who is bound. */
  lemma RouteKeepsNames(b: State, from: string, frame: Frame, up: set<string>)
    ensures SameNames(b, RouteFrame(b, from, frame, up))
  {
    if frame.EnvelopeFrame? {
      FanOutKeepsNames(b, from, frame.env, Sorted(StrLess, b.registry.Keys), up);
    }
  }

  /** Only handshakes and removals touch the names; an admitted handshake leaves what
      Welcomed set up. */
  lemma StepNames(b: State, op: Op)
    ensures op.Route? ==> SameNames(b, Apply(b, op))
    ensures op.Accept? && Judge(b, op.hello, op.ackOk).Admitted? ==>
              SameNames(Welcomed(b, op.hello.name, op.hello.token), Apply(b, op))
  {
    match op
    case Accept(hello, ackOk, written) =>
      if Judge(b, hello, ackOk).Admitted? {
        var w := Welcomed(b, hello.name, hello.token);
        FlushKeepsNames(w, b.accepted, hello.name, Drain(w.tables, hello.name), written);
      }
    case Route(c, frame, up) =>
      if c in b.links && b.links[c].serving {
        RouteKeepsNames(b, b.links[c].name, frame, up);
      }
    case _ =>
  }

  /** What one step may do to the binding of a name. */
  ghost predicate BindingStep(b: State, op: Op, b': State, n: string) {
    // only the bound connection's own removal, a restart, or a same-token handshake whose
    // acknowledgement is lost unbinds a name
    && (n in b.registry && n !in b'.registry ==> Releases(b, op, n))
    // a name bound before and after keeps its token; if its connection changed, the old one was
    // closed by the takeover and the new one is fresh
    && (n in b.registry && n in b'.registry ==>
          && b'.registry[n].token == b.registry[n].token
          && (b'.registry[n].conn != b.registry[n].conn ==>
                && b'.registry[n].conn == b.accepted && op.Accept?
                && b.registry[n].conn in b.links && b.registry[n].conn in b'.links
                && b'.links[b.registry[n].conn].closed
                && (b'.links[b.registry[n].conn].takeover || b.links[b.registry[n].conn].closed)))
    // a name is bound only by an admitted handshake presenting a valid token
    && (n !in b.registry && n in b'.registry ==>
          && op.Accept? && Judge(b, op.hello, op.ackOk).Admitted? && op.hello.name == n
          && b'.registry[n] == Binding(b.accepted, op.hello.token) && op.hello.token in b.tokens)
  }

  lemma BindingStepHolds(b: State, op: Op, n: string)
    requires Safe(b)
    ensures BindingStep(b, op, Apply(b, op), n)
  {
    StepNames(b, op);
  }

  lemma TakeoverStays(b: State, op: Op, c: nat)
    requires Safe(b) && c in b.links && b.links[c].takeover
    ensures c in Apply(b, op).links && Apply(b, op).links[c].takeover
  {
    StepNames(b, op);
  }

  /** A taken-over connection stays superseded and is never bound again, whatever happens
      later. */
  lemma {:induction false} TakenOverNeverBoundAgain(b: State, ops: seq<Op>, c: nat)
    requires Safe(b) && c in b.links && b.links[c].takeover
    ensures c in Run(b, ops).links && Run(b, ops).links[c].takeover
    ensures forall n | n in Run(b, ops).registry :: Run(b, ops).registry[n].conn != c
    decreases |ops|
  {
    if ops == [] {
      assert RegistryOk(b);
    } else {
      ApplySafe(b, ops[0]);
      TakeoverStays(b, ops[0], c);
      TakenOverNeverBoundAgain(Apply(b, ops[0]), ops[1..], c);
    }
  }

  /** However late a superseded connection notices, its removal leaves every binding alone. */
  lemma StaleRemoveIsHarmless(b: State, ops: seq<Op>, c: nat)
    requires Safe(b) && c in b.links && b.links[c].takeover
    ensures Apply(Run(b, ops), Leave(c)).registry == Run(b, ops).registry
  {
    TakenOverNeverBoundAgain(b, ops, c);
  }

  /** The step releases the name: its bound connection removes itself, the broker restarts, or a
      handshake under the same token loses its acknowledgement. */
  ghost predicate Releases(b: State, op: Op, n: string)
    requires n in b.registry
  {
    || op == Leave(b.registry[n].conn) || op == Restart
    || (op.Accept? && Judge(b, op.hello, op.ackOk) == AckFailed && op.hello.name == n
        && op.hello.token == b.registry[n].token)
  }

  /** Before a name's token changes, some step releases the name while it still has its token. */
  lemma {:induction false} TokenChangesOnlyThroughRelease(b: State, ops: seq<Op>, n: string)
    requires Safe(b) && n in b.registry && n in Run(b, ops).registry
    requires Run(b, ops).registry[n].token != b.registry[n].token
    ensures exists i :: 0 <= i < |ops| && ReleasedAt(b, ops, i, n)
    decreases |ops|
  {
    var b1, rest := Apply(b, ops[0]), ops[1..];
    StateAtStep(b, ops, 0);
    StateAtStart(b1, rest);
    BindingStepHolds(b, ops[0], n);
    if n !in b1.registry {
      assert ReleasedAt(b, ops, 0, n);
    } else {
      ApplySafe(b, ops[0]);
      TokenChangesOnlyThroughRelease(b1, rest, n);
      var i :| 0 <= i < |rest| && ReleasedAt(b1, rest, i, n);
      StateAtStep(b, ops, i);
      StateAtStep(b, ops, i + 1);
      assert ReleasedAt(b, ops, i + 1, n);
    }
  }

  /** The i-th step of the run releases the name, which until then has the token it had at the
      start. */
  ghost predicate ReleasedAt(b: State, ops: seq<Op>, i: nat, n: string)
    requires i < |ops| && n in b.registry
  {
    var x := StateAt(b, ops, i);
    && n in x.registry && x.registry[n].token == b.registry[n].token
    && Releases(x, ops[i], n) && n !in StateAt(b, ops, i + 1).registry
  }

  lemma StateAtStart(b: State, ops: seq<Op>)
    ensures StateAt(b, ops, 0) == b
  {
  }

  lemma {:induction false} TokensFixed(b: State, ops: seq<Op>)
    ensures Run(b, ops).tokens == b.tokens
    decreases |ops|
  {
    if ops != [] {
      StepNames(b, ops[0]);
      TokensFixed(Apply(b, ops[0]), ops[1..]);
    }
  }
}
