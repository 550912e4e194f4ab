/** The broker process: connections, the name registry and the routing code, changing state in
    place exactly as the broker state machine says. */
module Server {
  import opened Envelopes
  import opened Order
  import opened Store
  import opened Broker
  import opened BrokerSafety
  import opened Audit
  import opened AuditEvents

  // ------------------------------------------------------------ connections

  class PeerConn {
    const id: nat
    var name: string
    var sent: seq<Delivery>
    var closed: bool
    var takeover: bool
    var broken: bool
    var serving: bool
    ghost var settled: set<string>

    ghost function View(): Link
      reads this
    {
      Link(name, sent, closed, takeover, broken, serving, settled)
    }

    constructor (id: nat)
      ensures this.id == id && View() == Link("", [], false, false, false, false, {})
    {
      this.id := id;
      name, sent, closed, takeover, broken, serving, settled := "", [], false, false, false, false, {};
    }

    method CloseTakenOver()
      modifies this
      ensures View() == Displaced(old(View()))
    {
      if closed { return; }
      closed := true;
      takeover := true;
      broken := true;
    }

    method CloseNormal()
      modifies this
      ensures View() == if old(closed) then old(View()) else old(View()).(closed := true, broken := true)
    {
      if closed { return; }
      closed := true;
      broken := true;
    }

    /** Writes one deliver frame; linkUp is what the transport makes of it. */
    method WriteDeliver(key: string, env: Envelope, linkUp: bool) returns (ok: bool)
      modifies this
      ensures ok <==> linkUp && !old(broken)
      ensures View() == if ok then old(View()).(sent := old(sent) + [Delivery(key, env)])
                        else old(View()).(broken := true)
    {
      ok := linkUp && !broken;
      if ok {
        sent := sent + [Delivery(key, env)];
      } else {
        broken := true;
      }
    }
  }

  // ------------------------------------------------------------ the registry

  datatype Entry = Entry(conn: PeerConn, token: string)

  class Registry {
    var peers: map<string, Entry>

    ghost function Bindings(): map<string, Binding>
      reads this
    {
      map n | n in peers :: Binding(peers[n].conn.id, peers[n].token)
    }

    constructor ()
      ensures peers == map[]
    {
      peers := map[];
    }

    /** A same-token claim displaces the old connection, a different-token claim changes
        nothing. */
    method Bind(name: string, token: string, conn: PeerConn) returns (claimed: bool, takenOver: bool)
      requires name in peers ==> peers[name].conn != conn
      modifies this, if name in peers then {peers[name].conn} else {}
      ensures claimed <==> name in old(peers) && old(peers)[name].token != token
      ensures takenOver <==> name in old(peers) && !claimed
      ensures peers == if claimed then old(peers) else old(peers)[name := Entry(conn, token)]
      ensures name in old(peers) ==>
        old(peers)[name].conn.View()
        == if takenOver then Displaced(old(peers[name].conn.View())) else old(peers[name].conn.View())
    {
      if name in peers {
        var existing := peers[name];
        if existing.token != token {
          return true, false;
        }
        peers := peers[name := Entry(conn, token)];
        existing.conn.CloseTakenOver();
        return false, true;
      }
      peers := peers[name := Entry(conn, token)];
      return false, false;
    }

    /** Unbinds the name only if it is still bound to this very connection. */
    method Remove(name: string, conn: PeerConn)
      modifies this
      ensures peers == if name in old(peers) && old(peers)[name].conn == conn then old(peers) - {name} else old(peers)
    {
      if name in peers && peers[name].conn == conn {
        peers := peers - {name};
      }
    }

    method Get(name: string) returns (found: bool, conn: PeerConn?)
      ensures found <==> name in peers
      ensures found ==> conn == peers[name].conn
    {
      if name in peers {
        return true, peers[name].conn;
      }
      return false, null;
    }

    /** The bound names, each once, in ascending order. */
    method List() returns (names: seq<string>)
      ensures names == Sorted(StrLess, peers.Keys)
    {
      names := [];
      ghost var listed := {};
      var left := peers.Keys;
      while left != {}
        invariant left <= peers.Keys && listed == peers.Keys - left
        invariant InOrder(StrLess, listed, names)
        decreases left
      {
        var n :| n in left;
        NamesTotal(listed + {n});
        names := Insert(StrLess, listed, names, n);
        listed := listed + {n};
        left := left - {n};
      }
      NamesTotal(peers.Keys);
      assert listed == peers.Keys;
      SortedInOrder(StrLess, peers.Keys);
      InOrderUnique(StrLess, peers.Keys, names, Sorted(StrLess, peers.Keys));
    }
  }

  // ------------------------------------------------------------ the server

  class Server {
    const tokens: set<string>
    const store: DurableStore
    const registry: Registry
    const audit: Log
    var conns: map<nat, PeerConn>
    var accepted: nat
    /** The events appended to the audit chain so far. */
    ghost var log: seq<Event>

    ghost function Links(): map<nat, Link>
      reads this`conns, conns.Values
    {
      map c | c in conns :: conns[c].View()
    }

    /** The broker state this process is in. */
    ghost function Abs(): State
      reads this, store, registry, conns.Values
    {
      State(tokens, store.Contents(), registry.Bindings(), Links(), accepted, log)
    }

    /** Connections sit under their own number, bound connections are among them, and the audit
        chain is intact and records exactly the log. */
    ghost predicate Valid()
      reads this, store, registry, audit, conns.Values
    {
      !store.closed && Filed() && Audited()
    }

    ghost predicate Filed()
      reads this, registry, conns.Values
    {
      && (forall c :: c in conns ==> conns[c].id == c && c < accepted && (conns[c].closed ==> conns[c].broken))
      && (forall n :: n in registry.peers ==>
            registry.peers[n].conn.id in conns && conns[registry.peers[n].conn.id] == registry.peers[n].conn)
    }

    ghost predicate Audited()
      reads this, audit
    {
      Records(audit.rows, log) && Intact(audit.digest, audit.rows)
    }

    constructor (tokens: set<string>, digest: Digest)
      ensures Valid() && Abs() == Initial(tokens)
    {
      this.tokens := tokens;
      store := new DurableStore();
      registry := new Registry();
      audit := new Log(digest);
      conns, accepted, log := map[], 0, [];
      new;
    }

    method AppendAudit(e: Event)
      requires Audited()
      modifies this`log, audit
      ensures Audited() && log == old(log) + [e]
    {
      var row := audit.Append(Encode(e));
      RecordsAppend(old(audit.rows), log, row, e);
      log := log + [e];
    }

    method AuditEvent(e: Event)
      requires Valid()
      modifies this`log, audit
      ensures Valid() && Abs() == old(Abs()).(log := old(log) + [e])
    {
      AppendAudit(e);
    }

    /** Writing to one connection changes that connection's entry alone. */
    lemma LinksUpdate(before: map<nat, Link>, conn: PeerConn)
      requires forall c :: c in conns ==> conns[c].id == c
      requires conn.id in conns && conns[conn.id] == conn
      requires before.Keys == conns.Keys
      requires forall c :: c in conns && c != conn.id ==> conns[c].View() == before[c]
      ensures Links() == before[conn.id := conn.View()]
    {
    }

    lemma LinksSame(before: map<nat, Link>)
      requires before.Keys == conns.Keys && forall c :: c in conns ==> conns[c].View() == before[c]
      ensures Links() == before
    {
    }

    method WriteFrame(conn: PeerConn, key: string, env: Envelope, linkUp: bool) returns (ok: bool)
      requires Valid() && conn.id in conns && conns[conn.id] == conn
      modifies conn
      ensures Valid() && (ok <==> linkUp && !old(conn.broken))
      ensures conn.View() == if ok then old(conn.View()).(sent := old(conn.sent) + [Delivery(key, env)])
                             else old(conn.View()).(broken := true)
      ensures Abs() == old(Abs()).(links := old(Links())[conn.id := conn.View()])
    {
      ghost var before := Links();
      ok := conn.WriteDeliver(key, env, linkUp);
      assert forall c :: c in conns && c != conn.id ==> conns[c] != conn;
      LinksUpdate(before, conn);
    }

    /** Write the frame, then on success mark the row delivered and audit the delivery. */
    method PushFrame(conn: PeerConn, to: string, key: string, linkUp: bool) returns (ok: bool)
      requires Valid() && conn.id in conns && conns[conn.id] == conn && key in store.messages
      modifies this`log, store`messages, audit, conn
      ensures Valid() && Abs() == Push(old(Abs()), conn.id, to, key, linkUp)
      ensures ok <==> linkUp && !old(conn.broken)
      ensures conn.broken == (old(conn.broken) || !ok)
      ensures store.messages.Keys == old(store.messages.Keys)
    {
      var row := store.messages[key];
      ok := WriteFrame(conn, key, row.envelope, linkUp);
      if ok {
        MarkSent(key, row.from, to);
      }
    }

    method MarkSent(key: string, from: string, to: string)
      requires Valid()
      modifies this`log, store`messages, audit
      ensures Valid() && store.messages.Keys == old(store.messages.Keys)
      ensures Abs() == old(Abs()).(tables := MarkedDelivered(old(store.Contents()), key),
                                   log := old(log) + [DeliverEvent(key, from, to)])
    {
      var out := store.MarkDelivered(key);
      AuditEvent(DeliverEvent(key, from, to));
    }

    method DeliverTo(to: string, key: string, linkUp: bool)
      requires Valid() && key in store.messages
      modifies this`log, store`messages, audit, conns.Values
      ensures Valid() && Abs() == Broker.DeliverTo(old(Abs()), to, key, linkUp)
    {
      var found, conn := registry.Get(to);
      if !found { return; }
      var ok := PushFrame(conn, to, key, linkUp);
    }

    /** Persist, audit the send, deliver; a duplicate or an unknown recipient changes nothing. */
    method SubmitCopy(key: string, from: string, to: string, env: Envelope, linkUp: bool)
      requires Valid()
      modifies this`log, store`messages, store`senderNext, audit, conns.Values
      ensures Valid() && Abs() == Submit(old(Abs()), key, from, to, env, linkUp)
    {
      var out := store.Enqueue(key, from, to, env);
      if out != Done { return; }
      AuditEvent(SendEvent(key, from, to));
      DeliverTo(to, key, linkUp);
    }

    /** One durable copy per name registered now, except the sender. */
    method RouteBroadcast(from: string, env: Envelope, up: set<string>)
      requires Valid()
      modifies this`log, store`messages, store`senderNext, audit, conns.Values
      ensures Valid() && Abs() == FanOut(old(Abs()), from, env, Sorted(StrLess, old(registry.peers).Keys), up)
    {
      var recipients := registry.List();
      ghost var b := Abs();
      var i := 0;
      while i < |recipients|
        invariant 0 <= i <= |recipients| && Valid()
        invariant FanOut(b, from, env, recipients, up) == FanOut(Abs(), from, env, recipients[i..], up)
        modifies this`log, store`messages, store`senderNext, audit, conns.Values
      {
        var r := recipients[i];
        FanOutFirst(Abs(), from, env, recipients, i, up);
        if r != from {
          SubmitCopy(CopyKey(env.id, r), from, r, env, r in up);
        }
        i := i + 1;
      }
    }

    method RouteEnvelope(from: string, env: Envelope, up: set<string>)
      requires Valid()
      modifies this`log, store`messages, store`senderNext, audit, conns.Values
      ensures Valid() && Abs() == Broker.RouteEnvelope(old(Abs()), from, env, up)
    {
      var isBroadcast := env.to == "*";
      if isBroadcast != (env.kind == KIND_BROADCAST) { return; }
      assert Abs().registry.Keys == registry.peers.Keys;
      if isBroadcast {
        RouteBroadcast(from, env, up);
      } else {
        SubmitCopy(env.id, from, env.to, env, env.to in up);
      }
    }

    method HandleAck(id: string, from: string)
      requires Valid()
      modifies this`log, store`messages, audit
      ensures Valid() && Abs() == Broker.HandleAck(old(Abs()), id, from)
    {
      if id == "" { return; }
      var out := store.MarkAcked(id);
      AuditEvent(AckEvent(id, from));
    }

    /** One frame read from connection conn. */
    method RouteFrame(conn: PeerConn, frame: Frame, up: set<string>)
      requires Valid() && conn.id in conns && conns[conn.id] == conn && conn.serving
      modifies this`log, store`messages, store`senderNext, audit, conns.Values
      ensures Valid() && Abs() == Apply(old(Abs()), Route(conn.id, frame, up))
    {
      assert Abs().links[conn.id] == conn.View();
      match frame
      case AckFrame(id) => HandleAck(id, conn.name);
      case EnvelopeFrame(env) =>
        if env.id == "" || env.to == "" { return; }
        RouteEnvelope(conn.name, env, up);
      case _ =>
    }

    /** Writes the pending rows in drain order until the link fails. */
    method FlushPending(conn: PeerConn, written: nat)
      requires Valid() && conn.id in conns && conns[conn.id] == conn && !conn.broken
      requires Numbered(store.Contents()) && conn.name in store.peers
      modifies this`log, store`messages, audit, conn
      ensures Valid()
      ensures Abs() == Flush(old(Abs()), conn.id, old(conn.name), Drain(old(store.Contents()), old(conn.name)), written)
    {
      var out, pend := store.PendingFor(conn.name);
      DrainIsFifo(store.Contents(), conn.name);
      FlushRows(conn, conn.name, pend, written);
    }

    method FlushRows(conn: PeerConn, name: string, pend: seq<string>, written: nat)
      requires Valid() && conn.id in conns && conns[conn.id] == conn && !conn.broken
      requires forall i :: 0 <= i < |pend| ==> pend[i] in store.messages.Keys
      modifies this`log, store`messages, audit, conn
      ensures Valid() && Abs() == Flush(old(Abs()), conn.id, name, pend, written)
    {
      ghost var target := Flush(Abs(), conn.id, name, pend, written);
      var i, left := 0, written;
      assert pend[0..] == pend;
      while i < |pend|
        invariant 0 <= i <= |pend| && Valid() && !conn.broken
        invariant store.messages.Keys == old(store.messages.Keys)
        invariant Flush(Abs(), conn.id, name, pend[i..], left) == target
      {
        var ok := FlushOne(conn, name, pend, i, left);
        if !ok { return; }
        left := left - 1;
        i := i + 1;
      }
    }

    method FlushOne(conn: PeerConn, name: string, pend: seq<string>, i: nat, left: nat) returns (ok: bool)
      requires Valid() && conn.id in conns && conns[conn.id] == conn && !conn.broken
      requires i < |pend| && pend[i] in store.messages
      modifies this`log, store`messages, audit, conn
      ensures Valid() && (ok <==> left != 0) && conn.broken == !ok && store.messages.Keys == old(store.messages.Keys)
      ensures Flush(old(Abs()), conn.id, name, pend[i..], left)
           == if ok then Flush(Abs(), conn.id, name, pend[i + 1..], left - 1) else Abs()
    {
      FlushFirst(Abs(), conn.id, name, pend, i, left);
      ok := PushFrame(conn, name, pend[i], left != 0);
    }

    // ---------------------------------------------------------- handshakes

    method Enter() returns (pc: PeerConn)
      requires Valid()
      modifies this`conns, this`accepted
      ensures Valid() && fresh(pc) && pc.id == old(accepted) && conns == old(conns)[pc.id := pc]
      ensures pc.View() == NEW_LINK
      ensures Abs() == old(Abs()).(links := old(Links())[pc.id := NEW_LINK], accepted := old(accepted) + 1)
    {
      pc := new PeerConn(accepted);
      ghost var before := Links();
      assert forall c :: c in conns ==> conns[c] != pc;
      conns := conns[accepted := pc];
      accepted := accepted + 1;
      assert Links() == before[pc.id := NEW_LINK];
    }

    /** closeNormal on a connection that is not (or no longer) bound. */
    method Refuse(pc: PeerConn)
      requires Valid() && pc.id in conns && conns[pc.id] == pc && pc.View() == NEW_LINK
      modifies pc
      ensures Valid() && Abs() == old(Abs()).(links := old(Links())[pc.id := DEAD])
    {
      ghost var before := Links();
      pc.CloseNormal();
      assert forall c :: c in conns && c != pc.id ==> conns[c] != pc;
      LinksUpdate(before, pc);
    }

    method Claim(name: string, token: string, pc: PeerConn) returns (claimed: bool, takenOver: bool)
      requires Filed() && pc.id in conns && conns[pc.id] == pc && forall n :: n in registry.peers ==> registry.peers[n].conn != pc
      modifies registry, conns.Values
      ensures Filed() && pc.View() == old(pc.View())
      ensures claimed <==> name in old(registry.peers) && old(registry.peers)[name].token != token
      ensures takenOver <==> name in old(registry.peers) && !claimed
      ensures registry.peers == if claimed then old(registry.peers) else old(registry.peers)[name := Entry(pc, token)]
      ensures Links() == if claimed then old(Links()) else DisplacedLinks(old(Abs()), name)
    {
      ghost var before := Links();
      ghost var prior := if name in registry.peers then registry.peers[name].conn else pc;
      claimed, takenOver := registry.Bind(name, token, pc);
      if takenOver {
        LinksUpdate(before, prior);
      } else {
        LinksSame(before);
      }
    }

    method Unbind(name: string, pc: PeerConn)
      requires Valid() && pc.id in conns && conns[pc.id] == pc
      modifies registry
      ensures Valid() && Abs() == old(Abs()).(registry := Removed(old(registry.Bindings()), name, pc.id))
      ensures forall n :: n in registry.peers ==> n in old(registry.peers) && registry.peers[n] == old(registry.peers)[n]
      ensures name in registry.peers ==> registry.peers[name].conn != pc
    {
      ghost var before := registry.Bindings();
      registry.Remove(name, pc);
      assert registry.Bindings() == Removed(before, name, pc.id);
    }

    /** The connection starts serving its name. */
    method Open(pc: PeerConn, name: string)
      requires Valid() && pc.id in conns && conns[pc.id] == pc && pc.View() == NEW_LINK
      modifies pc
      ensures Valid() && pc.name == name && !pc.broken
      ensures Abs() == old(Abs()).(links := old(Links())[pc.id :=
                Link(name, [], false, false, false, true, SettledFor(old(store.Contents()), name))])
    {
      ghost var before := Links();
      pc.name := name;
      pc.serving := true;
      pc.settled := SettledFor(store.Contents(), name);
      assert forall c :: c in conns && c != pc.id ==> conns[c] != pc;
      LinksUpdate(before, pc);
    }

    method Readmit(name: string)
      requires Valid() && name in store.peers
      modifies store`messages
      ensures Valid() && Abs() == old(Abs()).(tables := Requeued(old(store.Contents()), name))
    {
      var out, n := store.RequeueUnacked(name);
    }

    method Enrol(name: string)
      requires Valid() && name != ""
      modifies store`peers
      ensures Valid() && name in store.peers && Abs() == old(Abs()).(tables := Registered(old(store.Contents()), name))
    {
      var out := store.Register(name);
    }

    /** What is done once the name is bound: requeue, acknowledge, flush. */
    method Welcome(pc: PeerConn, name: string, token: string, ackOk: bool, written: nat, ghost b: State)
      requires Valid() && Safe(b) && name != "" && token in b.tokens
      requires pc.id == b.accepted && pc.id in conns && conns[pc.id] == pc && pc.View() == NEW_LINK
      requires name in registry.peers && registry.peers[name].conn == pc && name in store.peers
      requires Abs() == Bound(b, name, token)
      modifies this`log, store`messages, audit, registry, pc
      ensures Valid() && Abs() == WelcomeOutcome(b, name, token, ackOk, written)
    {
      Readmit(name);
      if ackOk {
        OpenAndFlush(pc, name, token, written, b);
      } else {
        Unbind(name, pc);
        Refuse(pc);
        BoundThenRefused(b, name, token);
      }
    }

    method OpenAndFlush(pc: PeerConn, name: string, token: string, written: nat, ghost b: State)
      requires Valid() && Safe(b) && name != "" && token in b.tokens && name in store.peers
      requires pc.id == b.accepted && pc.id in conns && conns[pc.id] == pc && pc.View() == NEW_LINK
      requires Abs() == Bound(b, name, token).(tables := Requeued(Bound(b, name, token).tables, name))
      modifies this`log, store`messages, audit, pc
      ensures Valid() && Abs() == WelcomeOutcome(b, name, token, true, written)
    {
      Open(pc, name);
      BoundThenOpened(b, name, token);
      WelcomedKeeps(b, name, token);
      FlushPending(pc, written);
    }

    /** Register, bind, then welcome: in this order. */
    method Admit(pc: PeerConn, name: string, token: string, ackOk: bool, written: nat, ghost b: State) returns (verdict: Verdict)
      requires Valid() && Safe(b) && name != "" && token in b.tokens && Abs() == Entered(b)
      requires pc.id == b.accepted && pc.id in conns && conns[pc.id] == pc && pc.View() == NEW_LINK
      modifies this`log, store, registry, audit, conns.Values
      ensures Valid()
      ensures verdict == if name in b.registry && b.registry[name].token != token then NameClaimed
                         else if !ackOk then AckFailed else Admitted(name in b.registry)
      ensures Abs() == if verdict == NameClaimed then Turned(b, name) else WelcomeOutcome(b, name, token, ackOk, written)
    {
      Enrol(name);
      NewIsUnbound(pc, b);
      var claimed, takenOver := TakeName(pc, name, token, b);
      if claimed {
        verdict := NameClaimed;
      } else {
        Welcome(pc, name, token, ackOk, written, b);
        verdict := if ackOk then Admitted(takenOver) else AckFailed;
      }
    }

    lemma BindingsAfter(before: map<string, Binding>, name: string, token: string, pc: PeerConn)
      requires name in registry.peers && registry.peers[name] == Entry(pc, token)
      requires registry.peers.Keys == before.Keys + {name}
      requires forall n :: n in before && n != name ==> before[n] == Binding(registry.peers[n].conn.id, registry.peers[n].token)
      ensures registry.Bindings() == before[name := Binding(pc.id, token)]
    {
    }

    /** Bind, or refuse a name held under another token. */
    method TakeName(pc: PeerConn, name: string, token: string, ghost b: State) returns (claimed: bool, takenOver: bool)
      requires Valid() && Safe(b) && Abs() == Entered(b).(tables := Registered(b.tables, name))
      requires pc.id == b.accepted && pc.id in conns && conns[pc.id] == pc && pc.View() == NEW_LINK
      requires forall n :: n in registry.peers ==> registry.peers[n].conn != pc
      requires registry.peers.Keys == b.registry.Keys
      requires forall n :: n in registry.peers ==> b.registry[n] == Binding(registry.peers[n].conn.id, registry.peers[n].token)
      modifies registry, conns.Values
      ensures Valid()
      ensures claimed <==> name in b.registry && b.registry[name].token != token
      ensures takenOver <==> name in b.registry && !claimed
      ensures claimed ==> Abs() == Turned(b, name)
      ensures !claimed ==> Abs() == Bound(b, name, token) && name in registry.peers && registry.peers[name].conn == pc
      ensures !claimed ==> pc.View() == NEW_LINK
    {
      claimed, takenOver := Claim(name, token, pc);
      assert Audited() && !store.closed;
      if claimed {
        Refuse(pc);
        EnteredThenDead(b);
      } else {
        BindingsAfter(b.registry, name, token, pc);
        BoundIs(b, name, token);
      }
    }

    lemma NewIsUnbound(pc: PeerConn, b: State)
      requires Safe(b) && pc.id == b.accepted && registry.Bindings() == b.registry
      ensures forall n :: n in registry.peers ==> registry.peers[n].conn != pc
      ensures registry.peers.Keys == b.registry.Keys
      ensures forall n :: n in registry.peers ==> b.registry[n] == Binding(registry.peers[n].conn.id, registry.peers[n].token)
    {
      forall n | n in registry.peers
        ensures registry.peers[n].conn != pc && b.registry[n] == Binding(registry.peers[n].conn.id, registry.peers[n].token)
      {
        assert registry.Bindings()[n] == b.registry[n];
        assert b.registry[n].conn in b.links;
      }
      assert registry.peers.Keys == registry.Bindings().Keys;
    }

    method Handshake(hello: Hello, ackOk: bool, written: nat) returns (verdict: Verdict)
      requires Valid() && Safe(Abs())
      modifies this, store, registry, audit, conns.Values
      ensures Valid() && verdict == Judge(old(Abs()), hello, ackOk)
      ensures Abs() == Broker.Handshake(old(Abs()), hello, ackOk, written)
    {
      ghost var b := Abs();
      var pc := Enter();
      verdict := Screen(tokens, hello);
      if !verdict.Admitted? {
        Refuse(pc);
        EnteredThenDead(b);
      } else {
        verdict := Admit(pc, hello.name, hello.token, ackOk, written, b);
      }
      HandshakeIs(b, hello, ackOk, written, verdict, Abs());
    }

    /** The serve loop of a connection ends: it is closed, then removed from the registry. */
    method Hangup(pc: PeerConn)
      requires Valid() && pc.id in conns && conns[pc.id] == pc && pc.serving
      modifies pc
      ensures Valid() && Abs() == Apply(old(Abs()), Broker.Hangup(pc.id))
    {
      ghost var before := Links();
      pc.CloseNormal();
      assert forall c :: c in conns && c != pc.id ==> conns[c] != pc;
      LinksUpdate(before, pc);
    }

    method StopServing(pc: PeerConn)
      requires Valid() && pc.id in conns && conns[pc.id] == pc
      modifies pc
      ensures Valid() && Abs() == old(Abs()).(links := old(Links())[pc.id := old(pc.View()).(serving := false)])
    {
      ghost var before := Links();
      pc.serving := false;
      assert forall c :: c in conns && c != pc.id ==> conns[c] != pc;
      LinksUpdate(before, pc);
    }

    method Leave(pc: PeerConn)
      requires Valid() && pc.id in conns && conns[pc.id] == pc && pc.serving && pc.closed
      modifies pc, registry
      ensures Valid() && Abs() == Apply(old(Abs()), Broker.Leave(pc.id))
    {
      assert Links()[pc.id] == pc.View();
      Unbind(pc.name, pc);
      StopServing(pc);
    }
  }

  /** The stages of a handshake: connection accepted; name bound; acknowledgement lost. */
  ghost function Entered(b: State): State {
    b.(links := b.links[b.accepted := NEW_LINK], accepted := b.accepted + 1)
  }

  ghost function Bound(b: State, name: string, token: string): State {
    var e := Entered(b);
    e.(tables := Registered(b.tables, name), registry := b.registry[name := Binding(b.accepted, token)],
       links := DisplacedLinks(e, name))
  }

  ghost function Unacknowledged(b: State, name: string, token: string): State {
    var w := Welcomed(b, name, token);
    w.(registry := w.registry - {name}, links := w.links[b.accepted := DEAD])
  }

  ghost function Turned(b: State, name: string): State {
    b.(links := b.links[b.accepted := DEAD], accepted := b.accepted + 1, tables := Registered(b.tables, name))
  }

  ghost function WelcomeOutcome(b: State, name: string, token: string, ackOk: bool, written: nat): State {
    if ackOk then Flush(Welcomed(b, name, token), b.accepted, name, Drain(Welcomed(b, name, token).tables, name), written)
    else Unacknowledged(b, name, token)
  }

  lemma EnteredThenDead(b: State)
    ensures var e := Entered(b);
      e.links[b.accepted := DEAD] == b.links[b.accepted := DEAD]
      && e.(links := e.links[b.accepted := DEAD]) == b.(links := b.links[b.accepted := DEAD], accepted := b.accepted + 1)
  {
  }

  lemma BoundIs(b: State, name: string, token: string)
    ensures var e := Entered(b).(tables := Registered(b.tables, name));
      e.(registry := b.registry[name := Binding(b.accepted, token)], links := DisplacedLinks(e, name)) == Bound(b, name, token)
  {
  }

  lemma BoundThenOpened(b: State, name: string, token: string)
    requires Safe(b)
    ensures var o := Bound(b, name, token); var t := Requeued(o.tables, name);
      o.(tables := t, links := o.links[b.accepted := Link(name, [], false, false, false, true, SettledFor(t, name))])
      == Welcomed(b, name, token)
  {
  }

  lemma BoundThenRefused(b: State, name: string, token: string)
    requires Safe(b)
    ensures var o := Bound(b, name, token);
      o.(tables := Requeued(o.tables, name), registry := Removed(o.registry, name, b.accepted),
         links := o.links[b.accepted := DEAD])
      == Unacknowledged(b, name, token)
  {
  }

  /** The stages add up to the handshake of the state machine. */
  lemma HandshakeIs(b: State, hello: Hello, ackOk: bool, written: nat, verdict: Verdict, r: State)
    requires !Screen(b.tokens, hello).Admitted? ==>
      verdict == Screen(b.tokens, hello) && r == b.(links := b.links[b.accepted := DEAD], accepted := b.accepted + 1)
    requires Screen(b.tokens, hello).Admitted? ==>
      && verdict == (if hello.name in b.registry && b.registry[hello.name].token != hello.token then NameClaimed
                     else if !ackOk then AckFailed else Admitted(hello.name in b.registry))
      && r == if verdict == NameClaimed then Turned(b, hello.name)
              else WelcomeOutcome(b, hello.name, hello.token, ackOk, written)
    ensures verdict == Judge(b, hello, ackOk) && r == Broker.Handshake(b, hello, ackOk, written)
  {
  }

  const NEW_LINK := Link("", [], false, false, false, false, {})

  ghost function DisplacedLinks(b: State, name: string): map<nat, Link> {
    if name in b.registry && b.registry[name].conn in b.links
    then b.links[b.registry[name].conn := Displaced(b.links[b.registry[name].conn])]
    else b.links
  }

  lemma FanOutFirst(b: State, from: string, env: Envelope, names: seq<string>, i: nat, up: set<string>)
    requires i < |names|
    ensures FanOut(b, from, env, names[i..], up)
         == if names[i] == from then FanOut(b, from, env, names[i + 1..], up)
            else FanOut(Submit(b, CopyKey(env.id, names[i]), from, names[i], env, names[i] in up), from, env, names[i + 1..], up)
  {
  }

  lemma FlushFirst(b: State, c: nat, to: string, keys: seq<string>, i: nat, written: nat)
    requires i < |keys|
    ensures Flush(b, c, to, keys[i..], written)
         == if written == 0 then Push(b, c, to, keys[i], false)
            else Flush(Push(b, c, to, keys[i], true), c, to, keys[i + 1..], written - 1)
  {
  }
}
