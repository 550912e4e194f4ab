/** What every broker step keeps, and what follows for whole runs. */
module BrokerSafety {
  import opened Envelopes
  import opened Order
  import opened Store
  import opened Broker

  // ------------------------------------------------------------ one connection

  ghost predicate SentBefore(sent: seq<Delivery>, k: string, n: nat) {
    exists i :: 0 <= i < n && i < |sent| && sent[i].key == k
  }

  /** Every frame carries the envelope of a row addressed to this peer that was not yet
      settled at the handshake. */
  ghost predicate Faithful(m: map<string, Row>, l: Link) {
    forall i | 0 <= i < |l.sent| ::
      && l.sent[i].key in m && m[l.sent[i].key].to == l.name
      && m[l.sent[i].key].envelope == l.sent[i].envelope && l.sent[i].key !in l.settled
  }

  /** Frames of one sender leave in the order the sender's messages were accepted. */
  ghost predicate Fifo(m: map<string, Row>, l: Link)
    requires Faithful(m, l)
  {
    forall i, j | 0 <= i < j < |l.sent| && m[l.sent[i].key].from == m[l.sent[j].key].from ::
      m[l.sent[i].key].number < m[l.sent[j].key].number
  }

  /** k is due on l before any frame for row r: same sender, same recipient, smaller number. */
  predicate Precedes(m: map<string, Row>, k: string, l: Link, r: Row) {
    k in m && m[k].to == l.name && m[k].from == r.from && m[k].number < r.number && k !in l.settled
  }

  /** No frame overtakes an unsettled earlier message of its sender. */
  ghost predicate GapFree(m: map<string, Row>, l: Link)
    requires Faithful(m, l)
  {
    forall j, k | 0 <= j < |l.sent| && Precedes(m, k, l, m[l.sent[j].key]) :: SentBefore(l.sent, k, j)
  }

  ghost predicate SettledRows(m: map<string, Row>, l: Link) {
    forall k | k in l.settled :: k in m && m[k].to == l.name && Settled(m[k])
  }

  ghost predicate Ordered(m: map<string, Row>, l: Link) {
    Faithful(m, l) && Fifo(m, l) && GapFree(m, l) && SettledRows(m, l)
  }

  /** Everything addressed to this peer has been written here or was settled before. */
  ghost predicate Complete(m: map<string, Row>, l: Link) {
    forall k | k in m && m[k].to == l.name :: k in l.settled || SentBefore(l.sent, k, |l.sent|)
  }

  /** Delivery marks do not disturb what a connection has carried. */
  lemma MarksKeepLink(m: map<string, Row>, n: map<string, Row>, l: Link)
    requires m.Keys == n.Keys && (forall k | k in m :: RowEvolves(m[k], n[k]))
    ensures Ordered(m, l) ==> Ordered(n, l)
    ensures Complete(m, l) ==> Complete(n, l)
  {
  }

  /** A newly accepted message, numbered after its sender's earlier ones, disturbs nothing. */
  lemma GrowthKeepsLink(m: map<string, Row>, k: string, row: Row, l: Link)
    requires Ordered(m, l) && k !in m
    requires forall j | j in m && m[j].from == row.from :: m[j].number < row.number
    ensures Ordered(m[k := row], l)
    ensures Complete(m, l) && row.to != l.name ==> Complete(m[k := row], l)
  {
  }

  /** Writing a row whose predecessors have all been written keeps the connection in order. */
  lemma PushKeepsLink(m: map<string, Row>, l: Link, k: string)
    requires Ordered(m, l) && k in m && m[k].to == l.name && k !in l.settled
    requires forall i | 0 <= i < |l.sent| && m[l.sent[i].key].from == m[k].from :: m[l.sent[i].key].number < m[k].number
    requires forall j | Precedes(m, j, l, m[k]) :: SentBefore(l.sent, j, |l.sent|)
    ensures Ordered(m, l.(sent := l.sent + [Delivery(k, m[k].envelope)]))
  {
    var l' := l.(sent := l.sent + [Delivery(k, m[k].envelope)]);
    assert forall i | 0 <= i < |l.sent| :: l'.sent[i] == l.sent[i];
    assert Faithful(m, l') && Fifo(m, l') && SettledRows(m, l');
    forall j, x | 0 <= j < |l'.sent| && Precedes(m, x, l', m[l'.sent[j].key]) ensures SentBefore(l'.sent, x, j) {
      assert Precedes(m, x, l, m[l'.sent[j].key]);
      assert SentBefore(l.sent, x, j);
      var i :| 0 <= i < j && i < |l.sent| && l.sent[i].key == x;
      assert l'.sent[i].key == x;
    }
  }

  // ------------------------------------------------------------ the broker invariant

  /** Every bound name is a known peer, held under a valid token by its own live connection. */
  ghost predicate RegistryOk(b: State) {
    forall n | n in b.registry ::
      && n != "" && n in b.tables.peers && b.registry[n].token in b.tokens
      && b.registry[n].conn in b.links && b.links[b.registry[n].conn].name == n
      && b.links[b.registry[n].conn].serving && !b.links[b.registry[n].conn].takeover
  }

  ghost predicate LinksOk(b: State) {
    forall c | c in b.links :: c < b.accepted && Ordered(b.tables.messages, b.links[c])
  }

  /** What was settled at one handshake of a name is settled at every later one. */
  ghost predicate Generations(b: State) {
    forall c, d | c in b.links && d in b.links && c < d && b.links[c].name == b.links[d].name != "" ::
      b.links[c].settled <= b.links[d].settled
  }

  /** A writable bound connection is up to date, except possibly connection x. */
  ghost predicate UpToDate(b: State, x: nat) {
    forall n | n in b.registry && b.registry[n].conn in b.links && b.registry[n].conn != x
               && !b.links[b.registry[n].conn].broken ::
      Complete(b.tables.messages, b.links[b.registry[n].conn])
  }

  ghost predicate SafeBut(b: State, x: nat) {
    Numbered(b.tables) && RegistryOk(b) && LinksOk(b) && Generations(b) && UpToDate(b, x)
  }

  ghost predicate Safe(b: State) {
    SafeBut(b, b.accepted)
  }

  lemma TablesKeep(b: State, t: Tables, x: nat)
    requires SafeBut(b, x) && SameQueue(b.tables, t) && Evolves(b.tables, t)
    ensures SafeBut(b.(tables := t), x)
  {
    SameQueueNumbered(b.tables, t);
    forall c | c in b.links
      ensures Ordered(t.messages, b.links[c])
      ensures Complete(b.tables.messages, b.links[c]) ==> Complete(t.messages, b.links[c])
    {
      MarksKeepLink(b.tables.messages, t.messages, b.links[c]);
    }
  }

  /** The next frame that may be written to connection c. */
  ghost predicate Due(b: State, c: nat, key: string)
    requires c in b.links && Ordered(b.tables.messages, b.links[c])
  {
    var m, l := b.tables.messages, b.links[c];
    && key in m && m[key].to == l.name && key !in l.settled
    && (forall i | 0 <= i < |l.sent| && m[l.sent[i].key].from == m[key].from ::
          m[l.sent[i].key].number < m[key].number)
    && (forall j | Precedes(m, j, l, m[key]) :: SentBefore(l.sent, j, |l.sent|))
  }

  lemma LinkKeeps(b: State, c: nat, l: Link)
    requires SafeBut(b, c) && c in b.links && Ordered(b.tables.messages, l)
    requires l.name == b.links[c].name && l.settled == b.links[c].settled
    requires l.serving == b.links[c].serving && l.takeover == b.links[c].takeover
    ensures SafeBut(b.(links := b.links[c := l]), c)
  {
  }

  lemma PushKeeps(b: State, c: nat, to: string, key: string, ok: bool)
    requires SafeBut(b, c) && c in b.links && Due(b, c, key)
    ensures SafeBut(Push(b, c, to, key, ok), c)
  {
    var l := b.links[c];
    var m := b.tables.messages;
    if ok && !l.broken {
      var l' := l.(sent := l.sent + [Delivery(key, m[key].envelope)]);
      PushKeepsLink(m, l, key);
      LinkKeeps(b, c, l');
      MarksKeep(b.tables, MarkDelivered(key));
      TablesKeep(b.(links := b.links[c := l']), MarkedDelivered(b.tables, key), c);
    } else {
      var l' := l.(broken := true);
      assert Ordered(m, l');
      LinkKeeps(b, c, l');
    }
  }

  lemma BreakKeeps(b: State, c: nat, x: nat)
    requires SafeBut(b, x) && c in b.links
    requires x == c || x == b.accepted
    ensures SafeBut(b.(links := b.links[c := b.links[c].(broken := true)]), b.accepted)
  {
    var l := b.links[c].(broken := true);
    assert Ordered(b.tables.messages, l);
    LinkKeeps(b, c, l);
  }

  lemma EnqueueKeeps(b: State, key: string, from: string, to: string, env: Envelope, log: seq<Event>)
    requires Safe(b) && EnqueueOutcome(b.tables, key, from, to) == Done
    ensures SafeBut(b.(tables := Enqueued(b.tables, key, from, to, env), log := log),
                    if to in b.registry then b.registry[to].conn else b.accepted)
  {
    var t := Enqueued(b.tables, key, from, to, env);
    var m, row := b.tables.messages, t.messages[key];
    EnqueuedNumbered(b.tables, key, from, to, env);
    forall c | c in b.links
      ensures Ordered(t.messages, b.links[c])
      ensures Complete(m, b.links[c]) && to != b.links[c].name ==> Complete(t.messages, b.links[c])
    {
      GrowthKeepsLink(m, key, row, b.links[c]);
    }
  }

  /** Pushing the message just accepted to its bound recipient restores the invariant. */
  lemma DeliverLatestKeeps(b: State, b1: State, c: nat, key: string, to: string, ok: bool)
    requires SafeBut(b1, c) && c in b.links && b1.links == b.links && b1.registry == b.registry
    requires to in b.registry && b.registry[to].conn == c && !b.links[c].broken
    requires Ordered(b.tables.messages, b.links[c]) && Complete(b.tables.messages, b.links[c])
    requires key !in b.tables.messages && key in b1.tables.messages && b1.tables.messages[key].to == to
    requires b1.tables.messages == b.tables.messages[key := b1.tables.messages[key]]
    requires forall j | j in b.tables.messages && b.tables.messages[j].from == b1.tables.messages[key].from ::
               b.tables.messages[j].number < b1.tables.messages[key].number
    ensures Safe(Push(b1, c, to, key, ok))
  {
    if ok {
      PushFresh(b.tables.messages, key, b1.tables.messages[key], b.links[c]);
      PushKeeps(b1, c, to, key, true);
      LatestIsComplete(b, b1, c, to, key);
    } else {
      BreakKeeps(b1, c, c);
    }
  }

  /** Accepting a message and pushing it to its bound recipient keeps the invariant. */
  lemma SubmitKeeps(b: State, key: string, from: string, to: string, env: Envelope, ok: bool)
    requires Safe(b)
    ensures Safe(Submit(b, key, from, to, env, ok))
  {
    if EnqueueOutcome(b.tables, key, from, to) == Done {
      var log := b.log + [SendEvent(key, from, to)];
      var b1 := b.(tables := Enqueued(b.tables, key, from, to, env), log := log);
      EnqueueKeeps(b, key, from, to, env, log);
      if to in b.registry {
        var c := b.registry[to].conn;
        if b.links[c].broken {
          BreakKeeps(b1, c, c);
        } else {
          DeliverLatestKeeps(b, b1, c, key, to, ok);
        }
      }
    }
  }

  /** On an up-to-date connection the message just accepted is the next one due. */
  lemma PushFresh(m: map<string, Row>, key: string, row: Row, l: Link)
    requires Ordered(m, l) && Complete(m, l) && key !in m && row.to == l.name
    requires forall j | j in m && m[j].from == row.from :: m[j].number < row.number
    ensures forall i | 0 <= i < |l.sent| && m[l.sent[i].key].from == row.from :: m[l.sent[i].key].number < row.number
    ensures forall j | Precedes(m[key := row], j, l, row) :: SentBefore(l.sent, j, |l.sent|)
    ensures key !in l.settled
  {
  }

  lemma LatestIsComplete(b: State, b1: State, c: nat, to: string, key: string)
    requires c in b.links && b1.links == b.links && !b.links[c].broken
    requires Complete(b.tables.messages, b.links[c]) && key in b1.tables.messages
    requires b1.tables.messages.Keys == b.tables.messages.Keys + {key}
    requires forall k | k in b.tables.messages && k != key :: b1.tables.messages[k] == b.tables.messages[k]
    requires key !in b.tables.messages
    ensures Complete(Push(b1, c, to, key, true).tables.messages, Push(b1, c, to, key, true).links[c])
  {
    var b2 := Push(b1, c, to, key, true);
    var l, l' := b.links[c], b2.links[c];
    forall k | k in b2.tables.messages && b2.tables.messages[k].to == l'.name
      ensures k in l'.settled || SentBefore(l'.sent, k, |l'.sent|)
    {
      if k == key {
        assert l'.sent[|l.sent|].key == key;
      } else if k !in l.settled {
        assert k in b.tables.messages && b.tables.messages[k].to == l.name;
        assert SentBefore(l.sent, k, |l.sent|);
        var i :| 0 <= i < |l.sent| && l.sent[i].key == k;
        assert l'.sent[i].key == k;
      }
    }
  }

  // ------------------------------------------------------------ flushing

  /** keys is what the connection still has to be given: every unwritten, unsettled row of its
      peer, each sender's in order and after everything already written. */
  ghost predicate Remaining(m: map<string, Row>, l: Link, keys: seq<string>)
    requires Ordered(m, l)
  {
    && (forall i | 0 <= i < |keys| :: keys[i] in m && m[keys[i]].to == l.name && keys[i] !in l.settled)
    && (forall i, j | 0 <= i < j < |keys| && m[keys[i]].from == m[keys[j]].from ::
          m[keys[i]].number < m[keys[j]].number)
    && (forall i, j | 0 <= i < |l.sent| && 0 <= j < |keys| && m[l.sent[i].key].from == m[keys[j]].from ::
          m[l.sent[i].key].number < m[keys[j]].number)
    && (forall k | k in m && m[k].to == l.name && k !in l.settled ::
          SentBefore(l.sent, k, |l.sent|) || k in keys)
  }

  lemma RemainingFirstIsDue(b: State, c: nat, keys: seq<string>)
    requires c in b.links && Ordered(b.tables.messages, b.links[c])
    requires Remaining(b.tables.messages, b.links[c], keys) && keys != []
    ensures Due(b, c, keys[0])
  {
  }

  lemma RemainingMarks(m: map<string, Row>, n: map<string, Row>, l: Link, keys: seq<string>)
    requires Ordered(m, l) && Remaining(m, l, keys) && Ordered(n, l)
    requires m.Keys == n.Keys && forall k | k in m :: SameMessage(m[k], n[k])
    ensures Remaining(n, l, keys)
  {
  }

  lemma RemainingShift(m: map<string, Row>, l: Link, l': Link, keys: seq<string>)
    requires Ordered(m, l) && Ordered(m, l') && Remaining(m, l, keys) && keys != []
    requires l'.name == l.name && l'.settled == l.settled
    requires l'.sent == l.sent + [Delivery(keys[0], m[keys[0]].envelope)]
    ensures Remaining(m, l', keys[1..])
  {
    var rest := keys[1..];
    assert forall i | 0 <= i < |rest| :: rest[i] == keys[i + 1];
    assert forall i | 0 <= i < |l.sent| :: l'.sent[i] == l.sent[i];
    forall k | k in m && m[k].to == l.name && k !in l.settled
      ensures SentBefore(l'.sent, k, |l'.sent|) || k in rest
    {
      SentGrows(l.sent, l'.sent, k);
      assert k in keys ==> k == keys[0] || k in rest;
    }
  }

  lemma SentGrows(sent: seq<Delivery>, sent': seq<Delivery>, k: string)
    requires |sent'| == |sent| + 1 && sent'[..|sent|] == sent
    ensures SentBefore(sent, k, |sent|) ==> SentBefore(sent', k, |sent'|)
    ensures sent'[|sent|].key == k ==> SentBefore(sent', k, |sent'|)
  {
  }

  /** A flush under way on connection c: all is safe but that c still has keys to be given. */
  ghost predicate Flushing(b: State, c: nat, keys: seq<string>) {
    SafeBut(b, c) && c in b.links && !b.links[c].broken && Remaining(b.tables.messages, b.links[c], keys)
  }

  lemma RemainingAdvances(b: State, c: nat, to: string, keys: seq<string>)
    requires Flushing(b, c, keys) && keys != []
    ensures Flushing(Push(b, c, to, keys[0], true), c, keys[1..])
  {
    RemainingFirstIsDue(b, c, keys);
    PushKeeps(b, c, to, keys[0], true);
    var m, l := b.tables.messages, b.links[c];
    var b' := Push(b, c, to, keys[0], true);
    PushKeepsLink(m, l, keys[0]);
    RemainingShift(m, l, b'.links[c], keys);
    MarksKeep(b.tables, MarkDelivered(keys[0]));
    RemainingMarks(m, b'.tables.messages, b'.links[c], keys[1..]);
  }

  /** A connection with nothing remaining is up to date. */
  lemma FlushedIsSafe(b: State, c: nat)
    requires Flushing(b, c, [])
    ensures Safe(b)
  {
  }

  lemma FailedFlushIsSafe(b: State, c: nat, to: string, keys: seq<string>)
    requires Flushing(b, c, keys) && keys != []
    ensures Safe(Push(b, c, to, keys[0], false))
  {
    BreakKeeps(b, c, c);
  }

  /** What every successful push keeps is there when a flush ends: either no key is left, or the
      next push failed. */
  lemma {:induction false} FlushEnds(inv: (State, seq<string>) -> bool, b: State, c: nat, to: string,
                                     keys: seq<string>, written: nat) returns (x: State, left: seq<string>)
    requires inv(b, keys)
    requires forall y, ks | inv(y, ks) && ks != [] :: inv(Push(y, c, to, ks[0], true), ks[1..])
    ensures inv(x, left)
    ensures Flush(b, c, to, keys, written) == if left == [] then x else Push(x, c, to, left[0], false)
    decreases |keys|
  {
    if keys == [] || written == 0 {
      x, left := b, keys;
    } else {
      x, left := FlushEnds(inv, Push(b, c, to, keys[0], true), c, to, keys[1..], written - 1);
    }
  }

  lemma FlushKeeps(b: State, c: nat, to: string, keys: seq<string>, written: nat)
    requires Flushing(b, c, keys)
    ensures Safe(Flush(b, c, to, keys, written))
  {
    var inv := (y: State, ks: seq<string>) => Flushing(y, c, ks);
    forall y, ks | inv(y, ks) && ks != [] ensures inv(Push(y, c, to, ks[0], true), ks[1..]) {
      RemainingAdvances(y, c, to, ks);
    }
    var x, left := FlushEnds(inv, b, c, to, keys, written);
    if left == [] {
      FlushedIsSafe(x, c);
    } else {
      FailedFlushIsSafe(x, c, to, left);
    }
  }

  // ------------------------------------------------------------ handshakes

  lemma DisplacedKeeps(b: State, c: nat)
    requires c in b.links && LinksOk(b) && Generations(b)
    ensures LinksOk(b.(links := b.links[c := Displaced(b.links[c])]))
    ensures Generations(b.(links := b.links[c := Displaced(b.links[c])]))
  {
    assert Ordered(b.tables.messages, Displaced(b.links[c]));
  }

  lemma ReadmitKeeps(b: State, name: string)
    requires Safe(b) && name != ""
    ensures Safe(b.(tables := Requeued(Registered(b.tables, name), name)))
  {
    var t1 := Registered(b.tables, name);
    MarksKeep(b.tables, Register(name));
    TablesKeep(b, t1, b.accepted);
    MarksKeep(t1, Requeue(name));
    TablesKeep(b.(tables := t1), Requeued(t1, name), b.accepted);
  }

  /** Right after the requeue, the drain is exactly what a new connection has to be given. */
  lemma DrainIsRemaining(t: Tables, name: string, l: Link)
    requires Numbered(t) && name in t.peers
    requires l == Link(name, [], false, false, false, true, SettledFor(Requeued(t, name), name))
    ensures Ordered(Requeued(t, name).messages, l)
    ensures Remaining(Requeued(t, name).messages, l, Drain(Requeued(t, name), name))
  {
    var u := Requeued(t, name);
    MarksKeep(t, Requeue(name));
    SameQueueNumbered(t, u);
    RequeuedSplits(t, name);
    DrainIsFifo(u, name);
    var m, q := u.messages, Drain(u, name);
    assert Ordered(m, l);
    forall i, j | 0 <= i < j < |q| && m[q[i]].from == m[q[j]].from ensures m[q[i]].number < m[q[j]].number {
      assert RowBefore(m[q[i]], m[q[j]]);
      StrLessIsStrictOrder(m[q[i]].from, "", "");
    }
    forall k | k in m && m[k].to == name && k !in l.settled ensures k in q {
      RequeuedKeeps(t, name);
      assert RowEvolves(t.messages[k], m[k]);
      assert k in Pending(u, name);
    }
  }

  lemma AdmittedLinksKeep(b: State, name: string, token: string)
    requires Safe(b) && name != "" && token in b.tokens && name in b.tables.peers
    requires b.tables == Requeued(b.tables, name)
    ensures SafeBut(Welcomed(b, name, token), b.accepted)
  {
    var w := Welcomed(b, name, token);
    assert w.tables == b.tables by {
      assert b.tables.peers + {name} == b.tables.peers;
    }
    var prior := if name in b.registry
      then b.(links := b.links[b.registry[name].conn := Displaced(b.links[b.registry[name].conn])]) else b;
    if name in b.registry {
      DisplacedKeeps(b, b.registry[name].conn);
    }
    NewLinkKeeps(prior, w, name);
    OthersUndisturbed(b, w, name, token);
  }

  /** Bindings of other names keep their connections as they were. */
  lemma OthersUndisturbed(b: State, w: State, name: string, token: string)
    requires Safe(b) && name != "" && token in b.tokens && name in b.tables.peers
    requires w == Welcomed(b, name, token) && w.tables == b.tables
    ensures RegistryOk(w) && UpToDate(w, b.accepted)
  {
    var c := b.accepted;
    forall n | n in w.registry && n != name
      ensures w.registry[n] == b.registry[n] && w.registry[n].conn in b.links
      ensures w.links[w.registry[n].conn] == b.links[b.registry[n].conn]
    {
      assert b.links[b.registry[n].conn].name == n;
    }
  }

  /** Registering and requeueing again changes nothing. */
  lemma ReadmitIdempotent(t: Tables, name: string)
    requires Numbered(t) && name != ""
    ensures var u := Requeued(Registered(t, name), name); Requeued(Registered(u, name), name) == u
  {
  }

  /** Binding a name, displacing its prior connection and requeueing leaves exactly the flush
      outstanding. */
  lemma WelcomedKeeps(b: State, name: string, token: string)
    requires Safe(b) && name != "" && token in b.tokens
    ensures SafeBut(Welcomed(b, name, token), b.accepted)
    ensures var w := Welcomed(b, name, token);
      Remaining(w.tables.messages, w.links[b.accepted], Drain(w.tables, name))
  {
    var t1 := Registered(b.tables, name);
    var b2 := b.(tables := Requeued(t1, name));
    ReadmitKeeps(b, name);
    ReadmitIdempotent(b.tables, name);
    assert b2.tables == Requeued(b2.tables, name);
    AdmittedLinksKeep(b2, name, token);
    assert Welcomed(b2, name, token) == Welcomed(b, name, token);
    MarksKeep(b.tables, Register(name));
    SameQueueNumbered(b.tables, t1);
    DrainIsRemaining(t1, name, Welcomed(b, name, token).links[b.accepted]);
  }

  lemma NewLinkKeeps(prior: State, w: State, name: string)
    requires LinksOk(prior) && Generations(prior)
    requires w.tables == prior.tables && w.accepted == prior.accepted + 1
    requires w.links == prior.links[prior.accepted := Link(name, [], false, false, false, true, SettledFor(prior.tables, name))]
    ensures LinksOk(w) && Generations(w)
  {
  }

  lemma RefusedKeeps(b: State)
    requires Safe(b)
    ensures Safe(b.(links := b.links[b.accepted := DEAD], accepted := b.accepted + 1))
  {
  }

  lemma AckFailedKeeps(w: State, name: string, c: nat)
    requires SafeBut(w, c) && name in w.registry && w.registry[name].conn == c && c < w.accepted
    ensures Safe(w.(registry := w.registry - {name}, links := w.links[c := DEAD]))
  {
  }

  lemma AdmittedKeeps(b: State, hello: Hello, written: nat)
    requires Safe(b) && hello.Frame? && hello.name != "" && hello.token in b.tokens
    ensures var w := Welcomed(b, hello.name, hello.token);
      Safe(Flush(w, b.accepted, hello.name, Drain(w.tables, hello.name), written))
  {
    WelcomedKeeps(b, hello.name, hello.token);
    var w := Welcomed(b, hello.name, hello.token);
    FlushKeeps(w, b.accepted, hello.name, Drain(w.tables, hello.name), written);
  }

  lemma UnacknowledgedKeeps(b: State, hello: Hello)
    requires Safe(b) && hello.Frame? && hello.name != "" && hello.token in b.tokens
    ensures var w := Welcomed(b, hello.name, hello.token);
      Safe(w.(registry := w.registry - {hello.name}, links := w.links[b.accepted := DEAD]))
  {
    WelcomedKeeps(b, hello.name, hello.token);
    AckFailedKeeps(Welcomed(b, hello.name, hello.token), hello.name, b.accepted);
  }

  lemma ClaimedKeeps(b: State, name: string)
    requires Safe(b)
    ensures Safe(b.(links := b.links[b.accepted := DEAD], accepted := b.accepted + 1, tables := Registered(b.tables, name)))
  {
    MarksKeep(b.tables, Register(name));
    TablesKeep(b, Registered(b.tables, name), b.accepted);
    RefusedKeeps(b.(tables := Registered(b.tables, name)));
  }

  lemma HandshakeKeeps(b: State, hello: Hello, ackOk: bool, written: nat)
    requires Safe(b)
    ensures Safe(Handshake(b, hello, ackOk, written))
  {
    match Judge(b, hello, ackOk)
    case Admitted(_) => AdmittedKeeps(b, hello, written);
    case AckFailed => UnacknowledgedKeeps(b, hello);
    case NameClaimed => ClaimedKeeps(b, hello.name);
    case _ => RefusedKeeps(b);
  }

  // ------------------------------------------------------------ routed frames and the rest

  lemma {:induction false} FanOutKeeps(b: State, from: string, env: Envelope, names: seq<string>, up: set<string>)
    requires Safe(b)
    ensures Safe(FanOut(b, from, env, names, up))
    decreases |names|
  {
    if names != [] {
      if names[0] == from {
        FanOutKeeps(b, from, env, names[1..], up);
      } else {
        SubmitKeeps(b, CopyKey(env.id, names[0]), from, names[0], env, names[0] in up);
        FanOutKeeps(Submit(b, CopyKey(env.id, names[0]), from, names[0], env, names[0] in up), from, env, names[1..], up);
      }
    }
  }

  lemma RouteFrameKeeps(b: State, from: string, frame: Frame, up: set<string>)
    requires Safe(b)
    ensures Safe(RouteFrame(b, from, frame, up))
  {
    match frame
    case AckFrame(id) =>
      MarksKeep(b.tables, MarkAcked(id));
      TablesKeep(b, MarkedAcked(b.tables, id), b.accepted);
    case EnvelopeFrame(env) =>
      if env.to == "*" {
        FanOutKeeps(b, from, env, Sorted(StrLess, b.registry.Keys), up);
      } else {
        SubmitKeeps(b, env.id, from, env.to, env, env.to in up);
      }
    case _ =>
  }

  lemma LinksKeep(b: State, c: nat, l: Link)
    requires LinksOk(b) && Generations(b) && c in b.links && Ordered(b.tables.messages, l)
    requires l.name == b.links[c].name && l.settled == b.links[c].settled
    ensures LinksOk(b.(links := b.links[c := l])) && Generations(b.(links := b.links[c := l]))
  {
  }

  lemma CloseKeeps(b: State, c: nat)
    requires Safe(b) && c in b.links
    ensures Safe(b.(links := b.links[c := b.links[c].(closed := true, broken := true)]))
  {
    var l := b.links[c].(closed := true, broken := true);
    assert Ordered(b.tables.messages, l);
    LinksKeep(b, c, l);
  }

  lemma UnbindKeeps(b: State, name: string)
    requires Safe(b)
    ensures Safe(b.(registry := b.registry - {name}))
  {
  }

  lemma RetireKeeps(b: State, c: nat)
    requires Safe(b) && c in b.links && (forall n | n in b.registry :: b.registry[n].conn != c)
    ensures Safe(b.(links := b.links[c := b.links[c].(serving := false)]))
  {
    var l := b.links[c].(serving := false);
    assert Ordered(b.tables.messages, l);
    LinksKeep(b, c, l);
  }

  lemma LeaveKeeps(b: State, c: nat)
    requires Safe(b) && c in b.links
    ensures Safe(b.(links := b.links[c := b.links[c].(serving := false)],
                    registry := Removed(b.registry, b.links[c].name, c)))
  {
    var name := b.links[c].name;
    if name in b.registry && b.registry[name].conn == c {
      UnbindKeeps(b, name);
      var b1 := b.(registry := b.registry - {name});
      assert forall n | n in b1.registry :: b.links[b.registry[n].conn].name == n;
      RetireKeeps(b1, c);
    } else {
      assert forall n | n in b.registry :: b.links[b.registry[n].conn].name == n;
      RetireKeeps(b, c);
    }
  }

  lemma RestartKeeps(b: State)
    requires Safe(b)
    ensures Safe(Apply(b, Restart))
  {
    var b' := Apply(b, Restart);
    forall c | c in b'.links ensures Ordered(b'.tables.messages, b'.links[c]) {
      assert Ordered(b.tables.messages, b.links[c]);
    }
  }

  /** Every broker step keeps the invariant. */
  lemma ApplySafe(b: State, op: Op)
    requires Safe(b)
    ensures Safe(Apply(b, op))
  {
    match op
    case Accept(hello, ackOk, written) => HandshakeKeeps(b, hello, ackOk, written);
    case Route(c, frame, up) =>
      if c in b.links && b.links[c].serving {
        RouteFrameKeeps(b, b.links[c].name, frame, up);
      }
    case Restart => RestartKeeps(b);
    case Break(c) => if c in b.links { BreakKeeps(b, c, b.accepted); }
    case Hangup(c) => if c in b.links { CloseKeeps(b, c); }
    case Leave(c) => if c in b.links { LeaveKeeps(b, c); }
  }

  lemma {:induction false} RunSafe(b: State, ops: seq<Op>)
    requires Safe(b)
    ensures Safe(Run(b, ops))
    decreases |ops|
  {
    if ops != [] {
      ApplySafe(b, ops[0]);
      RunSafe(Apply(b, ops[0]), ops[1..]);
    }
  }

  /** Per-sender order on every connection of every run: frames leave in acceptance order, and
      none overtakes an earlier message of its sender that was still outstanding. */
  lemma EveryRunIsFifo(tokens: set<string>, ops: seq<Op>, c: nat)
    requires c in Run(Initial(tokens), ops).links
    ensures var b := Run(Initial(tokens), ops); var m, l := b.tables.messages, b.links[c];
      && Faithful(m, l) && Fifo(m, l) && GapFree(m, l)
  {
    RunSafe(Initial(tokens), ops);
  }
}
