/** The adapter's receiving side: filtering frames, surfacing through dedupe, and the buffer a
    host drains. */
module Adapter {
  import opened Options
  import opened Envelopes
  import opened Recency
  import opened Dedupe
  import opened Redelivery
  import Hmac
  import Bus
  import Broker

  // ------------------------------------------------------------ the host's buffer

  datatype Inbound = Inbound(id: string, from: string, source: string, body: string)

  function ToInbound(e: Envelope): Inbound { Inbound(e.id, e.from, e.source, e.body) }

  /** The buffer between consumption and the host: what is pending and the batches handed out. */
  datatype Buffer = Buffer(pending: seq<Inbound>, batches: seq<seq<Inbound>>)

  datatype HostStep = Handle(m: Inbound) | Drain

  function HostApply(b: Buffer, s: HostStep): Buffer {
    match s
    case Handle(m) => b.(pending := b.pending + [m])
    case Drain => Buffer([], b.batches + [b.pending])
  }

  function HostRun(b: Buffer, steps: seq<HostStep>): Buffer
    decreases |steps|
  {
    if steps == [] then b else HostApply(HostRun(b, steps[..|steps| - 1]), steps[|steps| - 1])
  }

  function Flatten(batches: seq<seq<Inbound>>): seq<Inbound>
    decreases |batches|
  {
    if batches == [] then [] else Flatten(batches[..|batches| - 1]) + batches[|batches| - 1]
  }

  function HandledIn(steps: seq<HostStep>): seq<Inbound>
    decreases |steps|
  {
    if steps == [] then []
    else
      var past := HandledIn(steps[..|steps| - 1]);
      if steps[|steps| - 1].Handle? then past + [steps[|steps| - 1].m] else past
  }

  /** The host has been given exactly these envelopes, in this order: id, sender, source and body
      of each. */
  ghost predicate Gives(q: seq<Inbound>, given: seq<Envelope>) {
    |q| == |given| && forall i | 0 <= i < |q| ::
      q[i].id == given[i].id && q[i].from == given[i].from && q[i].source == given[i].source && q[i].body == given[i].body
  }

  ghost predicate IdsAre(given: seq<Envelope>, ids: seq<string>) {
    |given| == |ids| && forall i | 0 <= i < |given| :: given[i].id == ids[i]
  }

  /** What was drained and what is pending is what was consumed. */
  ghost predicate Accounted(b: Buffer, given: seq<Envelope>, wins: seq<string>) {
    Gives(Flatten(b.batches) + b.pending, given) && IdsAre(given, wins)
  }

  lemma HandleAccounts(b: Buffer, e: Envelope, given: seq<Envelope>, wins: seq<string>)
    requires Accounted(b, given, wins)
    ensures Accounted(HostApply(b, HostStep.Handle(ToInbound(e))), given + [e], wins + [e.id])
  {
    assert Flatten(b.batches) + (b.pending + [ToInbound(e)]) == Flatten(b.batches) + b.pending + [ToInbound(e)];
  }

  lemma DrainAccounts(b: Buffer, given: seq<Envelope>, wins: seq<string>)
    requires Accounted(b, given, wins)
    ensures Accounted(HostApply(b, HostStep.Drain), given, wins)
    ensures |b.pending| <= |given| && Gives(b.pending, given[|given| - |b.pending|..])
  {
    var all := Flatten(b.batches) + b.pending;
    assert (b.batches + [b.pending])[..|b.batches|] == b.batches;
    assert Flatten(b.batches + [b.pending]) + [] == all;
    GivesTail(Flatten(b.batches), b.pending, given);
  }

  lemma GivesTail(before: seq<Inbound>, q: seq<Inbound>, given: seq<Envelope>)
    requires Gives(before + q, given)
    ensures |q| <= |given| && Gives(q, given[|given| - |q|..])
  {
    var all, last := before + q, given[|before|..];
    forall i | 0 <= i < |q|
      ensures q[i].id == last[i].id && q[i].from == last[i].from && q[i].source == last[i].source && q[i].body == last[i].body
    {
      assert q[i] == all[|before| + i] && last[i] == given[|before| + i];
    }
  }

  /** However consuming and draining interleave, every consumed message reaches the host in
      exactly one batch or is still pending, in the order consumed. */
  lemma {:induction false} DrainConserves(steps: seq<HostStep>)
    ensures var b := HostRun(Buffer([], []), steps); Flatten(b.batches) + b.pending == HandledIn(steps)
    decreases |steps|
  {
    if steps != [] {
      var past := steps[..|steps| - 1];
      DrainConserves(past);
      var b := HostRun(Buffer([], []), past);
      assert (b.batches + [b.pending])[..|b.batches|] == b.batches;
    }
  }

  class GenericBus {
    var pending: seq<Inbound>
    ghost var batches: seq<seq<Inbound>>

    ghost function View(): Buffer
      reads this
    {
      Buffer(pending, batches)
    }

    constructor ()
      ensures View() == Buffer([], [])
    {
      pending, batches := [], [];
    }

    method Handle(e: Envelope)
      modifies this
      ensures View() == HostApply(old(View()), HostStep.Handle(ToInbound(e)))
    {
      pending := pending + [ToInbound(e)];
    }

    method Take() returns (out: seq<Inbound>)
      modifies this
      ensures out == old(pending) && View() == HostApply(old(View()), HostStep.Drain)
    {
      out := pending;
      pending := [];
      batches := batches + [out];
    }
  }

  // ------------------------------------------------------------ surfacing

  /** What Recv makes of a deliver frame. */
  datatype Reception = MissingDeliveryKey | InboundHmac | Delivered

  function Classify(mac: Hmac.Mac, secret: seq<Hmac.Byte>, key: string, e: Envelope): Reception {
    if key == "" then MissingDeliveryKey
    else if Hmac.Verify(mac, secret, e).Failure? then InboundHmac
    else Delivered
  }

  /** The verification a peer's adapters perform, as the bus takes it. */
  function PeerCheck(mac: Hmac.Mac, secretOf: string -> seq<Hmac.Byte>): (string, Envelope) -> bool {
    (name, e) => Hmac.Verify(mac, secretOf(name), e).Success?
  }

  /** The two halves of surfacing: the id is looked up and recorded; then it is settled. */
  function Observed(p: Bus.Proc, id: string, handlerOk: bool): Bus.Proc {
    p.(taken := p.taken + [Surfacing(id, handlerOk)], cache := AfterSeen(p.cache, p.max, id))
  }

  function Settled(p: Bus.Proc, key: string, id: string, seen: bool, handlerOk: bool): Bus.Proc {
    if seen then p
    else if !handlerOk then p.(cache := AfterForget(p.cache, id), refused := p.refused + {id})
    else p.(wins := p.wins + [id], firsts := if id in p.wins then p.firsts else p.firsts + [key])
  }

  lemma SurfacedIs(p: Bus.Proc, key: string, id: string, handlerOk: bool)
    ensures Settled(Observed(p, id, handlerOk), key, id, id in p.cache, handlerOk) == Bus.Surfaced(p, key, id, handlerOk)
  {
  }

  class ResumingClient {
    const name: string
    const token: string
    const secret: seq<Hmac.Byte>
    const dedupe: DedupeCache
    const host: GenericBus
    /** Acknowledgements written to the current connection. */
    var acks: seq<string>
    var conn: Option<nat>
    ghost var taken: seq<Surfacing>
    /** The envelopes the host has consumed. */
    ghost var given: seq<Envelope>
    ghost var wins: seq<string>
    ghost var firsts: seq<string>
    ghost var refused: set<string>

    ghost predicate Valid()
      reads this, dedupe, dedupe.ll, dedupe.ll.ring, host
    {
      dedupe.Valid() && Conserved()
    }

    /** What the host has drained and has yet to drain is exactly what was consumed, in order. */
    ghost predicate Conserved()
      reads this`wins, this`given, host
    {
      Accounted(host.View(), given, wins)
    }

    ghost function AsProc(): Bus.Proc
      requires dedupe.Valid()
      reads this, dedupe, dedupe.ll, dedupe.ll.ring
    {
      Bus.Proc(name, token, dedupe.max, dedupe.Order(), conn, taken, wins, firsts, refused)
    }

    constructor (name: string, token: string, secret: seq<Hmac.Byte>, size: int)
      ensures Valid() && acks == [] && given == [] && host.View() == Buffer([], [])
      ensures AsProc() == Bus.Proc(name, token, if size <= 0 then DEFAULT_DEDUPE_SIZE else size, [], None, [], [], [], {})
    {
      this.name, this.token, this.secret := name, token, secret;
      dedupe := new DedupeCache(size);
      host := new GenericBus();
      acks, conn, taken, given, wins, firsts, refused := [], None, [], [], [], [], {};
    }

    /** Surfaces one verified delivery: a repeat is acknowledged at once, a new message only
        after the handler has consumed it, and a refused one is forgotten. The envelope id
        decides repeats; the delivery key is what is acknowledged. */
    method Surface(key: string, e: Envelope, handlerOk: bool, ackOk: bool)
      requires Valid()
      modifies this`acks, this`taken, this`given, this`wins, this`firsts, this`refused, host
      modifies dedupe`idx, dedupe.ll, dedupe.ll.ring
      ensures Valid() && AsProc() == Bus.Surfaced(old(AsProc()), key, e.id, handlerOk)
      ensures acks == old(acks) + if (e.id in old(dedupe.Order()) || handlerOk) && ackOk then [key] else []
      ensures given == old(given) + if e.id !in old(dedupe.Order()) && handlerOk then [e] else []
      ensures host.View() == if e.id !in old(dedupe.Order()) && handlerOk
                             then HostApply(old(host.View()), HostStep.Handle(ToInbound(e))) else old(host.View())
    {
      SurfacedIs(AsProc(), key, e.id, handlerOk);
      var seen := Observe(e.id, handlerOk);
      Settle(key, e, seen, handlerOk, ackOk);
    }

    /** Looks the id up and records it. */
    method Observe(id: string, ghost handlerOk: bool) returns (seen: bool)
      requires Valid()
      modifies this`taken, dedupe`idx, dedupe.ll, dedupe.ll.ring
      ensures Valid() && seen == (id in old(dedupe.Order())) && AsProc() == Observed(old(AsProc()), id, handlerOk)
      ensures forall i | 0 <= i < |dedupe.ll.ring| :: dedupe.ll.ring[i] in old(dedupe.ll.ring) || fresh(dedupe.ll.ring[i])
    {
      seen := dedupe.Seen(id);
      taken := taken + [Surfacing(id, handlerOk)];
    }

    /** Acknowledges a repeat, consumes and acknowledges a new message, or forgets a refused one. */
    method Settle(key: string, e: Envelope, seen: bool, handlerOk: bool, ackOk: bool)
      requires dedupe.Valid() && Conserved()
      modifies this`acks, this`given, this`wins, this`firsts, this`refused, host
      modifies dedupe`idx, dedupe.ll, dedupe.ll.ring
      ensures dedupe.Valid() && Conserved()
      ensures AsProc() == Settled(old(AsProc()), key, e.id, seen, handlerOk)
      ensures given == old(given) + if seen || !handlerOk then [] else [e]
      ensures acks == old(acks) + if (seen || handlerOk) && ackOk then [key] else []
      ensures host.View() == if seen || !handlerOk then old(host.View())
                             else HostApply(old(host.View()), HostStep.Handle(ToInbound(e)))
    {
      if !seen && !handlerOk {
        Refuse(e.id);
      } else {
        if !seen {
          Consume(key, e);
        }
        Ack(key, ackOk);
      }
    }

    method Refuse(id: string)
      requires dedupe.Valid()
      modifies this`refused, dedupe`idx, dedupe.ll, dedupe.ll.ring
      ensures dedupe.Valid() && dedupe.Order() == AfterForget(old(dedupe.Order()), id) && refused == old(refused) + {id}
    {
      dedupe.Forget(id);
      refused := refused + {id};
    }

    method Consume(key: string, e: Envelope)
      requires Conserved()
      modifies this`given, this`wins, this`firsts, host
      ensures Conserved() && given == old(given) + [e]
      ensures host.View() == HostApply(old(host.View()), HostStep.Handle(ToInbound(e)))
      ensures wins == old(wins) + [e.id] && firsts == if e.id in old(wins) then old(firsts) else old(firsts) + [key]
    {
      HandleAccounts(host.View(), e, given, wins);
      host.Handle(e);
      firsts := if e.id in wins then firsts else firsts + [key];
      wins := wins + [e.id];
      given := given + [e];
    }

    /** The host takes what is pending; nothing consumed is lost or given twice. */
    method Drain() returns (out: seq<Inbound>)
      requires Valid()
      modifies host
      ensures Valid() && out == old(host.pending) && host.View() == HostApply(old(host.View()), HostStep.Drain)
      ensures |out| <= |given| && Gives(out, given[|given| - |out|..])
    {
      DrainAccounts(host.View(), given, wins);
      out := host.Take();
    }

    method Ack(key: string, ackOk: bool)
      modifies this`acks
      ensures acks == old(acks) + if ackOk then [key] else []
    {
      if ackOk {
        acks := acks + [key];
      }
    }

    /** One turn of the receive loop: a frame without a key or failing verification is dropped
        with its error and no effect, any other is surfaced. */
    method Pump(mac: Hmac.Mac, key: string, e: Envelope, handlerOk: bool, ackOk: bool) returns (r: Reception)
      requires Valid()
      modifies this`acks, this`taken, this`given, this`wins, this`firsts, this`refused, host
      modifies dedupe`idx, dedupe.ll, dedupe.ll.ring
      ensures Valid()
      ensures r == MissingDeliveryKey <==> key == ""
      ensures r == InboundHmac <==> key != "" && Hmac.Verify(mac, secret, e).Failure?
      ensures key == "" || Hmac.Verify(mac, secret, e).Failure? ==>
        AsProc() == old(AsProc()) && acks == old(acks) && given == old(given) && host.View() == old(host.View())
      ensures key != "" && Hmac.Verify(mac, secret, e).Success? ==>
        && AsProc() == Bus.Surfaced(old(AsProc()), key, e.id, handlerOk)
        && acks == old(acks) + (if (e.id in old(AsProc()).cache || handlerOk) && ackOk then [key] else [])
        && given == old(given) + (if e.id !in old(AsProc()).cache && handlerOk then [e] else [])
        && host.View() == if e.id !in old(AsProc()).cache && handlerOk
                          then HostApply(old(host.View()), HostStep.Handle(ToInbound(e))) else old(host.View())
    {
      r := Classify(mac, secret, key, e);
      if r == Delivered {
        Surface(key, e, handlerOk, ackOk);
      }
    }

    /** In the bus, where every peer's frames are checked under that peer's secret, a turn of the
        loop on the next frame of the connection is the receiving move: the process, the
        acknowledgements written and the envelopes consumed are those of the bus. */
    method ReadFrame(mac: Hmac.Mac, key: string, e: Envelope, handlerOk: bool, ackOk: bool,
                     ghost secretOf: string -> seq<Hmac.Byte>, ghost s: Bus.World, ghost pid: nat, ghost c: nat)
      requires Valid() && Reads(mac, key, e, AsProc(), secretOf, s, pid, c) && secretOf(name) == secret
      modifies this`acks, this`taken, this`given, this`wins, this`firsts, this`refused, host
      modifies dedupe`idx, dedupe.ll, dedupe.ll.ring
      ensures Valid()
      ensures var s' := Bus.Play(s, Bus.Receive(pid, handlerOk, ackOk));
        && old(acks) <= acks && old(given) <= given
        && s' == s.(
             procs := s.procs[pid := AsProc()],
             wires := s.wires[c := s.wires[c].(rcvd := s.wires[c].rcvd + 1,
                                               up := s.wires[c].up + AckFrames(acks[|old(acks)|..]))],
             handed := s.handed + HandedTo(name, given[|old(given)|..]))
    {
      ghost var p, oldAcks, oldGiven := AsProc(), acks, given;
      var r := Pump(mac, key, e, handlerOk, ackOk);
      ReceivingIs(mac, key, e, handlerOk, ackOk, p, secretOf, s, pid, c);
      assert acks[|oldAcks|..] == NewAcks(mac, secret, key, e, p, handlerOk, ackOk);
      assert given[|oldGiven|..] == NewlyGiven(mac, secret, key, e, p, handlerOk);
    }
  }

  /** The next frame of connection c, which process pid listens on, carries key and envelope. */
  ghost predicate Reads(mac: Hmac.Mac, key: string, e: Envelope, p: Bus.Proc, secretOf: string -> seq<Hmac.Byte>,
                        s: Bus.World, pid: nat, c: nat)
  {
    && s.check == PeerCheck(mac, secretOf) && pid in s.procs && s.procs[pid] == p && p.conn == Some(c)
    && c in s.wires && c in s.broker.links && s.wires[c].rcvd < |s.broker.links[c].sent|
    && s.broker.links[c].sent[s.wires[c].rcvd] == Broker.Delivery(key, e)
  }

  function AckFrames(keys: seq<string>): seq<Broker.Frame> {
    seq(|keys|, i requires 0 <= i < |keys| => Broker.AckFrame(keys[i]))
  }

  ghost function HandedTo(name: string, given: seq<Envelope>): set<(string, Envelope)> {
    set e | e in given :: (name, e)
  }

  function NewAcks(mac: Hmac.Mac, secret: seq<Hmac.Byte>, key: string, e: Envelope, p: Bus.Proc,
                   handlerOk: bool, ackOk: bool): seq<string>
  {
    if key != "" && Hmac.Verify(mac, secret, e).Success? && (e.id in p.cache || handlerOk) && ackOk then [key] else []
  }

  function NewlyGiven(mac: Hmac.Mac, secret: seq<Hmac.Byte>, key: string, e: Envelope, p: Bus.Proc,
                      handlerOk: bool): seq<Envelope>
  {
    if key != "" && Hmac.Verify(mac, secret, e).Success? && e.id !in p.cache && handlerOk then [e] else []
  }

  /** The receiving move of the bus, by verification under the peer's secret. */
  lemma ReceivingIs(mac: Hmac.Mac, key: string, e: Envelope, handlerOk: bool, ackOk: bool, p: Bus.Proc,
                    secretOf: string -> seq<Hmac.Byte>, s: Bus.World, pid: nat, c: nat)
    requires Reads(mac, key, e, p, secretOf, s, pid, c)
    ensures var secret := secretOf(p.name); var w := s.wires[c];
      Bus.Play(s, Bus.Receive(pid, handlerOk, ackOk))
      == s.(
           procs := s.procs[pid := if key != "" && Hmac.Verify(mac, secret, e).Success?
                                   then Bus.Surfaced(p, key, e.id, handlerOk) else p],
           wires := s.wires[c := w.(rcvd := w.rcvd + 1,
                                    up := w.up + AckFrames(NewAcks(mac, secret, key, e, p, handlerOk, ackOk)))],
           handed := s.handed + HandedTo(p.name, NewlyGiven(mac, secret, key, e, p, handlerOk)))
  {
    var secret := secretOf(p.name);
    NewAcksAre(mac, secret, key, e, p, handlerOk, ackOk, s.wires[c].up);
    NewlyGivenIs(mac, secret, key, e, p, handlerOk, s.handed);
    if key != "" && Hmac.Verify(mac, secret, e).Success? {
      SurfacedReceiving(mac, key, e, handlerOk, ackOk, p, secretOf, s, pid, c);
    } else {
      DroppedReceiving(mac, key, e, handlerOk, ackOk, p, secretOf, s, pid, c);
      assert s.procs[pid := p] == s.procs;
    }
  }

  lemma DroppedReceiving(mac: Hmac.Mac, key: string, e: Envelope, handlerOk: bool, ackOk: bool, p: Bus.Proc,
                         secretOf: string -> seq<Hmac.Byte>, s: Bus.World, pid: nat, c: nat)
    requires Reads(mac, key, e, p, secretOf, s, pid, c) && (key == "" || Hmac.Verify(mac, secretOf(p.name), e).Failure?)
    ensures Bus.Play(s, Bus.Receive(pid, handlerOk, ackOk))
         == s.(wires := s.wires[c := s.wires[c].(rcvd := s.wires[c].rcvd + 1)])
  {
    assert !s.check(p.name, e) || key == "";
  }

  lemma SurfacedReceiving(mac: Hmac.Mac, key: string, e: Envelope, handlerOk: bool, ackOk: bool, p: Bus.Proc,
                          secretOf: string -> seq<Hmac.Byte>, s: Bus.World, pid: nat, c: nat)
    requires Reads(mac, key, e, p, secretOf, s, pid, c) && key != "" && Hmac.Verify(mac, secretOf(p.name), e).Success?
    ensures var w := s.wires[c]; var acked := (e.id in p.cache || handlerOk) && ackOk;
      Bus.Play(s, Bus.Receive(pid, handlerOk, ackOk))
      == s.(procs := s.procs[pid := Bus.Surfaced(p, key, e.id, handlerOk)],
            wires := s.wires[c := w.(rcvd := w.rcvd + 1, up := if acked then w.up + [Broker.AckFrame(key)] else w.up)],
            handed := if e.id !in p.cache && handlerOk then s.handed + {(p.name, e)} else s.handed)
  {
    assert s.check(p.name, e);
    assert s.wires[c].up + [] == s.wires[c].up;
  }

  lemma NewAcksAre(mac: Hmac.Mac, secret: seq<Hmac.Byte>, key: string, e: Envelope, p: Bus.Proc,
                   handlerOk: bool, ackOk: bool, up: seq<Broker.Frame>)
    ensures var acks := NewAcks(mac, secret, key, e, p, handlerOk, ackOk);
      up + AckFrames(acks) == if acks == [] then up else up + [Broker.AckFrame(key)]
  {
  }

  lemma NewlyGivenIs(mac: Hmac.Mac, secret: seq<Hmac.Byte>, key: string, e: Envelope, p: Bus.Proc,
                     handlerOk: bool, handed: set<(string, Envelope)>)
    ensures var given := NewlyGiven(mac, secret, key, e, p, handlerOk);
      handed + HandedTo(p.name, given) == if given == [] then handed else handed + {(p.name, e)}
  {
  }
}
