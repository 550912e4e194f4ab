/** The audit log as it is stored: broker events written as JSON into the hash chain. */
module AuditEvents {
  import opened Options
  import opened Json
  import opened Wire
  import opened JsonValues
  import opened SignedForm
  import opened Broker
  import opened Audit
  import Store
  import BrokerHistory

  function EventText(kind: string, id: string, from: string, to: string): string {
    "{\"event\":" + Quote(kind) + (",\"id\":" + Quote(id) + (",\"from\":" + Quote(from) + (",\"to\":" + Quote(to) + "}")))
  }

  function Encode(e: Event): string {
    match e
    case SendEvent(id, from, to) => EventText("send", id, from, to)
    case DeliverEvent(id, from, to) => EventText("deliver", id, from, to)
    case AckEvent(id, from) => EventText("ack", id, from, "")
  }

  function FromKind(kind: string, id: string, from: string, to: string): Option<Event> {
    if kind == "send" then Some(SendEvent(id, from, to))
    else if kind == "deliver" then Some(DeliverEvent(id, from, to))
    else if kind == "ack" && to == "" then Some(AckEvent(id, from))
    else None
  }

  function Decode(text: string): Option<Event> {
    match ReadField("{\"event\":", text) case None => None case Some((kind, t1)) =>
    match ReadField(",\"id\":", t1) case None => None case Some((id, t2)) =>
    match ReadField(",\"from\":", t2) case None => None case Some((from, t3)) =>
    match ReadField(",\"to\":", t3) case None => None case Some((to, t4)) =>
    if t4 == "}" then FromKind(kind, id, from, to) else None
  }

  lemma EventTextReads(kind: string, id: string, from: string, to: string)
    ensures Decode(EventText(kind, id, from, to)) == FromKind(kind, id, from, to)
  {
    var t3 := ",\"to\":" + Quote(to) + "}";
    var t2 := ",\"from\":" + Quote(from) + t3;
    var t1 := ",\"id\":" + Quote(id) + t2;
    assert EventText(kind, id, from, to) == "{\"event\":" + Quote(kind) + t1;
    ReadFieldQuoted("{\"event\":", kind, t1);
    ReadFieldQuoted(",\"id\":", id, t2);
    ReadFieldQuoted(",\"from\":", from, t3);
    ReadFieldQuoted(",\"to\":", to, "}");
  }

  /** Stored events read back, so no two events share a text. */
  lemma DecodeEncode(e: Event)
    ensures Decode(Encode(e)) == Some(e)
  {
    match e
    case SendEvent(id, from, to) => EventTextReads("send", id, from, to);
    case DeliverEvent(id, from, to) => EventTextReads("deliver", id, from, to);
    case AckEvent(id, from) => EventTextReads("ack", id, from, "");
  }

  /** The chain rows carry exactly these events, in order. */
  ghost predicate Records(rows: seq<AuditRow>, log: seq<Event>) {
    |rows| == |log| && forall i | 0 <= i < |log| :: rows[i].event == Encode(log[i])
  }

  lemma RecordsAppend(rows: seq<AuditRow>, log: seq<Event>, row: AuditRow, e: Event)
    requires Records(rows, log) && row.event == Encode(e)
    ensures Records(rows + [row], log + [e])
  {
  }

  lemma {:induction false} RecordsDetermine(rows: seq<AuditRow>, log: seq<Event>, other: seq<Event>)
    requires Records(rows, log) && Records(rows, other)
    ensures log == other
  {
    forall i | 0 <= i < |log| ensures log[i] == other[i] {
      DecodeEncode(log[i]);
      DecodeEncode(other[i]);
    }
  }

  /** Two brokers whose intact audit chains end in the same hash hold the same queue, as far as
      the log tells it: or a digest collision can be read off the two chains. */
  lemma SameChainSameQueue(h: Digest, tokens1: set<string>, ops1: seq<Op>, rows1: seq<AuditRow>,
                           tokens2: set<string>, ops2: seq<Op>, rows2: seq<AuditRow>) returns (x: string, y: string)
    requires FixedLength(h) && Intact(h, rows1) && Intact(h, rows2) && rows1 != [] && rows2 != []
    requires Records(rows1, Run(Initial(tokens1), ops1).log) && Records(rows2, Run(Initial(tokens2), ops2).log)
    requires rows1[|rows1| - 1].hash == rows2[|rows2| - 1].hash
    ensures Collision(h, x, y)
         || BrokerHistory.View(Run(Initial(tokens1), ops1).tables) == BrokerHistory.View(Run(Initial(tokens2), ops2).tables)
  {
    x, y := SameEndSameLog(h, rows1, rows2);
    if rows1 == rows2 {
      RecordsDetermine(rows1, Run(Initial(tokens1), ops1).log, Run(Initial(tokens2), ops2).log);
      BrokerHistory.AuditReplaysToQueue(tokens1, ops1);
      BrokerHistory.AuditReplaysToQueue(tokens2, ops2);
    }
  }

  function EventObject(kind: string, id: string, from: string, to: string): Value {
    Object(Field("event", StrOf(kind), EventTail(id, from, to)))
  }

  /** What is hashed into the chain: an object of these four fields, in this order; an
      acknowledgement names nobody in its last. */
  lemma EncodeIsObject(e: Event)
    ensures Encode(e) == Text(match e
                              case SendEvent(id, from, to) => EventObject("send", id, from, to)
                              case DeliverEvent(id, from, to) => EventObject("deliver", id, from, to)
                              case AckEvent(id, from) => EventObject("ack", id, from, ""))
  {
    match e
    case SendEvent(id, from, to) => EventIsObject("send", id, from, to);
    case DeliverEvent(id, from, to) => EventIsObject("deliver", id, from, to);
    case AckEvent(id, from) => EventIsObject("ack", id, from, "");
  }

  lemma EventIsObject(kind: string, id: string, from: string, to: string)
    ensures EventText(kind, id, from, to) == Text(EventObject(kind, id, from, to))
  {
    EventTailText(id, from, to);
    EventHead(kind, EventTail(id, from, to));
  }

  lemma EventHead(kind: string, tail: Members)
    ensures Text(Object(Field("event", StrOf(kind), tail))) == "{\"event\":" + Quote(kind) + ("," + (MembersText(tail) + "}"))
  {
    EventLabel();
    OneField("event", "," + EVENT_LABEL, kind, tail);
    Opening(MembersText(Field("event", StrOf(kind), tail)) + "}", EVENT_LABEL, Quote(kind), "," + (MembersText(tail) + "}"));
  }

  function EventTail(id: string, from: string, to: string): Members {
    Field("id", StrOf(id), Field("from", StrOf(from), LastField("to", StrOf(to))))
  }

  lemma EventTailText(id: string, from: string, to: string)
    ensures "," + (MembersText(EventTail(id, from, to)) + "}")
         == ",\"id\":" + Quote(id) + (",\"from\":" + Quote(from) + (",\"to\":" + Quote(to) + "}"))
  {
    var last := LastField("to", StrOf(to));
    QuoteIsStr(to);
    LastFieldJoins("to", ",\"to\":", StrOf(to));
    OneField("from", ",\"from\":", from, last);
    OneField("id", ",\"id\":", id, Field("from", StrOf(from), last));
  }

  const EVENT_LABEL := "\"event\":"

  lemma EventLabel()
    ensures "," + EVENT_LABEL == ",\"" + "event" + "\":" && "{" + EVENT_LABEL == "{\"event\":"
  {
  }
}
