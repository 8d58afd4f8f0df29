/** From the handler's frames over the wire to the id a reconnecting client sends. */
module StreamClient {
  import EventLog
  import opened EventStream
  import opened StreamSystem
  import opened SseWire

  function KindText(kind: EventLog.Kind): string {
    match kind
    case COMPLETED => "COMPLETED"
    case FAILED => "FAILED"
    case CANCELLED => "CANCELLED"
    case Other(name) => name
  }

  function ItemOf(f: Frame): Item {
    FrameItem(f.id, KindText(f.kind), f.payload)
  }

  /** The items without the heartbeats. */
  function WithoutPings(items: seq<Item>): seq<Item> {
    if items == [] then []
    else (if items[0].Ping? then [] else [items[0]]) + WithoutPings(items[1..])
  }

  lemma {:induction false} LastIdIgnoresPings(id: string, items: seq<Item>)
    ensures LastId(id, items) == LastId(id, WithoutPings(items))
    decreases |items|
  {
    if items != [] {
      var rest := WithoutPings(items[1..]);
      LastIdIgnoresPings(if items[0].Ping? then id else Decimal(items[0].id), items[1..]);
      if items[0].FrameItem? {
        assert ([items[0]] + rest)[1..] == rest;
      } else {
        assert [] + rest == rest;
      }
    }
  }

  /** What a session writes apart from heartbeats: the greeting, whose id is `after`, then its events. */
  function Written(greeting: Item, sent: seq<Frame>): seq<Item> {
    if sent == [] then [greeting] else Written(greeting, sent[..|sent| - 1]) + [ItemOf(sent[|sent| - 1])]
  }

  lemma {:induction false} LastIdAppend(id: string, items: seq<Item>, f: Item)
    requires f.FrameItem?
    ensures LastId(id, items + [f]) == Decimal(f.id)
    decreases |items|
  {
    if items != [] {
      assert (items + [f])[1..] == items[1..] + [f];
      LastIdAppend(if items[0].Ping? then id else Decimal(items[0].id), items[1..], f);
    }
  }

  lemma WrittenEndsAt(session: Session, g: Item)
    requires g.FrameItem? && g.id == session.after
    ensures LastId("", Written(g, session.sent)) == Decimal(LastReceived(session))
  {
    var sent := session.sent;
    if sent == [] {
      LastIdAppend("", [], g);
      assert [] + [g] == [g];
    } else {
      LastIdAppend("", Written(g, sent[..|sent| - 1]), ItemOf(sent[|sent| - 1]));
    }
  }

  /** With heartbeats anywhere in between, the id the client holds at the end of a session, read
      back as a number, is where the session left off. */
  lemma ClientResumesWhereItStopped(session: Session, g: Item, items: seq<Item>)
    requires forall i :: 0 <= i < |items| ==> Writable(items[i])
    requires g.FrameItem? && g.id == session.after && g.kind == "CONNECTED"
    requires WithoutPings(items) == Written(g, session.sent)
    ensures var held := Feed(START, WriteAll(items)).lastEventId;
            AllDigits(held) && ParseDecimal(held) == LastReceived(session)
  {
    WireRoundTrip(items);
    LastIdIgnoresPings("", items);
    WrittenEndsAt(session, g);
    DecimalRoundTrip(LastReceived(session));
  }

  // ── What the client receives ────────────────────────────────────────────────────

  lemma {:induction false} ExpectedConcat(a: seq<Item>, b: seq<Item>)
    ensures Expected(a + b) == Expected(a) + Expected(b)
    decreases |a|
  {
    if a == [] {
      assert a + b == b;
    } else {
      assert (a + b)[1..] == a[1..] + b;
      ExpectedConcat(a[1..], b);
    }
  }

  lemma {:induction false} ExpectedIgnoresPings(items: seq<Item>)
    ensures Expected(items) == Expected(WithoutPings(items))
    decreases |items|
  {
    if items != [] {
      ExpectedIgnoresPings(items[1..]);
      var rest := WithoutPings(items[1..]);
      if items[0].FrameItem? {
        assert ([items[0]] + rest)[1..] == rest;
      } else {
        assert [] + rest == rest && [] + Expected(items[1..]) == Expected(items[1..]);
      }
    }
  }

  /** The message tells the event: its number as the id, its type by name, and its payload. */
  predicate Tells(m: Message, f: Frame) {
    && AllDigits(m.lastEventId) && ParseDecimal(m.lastEventId) == f.id && m.data == f.payload
    && match f.kind
       case COMPLETED => m.kind == "COMPLETED"
       case FAILED => m.kind == "FAILED"
       case CANCELLED => m.kind == "CANCELLED"
       case Other(name) => m.kind == name
  }

  lemma ExpectedOne(f: Item)
    requires f.FrameItem?
    ensures Expected([f]) == [SseWire.Message(Decimal(f.id), f.kind, f.data)]
  {
    assert [f][1..] == [];
  }

  /** The greeting's message, and one for each frame. */
  predicate AllTold(got: seq<Message>, g: Item, sent: seq<Frame>)
    requires g.FrameItem?
  {
    && |got| == |sent| + 1 && got[0] == SseWire.Message(Decimal(g.id), g.kind, g.data)
    && forall i :: 0 <= i < |sent| ==> Tells(got[i + 1], sent[i])
  }

  lemma OneMoreTold(got: seq<Message>, g: Item, sent: seq<Frame>, m: Message, f: Frame)
    requires g.FrameItem? && AllTold(got, g, sent) && Tells(m, f)
    ensures AllTold(got + [m], g, sent + [f])
  {
  }

  lemma ItemTells(f: Frame)
    ensures var item := ItemOf(f);
            Tells(SseWire.Message(Decimal(item.id), item.kind, item.data), f)
  {
    DecimalRoundTrip(f.id);
  }

  lemma {:induction false} WrittenTells(g: Item, sent: seq<Frame>)
    requires g.FrameItem?
    ensures AllTold(Expected(Written(g, sent)), g, sent)
  {
    if sent == [] {
      ExpectedOne(g);
    } else {
      var front, last := sent[..|sent| - 1], sent[|sent| - 1];
      var item := ItemOf(last);
      WrittenTells(g, front);
      ExpectedConcat(Written(g, front), [item]);
      ExpectedOne(item);
      ItemTells(last);
      OneMoreTold(Expected(Written(g, front)), g, front, SseWire.Message(Decimal(item.id), item.kind, item.data), last);
      assert sent == front + [last];
    }
  }

  /** What the client's parser dispatches over a session, with heartbeats anywhere: the greeting, and then the events
      sent, each once and in order, with its number, its type and its payload. */
  lemma ClientReceives(session: Session, g: Item, items: seq<Item>)
    requires forall i :: 0 <= i < |items| ==> Writable(items[i])
    requires g.FrameItem? && g.id == session.after && g.kind == "CONNECTED"
    requires WithoutPings(items) == Written(g, session.sent)
    ensures var got := Feed(START, WriteAll(items)).dispatched;
            && |got| == |session.sent| + 1
            && got[0] == SseWire.Message(Decimal(session.after), "CONNECTED", g.data)
            && forall i :: 0 <= i < |session.sent| ==> Tells(got[i + 1], session.sent[i])
  {
    WireRoundTrip(items);
    ExpectedIgnoresPings(items);
    WrittenTells(g, session.sent);
  }
}
