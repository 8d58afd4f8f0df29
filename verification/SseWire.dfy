/** The text of an event stream, and the client's reading of it under sections 9.2.5 and 9.2.6
    of the HTML Standard. */
module SseWire {

  /** What the handler writes: whole frames, and heartbeat comments between them. */
  datatype Item = FrameItem(id: nat, kind: string, data: string) | Ping

  /** What the client dispatches. */
  datatype Message = Message(lastEventId: string, kind: string, data: string)

  const LF := '\n'
  const CR := '\r'

  /** A JavaScript number without fraction, written in decimal. */
  function Decimal(n: nat): string {
    if n < 10 then [Digit(n)] else Decimal(n / 10) + [Digit(n % 10)]
  }

  function Digit(d: nat): char
    requires d < 10
  {
    '0' + d as char
  }

  /** `parseInt(s, 10)` on a string of decimal digits. */
  function ParseDecimal(s: string): nat
    requires AllDigits(s)
  {
    if s == [] then 0 else 10 * ParseDecimal(s[..|s| - 1]) + (s[|s| - 1] as nat - '0' as nat)
  }

  predicate AllDigits(s: string) {
    forall i :: 0 <= i < |s| ==> '0' <= s[i] <= '9'
  }

  /** One `name: value` line. */
  function FieldText(name: string, value: string): string {
    Line(name + ": " + value)
  }

  function Line(s: string): string {
    s + [LF]
  }

  function Write(item: Item): string {
    match item
    case FrameItem(id, kind, data) =>
      FieldText("id", Decimal(id)) + FieldText("event", kind) + FieldText("data", data) + Line("")
    case Ping => Line(": ping") + Line("")
  }

  function WriteAll(items: seq<Item>): string {
    if items == [] then "" else Write(items[0]) + WriteAll(items[1..])
  }

  // ── The client ──────────────────────────────────────────────────────────────────

  /** The parser's buffers. An absent data buffer is the empty one. */
  datatype Parser = Parser(lastEventId: string, kind: string, data: string, dispatched: seq<Message>)

  const START := Parser("", "", "", [])

  predicate Breaks(c: char) {
    c == LF || c == CR
  }

  /** The length of the first line, without its end. */
  function LineLength(s: string): (n: nat)
    ensures n <= |s|
    ensures forall i :: 0 <= i < n ==> !Breaks(s[i])
    ensures n < |s| ==> Breaks(s[n])
  {
    if s == [] || Breaks(s[0]) then 0 else 1 + LineLength(s[1..])
  }

  /** A line ends in CR LF, LF or CR. */
  function EndLength(s: string): (n: nat)
    requires s != [] && Breaks(s[0])
    ensures 1 <= n <= |s|
  {
    if |s| > 1 && s[0] == CR && s[1] == LF then 2 else 1
  }

  function ColonAt(line: string): (n: nat)
    ensures n <= |line|
    ensures forall i :: 0 <= i < n ==> line[i] != ':'
    ensures n < |line| ==> line[n] == ':'
  {
    if line == [] || line[0] == ':' then 0 else 1 + ColonAt(line[1..])
  }

  /** One optional space after the colon is not part of the value. */
  function Value(rest: string): string {
    if rest != [] && rest[0] == ' ' then rest[1..] else rest
  }

  function Field(p: Parser, name: string, value: string): Parser {
    if name == "event" then p.(kind := value)
    else if name == "data" then p.(data := p.data + value + [LF])
    else if name == "id" then (if '\0' in value then p else p.(lastEventId := value))
    else p
  }

  /** An empty line dispatches, unless there is no data. */
  function Dispatch(p: Parser): Parser {
    if p.data == "" then p.(kind := "")
    else
      var data := if p.data[|p.data| - 1] == LF then p.data[..|p.data| - 1] else p.data;
      Parser(p.lastEventId, "", "",
             p.dispatched + [Message(p.lastEventId, if p.kind == "" then "message" else p.kind, data)])
  }

  function ProcessLine(p: Parser, line: string): Parser {
    if line == "" then Dispatch(p)
    else
      var n := ColonAt(line);
      if n == 0 then p
      else if n < |line| then Field(p, line[..n], Value(line[n + 1..]))
      else Field(p, line, "")
  }

  /** Processes every complete line; what follows the last line end is not a line yet. */
  function Feed(p: Parser, text: string): Parser
    decreases |text|
  {
    var n := LineLength(text);
    if n == |text| then p
    else Feed(ProcessLine(p, text[..n]), text[n + EndLength(text[n..])..])
  }

  // ── The round trip ──────────────────────────────────────────────────────────────

  predicate OneLine(s: string) {
    forall i :: 0 <= i < |s| ==> !Breaks(s[i])
  }

  /** Event types and JSON text contain no line end and are not empty. */
  predicate Writable(item: Item) {
    item.FrameItem? ==> item.kind != "" && item.data != "" && OneLine(item.kind) && OneLine(item.data)
  }

  /** What one item adds to the messages. */
  function Dispatches(item: Item): seq<Message> {
    if item.Ping? then [] else [Message(Decimal(item.id), item.kind, item.data)]
  }

  /** The frames among the items, as messages. */
  function Expected(items: seq<Item>): seq<Message> {
    if items == [] then [] else Dispatches(items[0]) + Expected(items[1..])
  }

  /** The id of the last frame, or else `id`. */
  function LastId(id: string, items: seq<Item>): string
    decreases |items|
  {
    if items == [] then id
    else LastId(if items[0].Ping? then id else Decimal(items[0].id), items[1..])
  }

  lemma {:induction false} DecimalRoundTrip(n: nat)
    ensures AllDigits(Decimal(n))
    ensures ParseDecimal(Decimal(n)) == n
    ensures Decimal(n) != ""
  {
    if n >= 10 {
      DecimalRoundTrip(n / 10);
      assert Decimal(n)[..|Decimal(n)| - 1] == Decimal(n / 10);
    }
  }

  lemma {:induction false} LineLengthIs(line: string, rest: string)
    requires OneLine(line)
    ensures LineLength(line + [LF] + rest) == |line|
  {
    var s := line + [LF] + rest;
    assert s[|line|] == LF;
    forall i | 0 <= i < |line| ensures !Breaks(s[i]) {
      assert s[i] == line[i];
    }
    assert s[LineLength(s)..] != [] ==> Breaks(s[LineLength(s)]);
  }

  /** Feeding a line processes it and goes on with what follows. */
  lemma FeedLine(p: Parser, line: string, rest: string)
    requires OneLine(line)
    ensures Feed(p, Line(line) + rest) == Feed(ProcessLine(p, line), rest)
  {
    var s := line + [LF] + rest;
    LineLengthIs(line, rest);
    assert s[..|line|] == line;
    assert s[|line|..][0] == LF;
    assert s[|line| + 1..] == rest;
  }

  predicate FieldName(name: string) {
    name != "" && forall i :: 0 <= i < |name| ==> name[i] != ':' && !Breaks(name[i])
  }

  lemma FieldNames()
    ensures FieldName("id") && FieldName("event") && FieldName("data")
  {
  }

  lemma FieldLine(p: Parser, name: string, value: string)
    requires FieldName(name)
    ensures ProcessLine(p, name + ": " + value) == Field(p, name, value)
  {
    var line := name + ": " + value;
    forall i | 0 <= i < |name| ensures line[i] != ':' {
      assert line[i] == name[i];
    }
    assert line[|name|] == ':';
    var n := ColonAt(line);
    assert n == |name|;
    assert line[..n] == name;
    assert line[n + 1..] == " " + value;
    assert Value(line[n + 1..]) == value;
  }

  /** The parser between two items: nothing is buffered. */
  predicate Between(p: Parser) {
    p.kind == "" && p.data == ""
  }

  lemma FeedPing(p: Parser, rest: string)
    requires Between(p)
    ensures Feed(p, Write(Ping) + rest) == Feed(p, rest)
  {
    assert Write(Ping) + rest == Line(": ping") + (Line("") + rest);
    FeedLine(p, ": ping", Line("") + rest);
    assert ProcessLine(p, ": ping") == p;
    FeedLine(p, "", rest);
    assert ProcessLine(p, "") == p;
  }

  lemma FeedField(p: Parser, name: string, value: string, rest: string)
    requires FieldName(name) && OneLine(value)
    ensures Feed(p, FieldText(name, value) + rest) == Feed(Field(p, name, value), rest)
  {
    FieldLine(p, name, value);
    FeedLine(p, name + ": " + value, rest);
  }

  lemma FeedEnd(p: Parser, data: string, rest: string)
    requires p.kind != "" && p.data == data + [LF]
    ensures Feed(p, Line("") + rest) ==
            Feed(Parser(p.lastEventId, "", "", p.dispatched + [Message(p.lastEventId, p.kind, data)]), rest)
  {
    FeedLine(p, "", rest);
    assert p.data[..|p.data| - 1] == data;
  }

  /** The parser after one item: the buffers are empty again. */
  function AfterItem(p: Parser, item: Item): Parser {
    Parser(if item.Ping? then p.lastEventId else Decimal(item.id), "", "", p.dispatched + Dispatches(item))
  }

  lemma Regroup(a: string, b: string, c: string, d: string, e: string)
    ensures a + b + c + d + e == a + (b + (c + (d + e)))
  {
  }

  /** The first two lines of a frame set the id and the type. */
  lemma FeedHead(p: Parser, id: nat, kind: string, rest: string)
    requires OneLine(kind)
    ensures Feed(p, FieldText("id", Decimal(id)) + (FieldText("event", kind) + rest)) ==
            Feed(p.(lastEventId := Decimal(id), kind := kind), rest)
  {
    DecimalRoundTrip(id);
    assert OneLine(Decimal(id)) && '\0' !in Decimal(id);
    FieldNames();
    FeedField(p, "id", Decimal(id), FieldText("event", kind) + rest);
    FeedField(p.(lastEventId := Decimal(id)), "event", kind, rest);
  }

  /** The last two lines of a frame set the data and dispatch. */
  lemma FeedTail(p: Parser, data: string, rest: string)
    requires OneLine(data) && p.kind != "" && p.data == ""
    ensures Feed(p, FieldText("data", data) + (Line("") + rest)) ==
            Feed(Parser(p.lastEventId, "", "", p.dispatched + [Message(p.lastEventId, p.kind, data)]), rest)
  {
    FieldNames();
    FeedField(p, "data", data, Line("") + rest);
    assert "" + data + [LF] == data + [LF];
    FeedEnd(p.(data := data + [LF]), data, rest);
  }

  lemma FeedFrame(p: Parser, item: Item, rest: string)
    requires Between(p) && item.FrameItem? && Writable(item)
    ensures Feed(p, Write(item) + rest) == Feed(AfterItem(p, item), rest)
  {
    var t := FieldText("data", item.data);
    Regroup(FieldText("id", Decimal(item.id)), FieldText("event", item.kind), t, Line(""), rest);
    FeedHead(p, item.id, item.kind, t + (Line("") + rest));
    FeedTail(p.(lastEventId := Decimal(item.id), kind := item.kind), item.data, rest);
  }

  lemma FeedItem(p: Parser, item: Item, rest: string)
    requires Between(p) && Writable(item)
    ensures Feed(p, Write(item) + rest) == Feed(AfterItem(p, item), rest)
  {
    if item.Ping? {
      FeedPing(p, rest);
      assert AfterItem(p, item) == p;
    } else {
      FeedFrame(p, item, rest);
    }
  }

  lemma {:induction false} FeedAll(p: Parser, items: seq<Item>)
    requires Between(p)
    requires forall i :: 0 <= i < |items| ==> Writable(items[i])
    ensures Feed(p, WriteAll(items)).dispatched == p.dispatched + Expected(items)
    ensures Feed(p, WriteAll(items)).lastEventId == LastId(p.lastEventId, items)
    decreases |items|
  {
    if items != [] {
      FeedItem(p, items[0], WriteAll(items[1..]));
      FeedAll(AfterItem(p, items[0]), items[1..]);
      DispatchesFirst(p, items);
    }
  }

  lemma DispatchesFirst(p: Parser, items: seq<Item>)
    requires items != []
    ensures AfterItem(p, items[0]).dispatched + Expected(items[1..]) == p.dispatched + Expected(items)
  {
    Associative(p.dispatched, Dispatches(items[0]), Expected(items[1..]));
  }

  lemma Associative<T>(a: seq<T>, b: seq<T>, c: seq<T>)
    ensures a + b + c == a + (b + c)
  {
  }

  /** Whatever whole frames and heartbeats are written in whatever order, the client dispatches
      exactly the frames, in order, with their id, type and data, and the id reads back as the
      same number when it is sent as `Last-Event-ID`. */
  lemma WireRoundTrip(items: seq<Item>)
    requires forall i :: 0 <= i < |items| ==> Writable(items[i])
    ensures Feed(START, WriteAll(items)).dispatched == Expected(items)
    ensures Feed(START, WriteAll(items)).lastEventId == LastId("", items)
    ensures forall i :: 0 <= i < |items| && items[i].FrameItem? ==>
              AllDigits(Decimal(items[i].id)) && ParseDecimal(Decimal(items[i].id)) == items[i].id
  {
    FeedAll(START, items);
    forall i | 0 <= i < |items| && items[i].FrameItem?
      ensures AllDigits(Decimal(items[i].id)) && ParseDecimal(Decimal(items[i].id)) == items[i].id
    {
      DecimalRoundTrip(items[i].id);
    }
  }
}
