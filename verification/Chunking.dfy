/** The recursive text chunker: it packs greedily, recurses with finer separators on splits that
    are too long, and re-applies overlap at every level of the recursion. */
module Chunking {

  /** JavaScript strings are sequences of UTF-16 code units. */
  newtype CodeUnit = u: int | 0 <= u < 0x1_0000

  type Text = seq<CodeUnit>

  const LF: CodeUnit := 10
  const SPACE: CodeUnit := 32

  const SEPARATORS: seq<Text> := [[LF, LF], [LF], [SPACE], []]

  /** A chunk: first what it repeats from the chunk before it, then its own part of the text. */
  datatype Piece = Piece(overlap: Text, body: Text) {
    function Text(): Text {
      overlap + body
    }
  }

  // ── String operations ───────────────────────────────────────────────────────────

  predicate Includes(text: Text, s: Text) {
    s <= text || (text != [] && Includes(text[1..], s))
  }

  /** `text.split('')`: one string per code unit. */
  function Units(text: Text): seq<Text> {
    if text == [] then [] else [[text[0]]] + Units(text[1..])
  }

  /** `text.split(sep)` at the leftmost occurrences, for a separator that is not empty. */
  function SplitOn(text: Text, sep: Text): (r: seq<Text>)
    requires sep != []
    ensures r != []
    decreases |text|
  {
    if text == [] then [[]]
    else if sep <= text then [[]] + SplitOn(text[|sep|..], sep)
    else
      var rest := SplitOn(text[1..], sep);
      [[text[0]] + rest[0]] + rest[1..]
  }

  function Split(text: Text, sep: Text): seq<Text> {
    if sep == [] then Units(text) else SplitOn(text, sep)
  }

  /** `separators.find(s => text.includes(s)) ?? ''`. */
  function ChooseSeparator(separators: seq<Text>, text: Text): Text {
    if separators == [] then []
    else if Includes(text, separators[0]) then separators[0]
    else ChooseSeparator(separators[1..], text)
  }

  /** The separators after the first occurrence of `sep`; all of them if it does not occur. */
  function Finer(separators: seq<Text>, sep: Text): (r: seq<Text>)
    ensures sep in separators ==> |r| < |separators|
    ensures |r| <= |separators| && r == separators[|separators| - |r|..]
  {
    if sep !in separators then separators
    else if separators[0] == sep then separators[1..]
    else Finer(separators[1..], sep)
  }

  /** `prev.slice(-k)`: the last `k` code units, or everything when `k` is 0. */
  function Tail(prev: Text, k: nat): Text {
    if k == 0 || k >= |prev| then prev else prev[|prev| - k..]
  }

  // ── The algorithm ───────────────────────────────────────────────────────────────

  /** The list of separators ends in the empty one, or has been used up. */
  predicate WellFormed(separators: seq<Text>) {
    separators != [] ==> separators[|separators| - 1] == []
  }

  function SplitText(text: Text, separators: seq<Text>, size: nat, overlap: nat): seq<Piece>
    requires WellFormed(separators)
    decreases |separators|, 1, 0
  {
    if |text| <= size then [Piece([], text)]
    else
      var sep := ChooseSeparator(separators, text);
      ChosenIsListed(separators, text);
      ApplyOverlap(Pack(Split(text, sep), sep, separators, size, overlap, [], []), overlap)
  }

  /** The packing loop, from the state (chunks, current) over the remaining splits. */
  function Pack(splits: seq<Text>, sep: Text, separators: seq<Text>, size: nat, overlap: nat,
                chunks: seq<Piece>, current: Text): seq<Piece>
    requires WellFormed(separators) && (separators != [] ==> sep in separators)
    decreases |separators|, 0, |splits|
  {
    if splits == [] then Flush(chunks, current)
    else
      var s := splits[0];
      if |current| + |sep| + |s| <= size then
        Pack(splits[1..], sep, separators, size, overlap, chunks, current + (if current != [] then sep else []) + s)
      else if |s| > size && |separators| > 1 then
        var sub := SplitText(s, Finer(separators, sep), size, overlap);
        Pack(splits[1..], sep, separators, size, overlap, Flush(chunks, current) + sub, [])
      else
        Pack(splits[1..], sep, separators, size, overlap, Flush(chunks, current), s)
  }

  function Flush(chunks: seq<Piece>, current: Text): seq<Piece> {
    if current != [] then chunks + [Piece([], current)] else chunks
  }

  function ApplyOverlap(chunks: seq<Piece>, overlap: nat): seq<Piece> {
    if |chunks| <= 1 then chunks
    else seq(|chunks|, i requires 0 <= i < |chunks| => Overlapped(chunks, i, overlap))
  }

  /** Chunk `i`, after the end of the chunk before it. */
  function Overlapped(chunks: seq<Piece>, i: nat, overlap: nat): Piece
    requires i < |chunks|
  {
    if i == 0 then chunks[0]
    else Piece(Tail(chunks[i - 1].Text(), overlap) + chunks[i].overlap, chunks[i].body)
  }

  lemma IncludesEmpty(text: Text)
    ensures Includes(text, [])
  {
  }

  lemma {:induction false} ChosenIsListed(separators: seq<Text>, text: Text)
    requires WellFormed(separators)
    ensures separators != [] ==> ChooseSeparator(separators, text) in separators
    ensures separators == [] ==> ChooseSeparator(separators, text) == []
  {
    if separators != [] && !Includes(text, separators[0]) {
      IncludesEmpty(text);
      ChosenIsListed(separators[1..], text);
    }
  }

  function Bodies(chunks: seq<Piece>): seq<Text> {
    seq(|chunks|, i requires 0 <= i < |chunks| => chunks[i].body)
  }

  function Texts(chunks: seq<Piece>): seq<Text> {
    seq(|chunks|, i requires 0 <= i < |chunks| => chunks[i].Text())
  }

  // ── Content ─────────────────────────────────────────────────────────────────────

  /** Only spaces and newlines. */
  predicate Blank(t: Text) {
    forall i :: 0 <= i < |t| ==> t[i] == LF || t[i] == SPACE
  }

  /** `text[i..j]` is the body, and nothing but blanks follows it. */
  predicate CutAt(text: Text, i: int, j: int, body: Text) {
    0 <= i <= j <= |text| && text[i..j] == body && Blank(text[j..])
  }

  /** The bodies are disjoint stretches of the text, in order, with nothing but blanks around and
      between them. */
  ghost predicate Woven(text: Text, bodies: seq<Text>)
    decreases |bodies|
  {
    if bodies == [] then Blank(text)
    else
      var last, front := bodies[|bodies| - 1], bodies[..|bodies| - 1];
      exists i, j :: CutAt(text, i, j, last) && Woven(text[..i], front)
  }

  /** The last cut of a woven text. */
  lemma LastCut(text: Text, bodies: seq<Text>) returns (i: nat, j: nat)
    requires Woven(text, bodies) && bodies != []
    ensures i <= j <= |text| && text[i..j] == bodies[|bodies| - 1] && Blank(text[j..])
    ensures Woven(text[..i], bodies[..|bodies| - 1])
  {
    var last, front := bodies[|bodies| - 1], bodies[..|bodies| - 1];
    var i', j' :| CutAt(text, i', j', last) && Woven(text[..i'], front);
    i, j := i', j';
  }

  /** One more body, and blanks behind it. */
  lemma WovenStep(text: Text, bodies: seq<Text>, c: Text, w: Text)
    requires Woven(text, bodies) && Blank(w)
    ensures Woven(text + c + w, bodies + [c])
  {
    var t, b := text + c + w, bodies + [c];
    assert b[..|b| - 1] == bodies && b[|b| - 1] == c;
    assert t[..|text|] == text;
    assert CutAt(t, |text|, |text| + |c|, c);
  }

  lemma WovenSnoc(text: Text, bodies: seq<Text>, c: Text)
    requires Woven(text, bodies)
    ensures Woven(text + c, bodies + [c])
  {
    WovenStep(text, bodies, c, []);
    assert text + c + [] == text + c;
  }

  lemma WovenBlank(text: Text, bodies: seq<Text>, w: Text)
    requires Woven(text, bodies) && Blank(w)
    ensures Woven(text + w, bodies)
  {
    if bodies != [] {
      var i, j := LastCut(text, bodies);
      assert CutAt(text + w, i, j, bodies[|bodies| - 1]) && (text + w)[..i] == text[..i];
    }
  }

  lemma {:induction false} WovenConcat(t1: Text, b1: seq<Text>, t2: Text, b2: seq<Text>)
    requires Woven(t1, b1) && Woven(t2, b2)
    ensures Woven(t1 + t2, b1 + b2)
    decreases |b2|
  {
    if b2 == [] {
      WovenBlank(t1, b1, t2);
      assert b1 + b2 == b1;
    } else {
      var front, last := b2[..|b2| - 1], b2[|b2| - 1];
      var i, j := LastCut(t2, b2);
      WovenConcat(t1, b1, t2[..i], front);
      WovenStep(t1 + t2[..i], b1 + front, last, t2[j..]);
      CutInThree(t1, t2, i, j);
      assert b1 + front + [last] == b1 + b2;
    }
  }

  lemma CutInThree(a: Text, t: Text, i: nat, j: nat)
    requires i <= j <= |t|
    ensures a + t[..i] + t[i..j] + t[j..] == a + t
  {
  }

  /** The text that the remaining splits came from; each but the very first has a separator before it. */
  function Remaining(splits: seq<Text>, sep: Text, first: bool): Text {
    if splits == [] then [] else (if first then [] else sep) + splits[0] + Remaining(splits[1..], sep, false)
  }

  lemma {:induction false} UnitsJoin(text: Text, first: bool)
    ensures Remaining(Units(text), [], first) == text
    decreases |text|
  {
    if text != [] {
      UnitsJoin(text[1..], false);
      assert Units(text)[1..] == Units(text[1..]);
    }
  }

  /** A split at the start of the text, before the splits of the rest. */
  lemma JoinSeparator(splits: seq<Text>, sep: Text, rest: Text)
    requires splits != [] && Remaining(splits, sep, true) == rest
    ensures Remaining([[]] + splits, sep, true) == sep + rest
  {
    assert ([[]] + splits)[1..] == splits;
    assert Remaining(splits, sep, false) == sep + rest;
  }

  /** One unit more in the first split. */
  lemma JoinUnit(c: CodeUnit, splits: seq<Text>, sep: Text, rest: Text)
    requires splits != [] && Remaining(splits, sep, true) == rest
    ensures Remaining([[c] + splits[0]] + splits[1..], sep, true) == [c] + rest
  {
    assert ([[c] + splits[0]] + splits[1..])[1..] == splits[1..];
  }

  lemma {:induction false} SplitOnJoin(text: Text, sep: Text)
    requires sep != []
    ensures Remaining(SplitOn(text, sep), sep, true) == text
    decreases |text|
  {
    if text == [] {
      assert SplitOn(text, sep) == [[]];
    } else if sep <= text {
      var rest := text[|sep|..];
      SplitOnJoin(rest, sep);
      JoinSeparator(SplitOn(rest, sep), sep, rest);
      assert sep + rest == text;
    } else {
      var rest := text[1..];
      SplitOnJoin(rest, sep);
      JoinUnit(text[0], SplitOn(rest, sep), sep, rest);
      assert [text[0]] + rest == text;
    }
  }

  lemma SplitJoins(text: Text, sep: Text)
    ensures Remaining(Split(text, sep), sep, true) == text
  {
    if sep == [] {
      UnitsJoin(text, true);
    } else {
      SplitOnJoin(text, sep);
    }
  }

  predicate AllBlank(separators: seq<Text>) {
    forall s :: s in separators ==> Blank(s)
  }

  lemma FinerStays(separators: seq<Text>, sep: Text)
    requires WellFormed(separators) && AllBlank(separators)
    ensures WellFormed(Finer(separators, sep)) && AllBlank(Finer(separators, sep))
  {
    var r := Finer(separators, sep);
    forall s | s in r ensures Blank(s) {
      assert s in separators;
    }
  }

  lemma BodiesAppend(chunks: seq<Piece>, more: seq<Piece>)
    ensures Bodies(chunks + more) == Bodies(chunks) + Bodies(more)
  {
  }

  lemma FlushWeaves(done: Text, chunks: seq<Piece>, current: Text)
    requires Woven(done, Bodies(chunks))
    ensures Woven(done + current, Bodies(Flush(chunks, current)))
  {
    if current == [] {
      assert done + current == done;
    } else {
      WovenSnoc(done, Bodies(chunks), current);
      BodiesAppend(chunks, [Piece([], current)]);
      assert Bodies([Piece([], current)]) == [current];
    }
  }

  lemma Regroup(a: Text, b: Text, c: Text, d: Text, e: Text)
    ensures a + b + (c + d + e) == a + (b + c + d) + e
    ensures a + b + (c + d + e) == a + b + c + d + e
    ensures a + b + (c + d + e) == a + b + c + d + [] + e
  {
  }

  /** The packing loop weaves: if the chunks so far make up `done`, then in the end they make up
      `done`, the chunk in progress, and the text of the remaining splits. */
  lemma {:induction false} PackWeaves(splits: seq<Text>, sep: Text, separators: seq<Text>, size: nat, overlap: nat,
                                      chunks: seq<Piece>, current: Text, done: Text, first: bool, text: Text)
    requires WellFormed(separators) && (separators != [] ==> sep in separators)
    requires AllBlank(separators) && Blank(sep)
    requires Woven(done, Bodies(chunks)) && (first ==> current == [])
    requires text == done + current + Remaining(splits, sep, first)
    ensures Woven(text, Bodies(Pack(splits, sep, separators, size, overlap, chunks, current)))
    decreases |separators|, 0, |splits|
  {
    FlushWeaves(done, chunks, current);
    if splits == [] {
      assert text == done + current;
    } else {
      var s := splits[0];
      var lead: Text := if first then [] else sep;
      Regroup(done, current, lead, s, Remaining(splits[1..], sep, false));
      if |current| + |sep| + |s| <= size {
        var more := current + (if current != [] then sep else []) + s;
        if current != [] {
          PackWeaves(splits[1..], sep, separators, size, overlap, chunks, more, done, false, text);
        } else {
          WovenBlank(done, Bodies(chunks), lead);
          assert more == s && done + current == done;
          PackWeaves(splits[1..], sep, separators, size, overlap, chunks, more, done + lead, false, text);
        }
      } else {
        var flushed := Flush(chunks, current);
        var gone := done + current + lead;
        WovenBlank(done + current, Bodies(flushed), lead);
        if |s| > size && |separators| > 1 {
          var sub := SplitText(s, Finer(separators, sep), size, overlap);
          FinerStays(separators, sep);
          SplitWeaves(s, Finer(separators, sep), size, overlap);
          WovenConcat(gone, Bodies(flushed), s, Bodies(sub));
          BodiesAppend(flushed, sub);
          PackWeaves(splits[1..], sep, separators, size, overlap, flushed + sub, [], gone + s, false, text);
        } else {
          PackWeaves(splits[1..], sep, separators, size, overlap, flushed, s, gone, false, text);
        }
      }
    }
  }

  /** Through every level of the recursion nothing but blanks is lost: the bodies of the chunks
      are disjoint stretches of the text, in order, and what lies between them is blank. */
  lemma {:induction false} SplitWeaves(text: Text, separators: seq<Text>, size: nat, overlap: nat)
    requires WellFormed(separators) && AllBlank(separators)
    ensures Woven(text, Bodies(SplitText(text, separators, size, overlap)))
    decreases |separators|, 1, 0
  {
    if |text| <= size {
      assert Bodies([Piece([], text)]) == [text];
      assert Woven([], []);
      WovenSnoc([], [], text);
      assert [] + text == text && [] + [text] == [text];
    } else {
      var sep := ChooseSeparator(separators, text);
      ChosenIsListed(separators, text);
      SplitJoins(text, sep);
      assert [] + [] + text == text;
      PackWeaves(Split(text, sep), sep, separators, size, overlap, [], [], [], true, text);
      var packed := Pack(Split(text, sep), sep, separators, size, overlap, [], []);
      assert Bodies(ApplyOverlap(packed, overlap)) == Bodies(packed);
    }
  }

  /** The text without spaces and newlines. */
  function Strip(t: Text): Text {
    if t == [] then []
    else Strip(t[..|t| - 1]) + (if t[|t| - 1] == LF || t[|t| - 1] == SPACE then [] else [t[|t| - 1]])
  }

  function Concat(ts: seq<Text>): Text {
    if ts == [] then [] else Concat(ts[..|ts| - 1]) + ts[|ts| - 1]
  }

  lemma {:induction false} StripConcat(a: Text, b: Text)
    ensures Strip(a + b) == Strip(a) + Strip(b)
    decreases |b|
  {
    if b == [] {
      assert a + b == a;
    } else {
      assert (a + b)[..|a + b| - 1] == a + b[..|b| - 1];
      StripConcat(a, b[..|b| - 1]);
    }
  }

  lemma {:induction false} StripBlank(t: Text)
    requires Blank(t)
    ensures Strip(t) == []
  {
    if t != [] {
      StripBlank(t[..|t| - 1]);
    }
  }

  lemma {:induction false} WovenConserves(text: Text, bodies: seq<Text>)
    requires Woven(text, bodies)
    ensures Strip(Concat(bodies)) == Strip(text)
    decreases |bodies|
  {
    if bodies == [] {
      StripBlank(text);
    } else {
      var i, j := LastCut(text, bodies);
      WovenConserves(text[..i], bodies[..|bodies| - 1]);
      StripConcat(Concat(bodies[..|bodies| - 1]), bodies[|bodies| - 1]);
      StripCut(text, i, j);
    }
  }

  lemma StripCut(text: Text, i: nat, j: nat)
    requires i <= j <= |text| && Blank(text[j..])
    ensures Strip(text) == Strip(text[..i]) + Strip(text[i..j])
  {
    StripBlank(text[j..]);
    StripConcat(text[..j], text[j..]);
    assert text[..j] + text[j..] == text;
    StripConcat(text[..i], text[i..j]);
    assert text[..i] + text[i..j] == text[..j];
  }

  /** Chunking conserves content: the concatenated bodies equal the text, blanks aside. */
  lemma ContentIsConserved(text: Text, size: nat, overlap: nat)
    ensures Strip(Concat(Bodies(SplitText(text, SEPARATORS, size, overlap)))) == Strip(text)
  {
    assert AllBlank(SEPARATORS);
    SplitWeaves(text, SEPARATORS, size, overlap);
    WovenConserves(text, Bodies(SplitText(text, SEPARATORS, size, overlap)));
  }
}
