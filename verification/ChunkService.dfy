/** The chunker as it runs: two loops and a recursion inside the first. */
module ChunkService {
  import opened Wrappers
  import opened Chunking
  import opened ChunkPacking

  lemma TextsAppend(chunks: seq<Piece>, more: seq<Piece>)
    ensures Texts(chunks + more) == Texts(chunks) + Texts(more)
  {
  }

  lemma FlushTexts(chunks: seq<Piece>, current: Text)
    ensures Texts(Flush(chunks, current)) == Texts(chunks) + (if current != [] then [current] else [])
  {
    TextsAppend(chunks, [Piece([], current)]);
    assert [] + current == current;
    assert Texts([Piece([], current)]) == [current];
  }

  lemma OverlappedText(pieces: seq<Piece>, i: nat, overlap: nat)
    requires 0 < i < |pieces|
    ensures Overlapped(pieces, i, overlap).Text() == Tail(pieces[i - 1].Text(), overlap) + pieces[i].Text()
  {
  }

  /** The text is its own chunk behind the last units of the chunk before: one overlap of them, or all if there are not
      so many, or the overlap is 0. */
  predicate Overlaps(text: Text, own: Text, prev: Text, overlap: nat) {
    var k := if overlap == 0 then |prev| else Min(overlap, |prev|);
    text == prev[|prev| - k..] + own
  }

  lemma OverlappedOverlaps(pieces: seq<Piece>, i: nat, overlap: nat)
    requires 0 < i < |pieces|
    ensures Overlaps(Overlapped(pieces, i, overlap).Text(), pieces[i].Text(), pieces[i - 1].Text(), overlap)
  {
    OverlappedText(pieces, i, overlap);
  }

  predicate OverlappedUpTo(overlapped: seq<Text>, pieces: seq<Piece>, overlap: nat) {
    |overlapped| <= |pieces|
    && forall j :: 0 <= j < |overlapped| ==> overlapped[j] == Overlapped(pieces, j, overlap).Text()
  }

  /** One more text: the end of the one before, and its own. */
  lemma OneMoreText(overlapped: seq<Text>, pieces: seq<Piece>, overlap: nat, more: Text)
    requires OverlappedUpTo(overlapped, pieces, overlap) && |overlapped| < |pieces|
    requires more == Overlapped(pieces, |overlapped|, overlap).Text()
    ensures OverlappedUpTo(overlapped + [more], pieces, overlap)
  {
  }

  lemma AppliedTexts(pieces: seq<Piece>, overlap: nat, texts: seq<Text>)
    requires |texts| == |pieces| > 1 && OverlappedUpTo(texts, pieces, overlap)
    ensures texts == Texts(Chunking.ApplyOverlap(pieces, overlap))
  {
  }

  /** Each text ends in its body; what stands before it is overlap. */
  predicate EndIn(texts: seq<Text>, bodies: seq<Text>) {
    && |texts| == |bodies|
    && forall i :: 0 <= i < |texts| ==>
         |texts[i]| >= |bodies[i]| && texts[i][|texts[i]| - |bodies[i]|..] == bodies[i]
  }

  /** The chunks of a text that has to be split end in the bodies that take as many as fit of its splits. */
  ghost predicate TakeWhatFits(chunks: seq<Text>, text: Text, separators: seq<Text>, size: nat, overlap: nat)
    requires WellFormed(separators)
  {
    var sep := ChooseSeparator(separators, text);
    forall sub, bodies | IsFiner(sub, sep, separators, size, overlap) ::
      Greedy(Split(text, sep), sep, size, |separators| > 1, sub, bodies) ==> EndIn(chunks, bodies)
  }

  lemma TextsTakeWhatFits(text: Text, separators: seq<Text>, size: nat, overlap: nat)
    requires WellFormed(separators) && |text| > size
    ensures TakeWhatFits(Texts(Chunking.SplitText(text, separators, size, overlap)), text, separators, size, overlap)
  {
    var pieces := Chunking.SplitText(text, separators, size, overlap);
    var sep := ChooseSeparator(separators, text);
    forall sub, bodies | IsFiner(sub, sep, separators, size, overlap)
                         && Greedy(Split(text, sep), sep, size, |separators| > 1, sub, bodies)
      ensures EndIn(Texts(pieces), bodies)
    {
      SplitIffGreedy(text, separators, size, overlap, sub, bodies);
      TextsEndInBodies(pieces);
    }
  }

  lemma TextsEndInBodies(pieces: seq<Piece>)
    ensures EndIn(Texts(pieces), Bodies(pieces))
  {
  }

  class ChunkingService {
    const chunkSize: nat
    const chunkOverlap: nat

    constructor (chunkSize: nat := 1000, chunkOverlap: nat := 200)
      ensures this.chunkSize == chunkSize && this.chunkOverlap == chunkOverlap
    {
      this.chunkSize, this.chunkOverlap := chunkSize, chunkOverlap;
    }

    method ChunkText(text: Text) returns (chunks: seq<Text>)
      ensures chunks == Texts(Chunking.SplitText(text, [[LF, LF], [LF], [SPACE], []], chunkSize, chunkOverlap))
    {
      chunks := SplitText(text, SEPARATORS);
    }

    method SplitText(text: Text, separators: seq<Text>) returns (chunks: seq<Text>)
      requires WellFormed(separators)
      ensures chunks == Texts(Chunking.SplitText(text, separators, chunkSize, chunkOverlap))
      ensures |text| <= chunkSize ==> chunks == [text]
      ensures |text| > chunkSize ==> TakeWhatFits(chunks, text, separators, chunkSize, chunkOverlap)
      decreases |separators|
    {
      if |text| <= chunkSize {
        assert [] + text == text;
        return [text];
      }
      var separator := ChooseSeparator(separators, text);
      ChosenIsListed(separators, text);
      var splits := Split(text, separator);
      chunks := [];
      var currentChunk := [];
      ghost var pieces: seq<Piece> := [];
      ghost var packed := Pack(splits, separator, separators, chunkSize, chunkOverlap, [], []);
      assert splits[0..] == splits;
      for i := 0 to |splits|
        invariant chunks == Texts(pieces)
        invariant Pack(splits[i..], separator, separators, chunkSize, chunkOverlap, pieces, currentChunk) == packed
      {
        var split := splits[i];
        assert splits[i..][1..] == splits[i + 1..];
        if |currentChunk| + |separator| + |split| <= chunkSize {
          currentChunk := currentChunk + (if currentChunk != [] then separator else []) + split;
        } else {
          FlushTexts(pieces, currentChunk);
          pieces := Flush(pieces, currentChunk);
          if currentChunk != [] {
            chunks := chunks + [currentChunk];
          }
          if |split| > chunkSize && |separators| > 1 {
            var subChunks := SplitText(split, Finer(separators, separator));
            ghost var sub := Chunking.SplitText(split, Finer(separators, separator), chunkSize, chunkOverlap);
            TextsAppend(pieces, sub);
            chunks := chunks + subChunks;
            pieces := pieces + sub;
            currentChunk := [];
          } else {
            currentChunk := split;
          }
        }
      }
      FlushTexts(pieces, currentChunk);
      if currentChunk != [] {
        chunks := chunks + [currentChunk];
      }
      chunks := ApplyOverlap(chunks, packed);
      TextsTakeWhatFits(text, separators, chunkSize, chunkOverlap);
    }

    method ApplyOverlap(chunks: seq<Text>, ghost pieces: seq<Piece>) returns (overlapped: seq<Text>)
      requires chunks == Texts(pieces)
      ensures overlapped == Texts(Chunking.ApplyOverlap(pieces, chunkOverlap))
      ensures |overlapped| == |chunks| && (chunks != [] ==> overlapped[0] == chunks[0])
      ensures forall i :: 0 < i < |chunks| ==> Overlaps(overlapped[i], chunks[i], chunks[i - 1], chunkOverlap)
    {
      if |chunks| <= 1 {
        return chunks;
      }
      overlapped := [chunks[0]];
      for i := 1 to |chunks|
        invariant |overlapped| == i && OverlappedUpTo(overlapped, pieces, chunkOverlap)
      {
        var overlapText := Tail(chunks[i - 1], chunkOverlap);
        OverlappedText(pieces, i, chunkOverlap);
        OneMoreText(overlapped, pieces, chunkOverlap, overlapText + chunks[i]);
        overlapped := overlapped + [overlapText + chunks[i]];
      }
      AppliedTexts(pieces, chunkOverlap, overlapped);
      forall j | 0 < j < |chunks| ensures Overlaps(overlapped[j], chunks[j], chunks[j - 1], chunkOverlap) {
        OverlappedOverlaps(pieces, j, chunkOverlap);
      }
    }
  }
}
