/** What the recursion makes of a chunk: no body is empty or longer than the chunk size, and what stands
    before it was copied from the end of the chunk before, at most once for each level. */
module ChunkBounds {
  import opened Wrappers
  import opened Chunking

  /** The first `n` units of `p` are the last `n` of `prev`, and no more than one overlap. */
  predicate EndOf(p: Text, n: int, prev: Text, overlap: nat) {
    0 <= n <= |p| && n <= |prev| && p[..n] == prev[|prev| - n..] && (overlap == 0 || n <= overlap)
  }

  /** `p` is made of at most `k` ends of `prev`. */
  ghost predicate Repeats(p: Text, prev: Text, overlap: nat, k: nat)
    decreases k
  {
    p == [] || (k > 0 && exists n :: EndOf(p, n, prev, overlap) && Repeats(p[n..], prev, overlap, k - 1))
  }

  /** What stands before the body of `p` are ends of the chunk `prev`. */
  ghost predicate Follows(p: Piece, prev: Piece, overlap: nat, k: nat) {
    Repeats(p.overlap, prev.Text(), overlap, k)
  }

  function Before(chunks: seq<Piece>, i: nat): Text
    requires i < |chunks|
  {
    if i == 0 then [] else chunks[i - 1].Text()
  }

  ghost predicate TidyAt(chunks: seq<Piece>, i: nat, size: nat, overlap: nat, k: nat)
    requires i < |chunks|
  {
    && 0 < |chunks[i].body| <= Max(size, 1)
    && Repeats(chunks[i].overlap, Before(chunks, i), overlap, k)
  }

  ghost predicate Tidy(chunks: seq<Piece>, size: nat, overlap: nat, k: nat) {
    forall i :: 0 <= i < |chunks| ==> TidyAt(chunks, i, size, overlap, k)
  }

  /** Only the last separator is empty. */
  predicate Ordered(separators: seq<Text>) {
    forall i :: 0 <= i < |separators| ==> (separators[i] == [] <==> i == |separators| - 1)
  }

  lemma {:induction false} RepeatsMore(p: Text, prev: Text, overlap: nat, k: nat, longer: Text, more: nat)
    requires Repeats(p, prev, overlap, k) && k <= more
    requires |prev| <= |longer| && longer[|longer| - |prev|..] == prev
    ensures Repeats(p, longer, overlap, more)
    decreases k
  {
    if p != [] {
      var n :| EndOf(p, n, prev, overlap) && Repeats(p[n..], prev, overlap, k - 1);
      RepeatsMore(p[n..], prev, overlap, k - 1, longer, more - 1);
      assert prev[|prev| - n..] == longer[|longer| - n..];
      assert EndOf(p, n, longer, overlap);
    }
  }

  lemma {:induction false} RepeatsLength(p: Text, prev: Text, overlap: nat, k: nat)
    requires Repeats(p, prev, overlap, k) && overlap > 0
    ensures |p| <= k * overlap
    decreases k
  {
    if p != [] {
      var n :| EndOf(p, n, prev, overlap) && Repeats(p[n..], prev, overlap, k - 1);
      RepeatsLength(p[n..], prev, overlap, k - 1);
      assert k * overlap == (k - 1) * overlap + overlap;
    }
  }

  lemma {:induction false} RepeatsNothing(p: Text, overlap: nat, k: nat)
    requires Repeats(p, [], overlap, k)
    ensures p == []
    decreases k
  {
    if p != [] {
      var n :| EndOf(p, n, [], overlap) && Repeats(p[n..], [], overlap, k - 1);
      RepeatsNothing(p[n..], overlap, k - 1);
    }
  }

  lemma TidyAppend(chunks: seq<Piece>, more: seq<Piece>, size: nat, overlap: nat, k: nat, j: nat)
    requires Tidy(chunks, size, overlap, k) && Tidy(more, size, overlap, j) && j <= k
    ensures Tidy(chunks + more, size, overlap, k)
  {
    var all := chunks + more;
    forall i | 0 <= i < |all| ensures TidyAt(all, i, size, overlap, k) {
      if i < |chunks| {
        assert TidyAt(chunks, i, size, overlap, k) && Before(all, i) == Before(chunks, i);
      } else {
        var m := i - |chunks|;
        assert TidyAt(more, m, size, overlap, j);
        if m == 0 {
          RepeatsNothing(more[0].overlap, overlap, j);
        } else {
          assert Before(all, i) == Before(more, m);
          RepeatsMore(more[m].overlap, Before(more, m), overlap, j, Before(all, i), k);
        }
      }
    }
  }

  lemma FlushTidy(chunks: seq<Piece>, current: Text, size: nat, overlap: nat, k: nat)
    requires Tidy(chunks, size, overlap, k) && |current| <= Max(size, 1)
    ensures Tidy(Flush(chunks, current), size, overlap, k)
  {
    if current != [] {
      assert TidyAt([Piece([], current)], 0, size, overlap, k);
      TidyAppend(chunks, [Piece([], current)], size, overlap, k, k);
    }
  }

  lemma LongerBefore(chunks: seq<Piece>, i: nat, overlap: nat)
    requires 0 < i < |chunks|
    ensures var prev, longer := chunks[i - 1].Text(), Overlapped(chunks, i - 1, overlap).Text();
            |prev| <= |longer| && longer[|longer| - |prev|..] == prev
  {
    if i > 1 {
      var head := Tail(chunks[i - 2].Text(), overlap);
      assert Overlapped(chunks, i - 1, overlap).Text() == head + chunks[i - 1].Text();
    }
  }

  lemma OverlapRepeats(chunks: seq<Piece>, i: nat, overlap: nat, k: nat)
    requires 0 < i < |chunks|
    requires Repeats(chunks[i].overlap, chunks[i - 1].Text(), overlap, k)
    ensures Follows(Overlapped(chunks, i, overlap), Overlapped(chunks, i - 1, overlap), overlap, k + 1)
  {
    var prev, longer := chunks[i - 1].Text(), Overlapped(chunks, i - 1, overlap).Text();
    var head, rest := Tail(prev, overlap), chunks[i].overlap;
    LongerBefore(chunks, i, overlap);
    RepeatsMore(rest, prev, overlap, k, longer, k);
    assert prev[|prev| - |head|..] == longer[|longer| - |head|..] == head;
    assert (head + rest)[|head|..] == rest && (head + rest)[..|head|] == head;
    assert EndOf(head + rest, |head|, longer, overlap);
  }

  lemma AppliedAt(chunks: seq<Piece>, i: nat, overlap: nat)
    requires i < |chunks|
    ensures |ApplyOverlap(chunks, overlap)| == |chunks|
    ensures ApplyOverlap(chunks, overlap)[i] == Overlapped(chunks, i, overlap)
  {
  }

  /** `all` are the chunks after one level of overlap. */
  predicate IsApplied(all: seq<Piece>, chunks: seq<Piece>, overlap: nat) {
    |all| == |chunks| && forall i :: 0 <= i < |chunks| ==> all[i] == Overlapped(chunks, i, overlap)
  }

  lemma Applies(chunks: seq<Piece>, overlap: nat)
    ensures IsApplied(ApplyOverlap(chunks, overlap), chunks, overlap)
  {
    forall i | 0 <= i < |chunks| ensures ApplyOverlap(chunks, overlap)[i] == Overlapped(chunks, i, overlap) {
      AppliedAt(chunks, i, overlap);
    }
  }

  /** One level of overlap adds one more end of the chunk before. */
  lemma OverlapTidyAt(all: seq<Piece>, chunks: seq<Piece>, i: nat, size: nat, overlap: nat, k: nat)
    requires IsApplied(all, chunks, overlap) && i < |chunks| && TidyAt(chunks, i, size, overlap, k)
    ensures TidyAt(all, i, size, overlap, k + 1)
  {
    if i == 0 {
      RepeatsNothing(chunks[0].overlap, overlap, k);
    } else {
      OverlapRepeats(chunks, i, overlap, k);
      assert all[i] == Overlapped(chunks, i, overlap) && all[i - 1] == Overlapped(chunks, i - 1, overlap);
      assert Follows(all[i], all[i - 1], overlap, k + 1);
    }
  }

  lemma OverlapTidy(all: seq<Piece>, chunks: seq<Piece>, size: nat, overlap: nat, k: nat, more: nat)
    requires Tidy(chunks, size, overlap, k) && more == k + 1 && all == ApplyOverlap(chunks, overlap)
    ensures Tidy(all, size, overlap, more)
  {
    Applies(chunks, overlap);
    forall i | 0 <= i < |all| ensures TidyAt(all, i, size, overlap, more) {
      assert TidyAt(chunks, i, size, overlap, k);
      OverlapTidyAt(all, chunks, i, size, overlap, k);
    }
  }

  lemma FinerOrdered(separators: seq<Text>, sep: Text)
    requires Ordered(separators)
    ensures Ordered(Finer(separators, sep))
    ensures sep in separators && sep != [] ==> Finer(separators, sep) != []
  {
    if sep in separators && separators[0] != sep {
      FinerOrdered(separators[1..], sep);
    }
  }

  lemma {:induction false} UnitsAreSingle(text: Text)
    ensures |Units(text)| == |text|
    ensures forall s :: s in Units(text) ==> |s| == 1
  {
    if text != [] {
      UnitsAreSingle(text[1..]);
    }
  }

  lemma {:induction false} PackTidy(splits: seq<Text>, sep: Text, separators: seq<Text>, size: nat, overlap: nat,
                                    chunks: seq<Piece>, current: Text)
    requires WellFormed(separators) && Ordered(separators) && sep in separators
    requires sep == [] ==> forall s :: s in splits ==> |s| == 1
    requires Tidy(chunks, size, overlap, |separators| - 1) && |current| <= Max(size, 1)
    ensures Tidy(Pack(splits, sep, separators, size, overlap, chunks, current), size, overlap, |separators| - 1)
    decreases |separators|, 0, |splits|
  {
    var k := |separators| - 1;
    FlushTidy(chunks, current, size, overlap, k);
    if splits != [] {
      var s := splits[0];
      if |current| + |sep| + |s| <= size {
        PackTidy(splits[1..], sep, separators, size, overlap, chunks,
                 current + (if current != [] then sep else []) + s);
      } else if |s| > size && |separators| > 1 {
        var finer := Finer(separators, sep);
        FinerOrdered(separators, sep);
        SplitTidy(s, finer, size, overlap);
        TidyAppend(Flush(chunks, current), SplitText(s, finer, size, overlap), size, overlap, k, |finer|);
        PackTidy(splits[1..], sep, separators, size, overlap,
                 Flush(chunks, current) + SplitText(s, finer, size, overlap), []);
      } else {
        PackTidy(splits[1..], sep, separators, size, overlap, Flush(chunks, current), s);
      }
    }
  }

  /** With no separator left, a single unit is one chunk, even when the chunk size is 0. */
  lemma UnitStays(text: Text, overlap: nat)
    requires |text| == 1
    ensures SplitText(text, [], 0, overlap) == [Piece([], text)]
  {
    assert text == [text[0]] && text[1..] == [];
    assert Units(text) == [text] && [] + text == text;
  }

  lemma SplitUnfolds(text: Text, sep: Text, separators: seq<Text>, size: nat, overlap: nat)
    requires WellFormed(separators) && |text| > size && sep == ChooseSeparator(separators, text) && sep in separators
    ensures SplitText(text, separators, size, overlap)
         == ApplyOverlap(Pack(Split(text, sep), sep, separators, size, overlap, [], []), overlap)
  {
  }

  lemma SplitsAreUnits(text: Text, sep: Text)
    ensures sep == [] ==> forall s :: s in Split(text, sep) ==> |s| == 1
  {
    UnitsAreSingle(text);
  }

  /** A text that has to be split, with `k` separators to try: no body is empty or longer than the chunk
      size, and before it stand at most `k` ends of the chunk before. */
  lemma {:induction false} SplitTidy(text: Text, separators: seq<Text>, size: nat, overlap: nat)
    requires WellFormed(separators) && Ordered(separators) && |text| > size
    requires separators == [] ==> |text| == 1
    ensures Tidy(SplitText(text, separators, size, overlap), size, overlap, |separators|)
    decreases |separators|, 1, 0
  {
    var k := |separators|;
    if k == 0 {
      UnitStays(text, overlap);
    } else {
      var sep := ChooseSeparator(separators, text);
      ChosenIsListed(separators, text);
      SplitsAreUnits(text, sep);
      PackTidy(Split(text, sep), sep, separators, size, overlap, [], []);
      SplitUnfolds(text, sep, separators, size, overlap);
      OverlapTidy(SplitText(text, separators, size, overlap),
                  Pack(Split(text, sep), sep, separators, size, overlap, [], []), size, overlap, k - 1, k);
    }
  }

  // ── The length of a chunk ───────────────────────────────────────────────────────

  /** No chunk of the text is longer than the chunk size and one overlap for each separator. */
  ghost predicate Within(text: Text, size: nat, overlap: nat) {
    var chunks := SplitText(text, SEPARATORS, size, overlap);
    forall i :: 0 <= i < |chunks| ==> |chunks[i].Text()| <= Max(size, 1) + 4 * overlap
  }

  lemma SeparatorsFit()
    ensures WellFormed(SEPARATORS) && Ordered(SEPARATORS) && |SEPARATORS| == 4
  {
  }

  /** Every chunk of a text that has to be split has a body, at most as long as the chunk size, and before
      it nothing but at most four ends of the chunk before; the first chunk has nothing before it. */
  lemma ChunkShape(text: Text, size: nat, overlap: nat, i: nat)
    requires |text| > size && i < |SplitText(text, SEPARATORS, size, overlap)|
    ensures var chunks := SplitText(text, SEPARATORS, size, overlap);
            && 0 < |chunks[i].body| <= Max(size, 1)
            && (i == 0 ==> chunks[0].overlap == [])
            && (i > 0 ==> Repeats(chunks[i].overlap, chunks[i - 1].Text(), overlap, 4))
  {
    var chunks := SplitText(text, SEPARATORS, size, overlap);
    SeparatorsFit();
    SplitTidy(text, SEPARATORS, size, overlap);
    assert TidyAt(chunks, i, size, overlap, 4);
    if i == 0 {
      RepeatsNothing(chunks[0].overlap, overlap, 4);
    }
  }

  lemma OverlapBounds(text: Text, size: nat, overlap: nat)
    requires overlap > 0
    ensures Within(text, size, overlap)
  {
    var chunks := SplitText(text, SEPARATORS, size, overlap);
    forall i | 0 <= i < |chunks| ensures |chunks[i].Text()| <= Max(size, 1) + 4 * overlap {
      if |text| > size {
        ChunkShape(text, size, overlap, i);
        if i > 0 {
          RepeatsLength(chunks[i].overlap, chunks[i - 1].Text(), overlap, 4);
        }
      }
    }
  }

  /** `n` times the letter `a`. */
  function Letters(n: nat): Text {
    if n == 0 then [] else [97] + Letters(n - 1)
  }

  lemma {:induction false} LettersAre(n: nat)
    ensures |Letters(n)| == n
    ensures forall k :: 0 <= k < n ==> Letters(n)[k] == 97
  {
    if n > 0 {
      LettersAre(n - 1);
    }
  }

  lemma {:induction false} LettersInclude(n: nat, sep: Text)
    requires sep != [] && sep[0] != 97
    ensures !Includes(Letters(n), sep)
  {
    if n > 0 {
      LettersInclude(n - 1, sep);
      assert Letters(n)[1..] == Letters(n - 1);
    }
  }

  lemma LettersHaveNoSeparator(n: nat)
    ensures ChooseSeparator(SEPARATORS, Letters(n)) == []
  {
    LettersInclude(n, [LF, LF]);
    LettersInclude(n, [LF]);
    LettersInclude(n, [SPACE]);
    assert SEPARATORS[1..] == [[LF], [SPACE], []] && SEPARATORS[2..] == [[SPACE], []] && SEPARATORS[3..] == [[]];
    assert SEPARATORS[1..][1..] == SEPARATORS[2..] && SEPARATORS[2..][1..] == SEPARATORS[3..];
    IncludesEmpty(Letters(n));
    assert ChooseSeparator(SEPARATORS[3..], Letters(n)) == [];
    assert ChooseSeparator(SEPARATORS[2..], Letters(n)) == [];
    assert ChooseSeparator(SEPARATORS[1..], Letters(n)) == [];
  }

  lemma {:induction false} PackLetters(current: nat, more: nat, size: nat)
    requires 0 < size && current <= size && current + more == size + 1
    ensures Pack(Units(Letters(more)), [], SEPARATORS, size, 0, [], Letters(current))
         == [Piece([], Letters(size)), Piece([], Letters(1))]
    decreases more
  {
    var splits := Units(Letters(more));
    LettersAre(current);
    LettersAre(more);
    assert Letters(more)[1..] == Letters(more - 1);
    assert splits[0] == [97] == Letters(1) && splits[1..] == Units(Letters(more - 1));
    if more == 1 {
      assert splits[1..] == [];
    } else {
      LettersGrow(current);
      assert Letters(current) + [] + [97] == Letters(current + 1);
      PackLetters(current + 1, more - 1, size);
    }
  }

  lemma {:induction false} LettersGrow(n: nat)
    ensures Letters(n) + [97] == Letters(n + 1)
  {
    if n > 0 {
      LettersGrow(n - 1);
      assert Letters(n) + [97] == [97] + (Letters(n - 1) + [97]);
    }
  }

  /** Without overlap the last `-0` units are the whole chunk before, so that the second chunk is the whole text. */
  lemma NoOverlapExceeds(size: nat)
    requires size > 0
    ensures !Within(Letters(size + 1), size, 0)
  {
    var text := Letters(size + 1);
    LettersAre(size + 1);
    LettersAre(size);
    LettersHaveNoSeparator(size + 1);
    PackLetters(0, size + 1, size);
    var packed := [Piece([], Letters(size)), Piece([], Letters(1))];
    assert SplitText(text, SEPARATORS, size, 0) == ApplyOverlap(packed, 0);
    AppliedAt(packed, 1, 0);
    assert |SplitText(text, SEPARATORS, size, 0)[1].Text()| == size + 1;
  }

  lemma FinerThanAll()
    ensures Finer(SEPARATORS, []) == []
  {
    var three, two, one := SEPARATORS[1..], SEPARATORS[2..], SEPARATORS[3..];
    assert one == [[]] && two[1..] == one && three[1..] == two;
    assert [] in two && [] in three;
    assert Finer(one, []) == [];
    assert Finer(two, []) == Finer(one, []);
    assert Finer(three, []) == Finer(two, []);
  }

  /** The same for the chunk size 0, where every unit recurses and comes back as a chunk of its own. */
  lemma NoOverlapExceedsZero()
    ensures !Within(Letters(2), 0, 0)
  {
    var unit, text := Letters(1), Letters(2);
    LettersHaveNoSeparator(2);
    UnitStays(unit, 0);
    var one, none: seq<Piece> := [Piece([], unit)], [];
    var last: seq<Text> := [unit];
    assert text == [97, 97] && text[1..] == unit && unit == [97] && unit[1..] == [];
    assert Units(unit) == [unit] && Units(text) == [unit, unit];
    FinerThanAll();
    calc {
      Pack([unit, unit], [], SEPARATORS, 0, 0, none, []);
      { assert [unit, unit][1..] == last && none + one == one; }
      Pack(last, [], SEPARATORS, 0, 0, one, []);
      { assert last[1..] == []; }
      Pack([], [], SEPARATORS, 0, 0, one + one, []);
      one + one;
    }
    AppliedAt(one + one, 1, 0);
    assert SplitText(text, SEPARATORS, 0, 0) == ApplyOverlap(one + one, 0);
    assert |SplitText(text, SEPARATORS, 0, 0)[1].Text()| == 2;
  }

  /** The bound on the length of a chunk holds for all texts exactly when there is some overlap. */
  lemma LengthBoundIff(size: nat, overlap: nat)
    ensures (forall text :: Within(text, size, overlap)) <==> overlap > 0
  {
    if overlap > 0 {
      forall text ensures Within(text, size, overlap) {
        OverlapBounds(text, size, overlap);
      }
    } else if size > 0 {
      NoOverlapExceeds(size);
    } else {
      NoOverlapExceedsZero();
    }
  }

  // ── The bound is reached ────────────────────────────────────────────────────────

  const B: Text := [98]

  lemma {:induction false} SplitOnAbsent(text: Text, sep: Text)
    requires sep != [] && !Includes(text, sep)
    ensures SplitOn(text, sep) == [text]
  {
    if text != [] {
      SplitOnAbsent(text[1..], sep);
      assert [text[0]] + text[1..] == text;
    }
  }

  lemma SplitAfterB(rest: Text, sep: Text)
    requires sep != [] && sep[0] != 98 && !Includes(rest, sep)
    ensures Includes(B + sep + rest, sep)
    ensures SplitOn(B + sep + rest, sep) == [B, rest]
  {
    var text := B + sep + rest;
    assert text[1..] == sep + rest && (sep + rest)[|sep|..] == rest;
    SplitOnAbsent(rest, sep);
    assert SplitOn(text[1..], sep) == [[], rest];
    assert [text[0]] + [] == B;
  }

  /** The chunks of a level whose first chunk is a single letter. */
  function Wrap(chunks: seq<Piece>, overlap: nat): seq<Piece> {
    ApplyOverlap([Piece([], B)] + chunks, overlap)
  }

  /** A letter, the first separator, and a long rest without it: one small chunk, and the chunks of the rest. */
  lemma OneLevel(rest: Text, separators: seq<Text>, size: nat, overlap: nat)
    requires WellFormed(separators) && |separators| > 1 && size > 0 && |rest| > size
    requires separators[0] != [] && separators[0][0] != 98 && !Includes(rest, separators[0])
    ensures WellFormed(separators[1..])
    ensures SplitText(B + separators[0] + rest, separators, size, overlap)
         == Wrap(SplitText(rest, separators[1..], size, overlap), overlap)
  {
    var sep, sub := separators[0], SplitText(rest, separators[1..], size, overlap);
    SplitAfterB(rest, sep);
    assert Finer(separators, sep) == separators[1..];
    assert [B, rest][1..] == [rest] && [rest][1..] == [];
    assert [] + [] + B == B && [] + [Piece([], B)] + sub == [Piece([], B)] + sub;
    calc {
      Pack([B, rest], sep, separators, size, overlap, [], []);
      Pack([rest], sep, separators, size, overlap, [], B);
      Pack([], sep, separators, size, overlap, [Piece([], B)] + sub, []);
      [Piece([], B)] + sub;
    }
  }

  /** The length of a chunk. */
  function Length(p: Piece): nat {
    |p.overlap| + |p.body|
  }

  /** The last chunk has length `n`, and the one before it is long enough for a whole overlap. */
  predicate EndsWith(chunks: seq<Piece>, overlap: nat, n: nat) {
    && |chunks| >= 2
    && Length(chunks[|chunks| - 2]) >= overlap
    && Length(chunks[|chunks| - 1]) == n
  }

  lemma OverlappedLength(chunks: seq<Piece>, i: nat, overlap: nat)
    requires i < |chunks| && overlap > 0
    ensures Length(Overlapped(chunks, i, overlap)) >= Length(chunks[i])
    ensures i > 0 && Length(chunks[i - 1]) >= overlap ==>
              Length(Overlapped(chunks, i, overlap)) == overlap + Length(chunks[i])
  {
  }

  lemma AppliedLength(all: seq<Piece>, chunks: seq<Piece>, overlap: nat, i: nat)
    requires IsApplied(all, chunks, overlap) && i < |chunks| && overlap > 0
    ensures Length(all[i]) >= Length(chunks[i])
    ensures i > 0 && Length(chunks[i - 1]) >= overlap ==> Length(all[i]) == overlap + Length(chunks[i])
  {
    OverlappedLength(chunks, i, overlap);
    assert all[i] == Overlapped(chunks, i, overlap);
  }

  lemma EndsWithLonger(all: seq<Piece>, chunks: seq<Piece>, overlap: nat, n: nat)
    requires EndsWith(chunks, overlap, n) && |all| == |chunks|
    requires Length(all[|all| - 2]) >= Length(chunks[|chunks| - 2])
    requires Length(all[|all| - 1]) == overlap + Length(chunks[|chunks| - 1])
    ensures EndsWith(all, overlap, n + overlap)
  {
  }

  lemma OneMoreOverlap(chunks: seq<Piece>, overlap: nat, n: nat)
    requires overlap > 0 && EndsWith(chunks, overlap, n)
    ensures EndsWith(ApplyOverlap(chunks, overlap), overlap, n + overlap)
  {
    var all := ApplyOverlap(chunks, overlap);
    Applies(chunks, overlap);
    AppliedLength(all, chunks, overlap, |chunks| - 1);
    AppliedLength(all, chunks, overlap, |chunks| - 2);
    EndsWithLonger(all, chunks, overlap, n);
  }

  lemma {:induction false} PackTwice(current: nat, more: nat, size: nat, overlap: nat)
    requires 0 < size && current <= size && current + more == 2 * size
    ensures Pack(Units(Letters(more)), [], [[]], size, overlap, [], Letters(current))
         == [Piece([], Letters(size)), Piece([], Letters(size))]
    decreases more
  {
    var splits := Units(Letters(more));
    LettersAre(current);
    LettersAre(more);
    assert Letters(more)[1..] == Letters(more - 1);
    assert splits[0] == [97] == Letters(1) && splits[1..] == Units(Letters(more - 1));
    if current < size {
      LettersGrow(current);
      assert Letters(current) + [] + [97] == Letters(current + 1);
      PackTwice(current + 1, more - 1, size, overlap);
    } else {
      assert Flush([], Letters(size)) == [Piece([], Letters(size))];
      PackRest(1, more - 1, size, overlap);
    }
  }

  lemma {:induction false} PackRest(current: nat, more: nat, size: nat, overlap: nat)
    requires 0 < current && current + more == size
    ensures Pack(Units(Letters(more)), [], [[]], size, overlap, [Piece([], Letters(size))], Letters(current))
         == [Piece([], Letters(size)), Piece([], Letters(size))]
    decreases more
  {
    LettersAre(current);
    if more > 0 {
      var splits := Units(Letters(more));
      LettersAre(more);
      assert Letters(more)[1..] == Letters(more - 1);
      assert splits[0] == [97] == Letters(1) && splits[1..] == Units(Letters(more - 1));
      LettersGrow(current);
      assert Letters(current) + [] + [97] == Letters(current + 1);
      PackRest(current + 1, more - 1, size, overlap);
    }
  }

  lemma LastLevel(size: nat, overlap: nat)
    requires 0 < overlap <= size
    ensures EndsWith(SplitText(Letters(2 * size), [[]], size, overlap), overlap, size + overlap)
  {
    LettersAre(2 * size);
    LettersAre(size);
    PackTwice(0, 2 * size, size, overlap);
    IncludesEmpty(Letters(2 * size));
    OneMoreOverlap([Piece([], Letters(size)), Piece([], Letters(size))], overlap, size);
  }

  lemma EndsWithMore(chunks: seq<Piece>, overlap: nat, n: nat)
    requires EndsWith(chunks, overlap, n)
    ensures EndsWith([Piece([], B)] + chunks, overlap, n)
  {
  }

  lemma WrapIsLonger(chunks: seq<Piece>, overlap: nat, n: nat)
    requires overlap > 0 && EndsWith(chunks, overlap, n)
    ensures EndsWith(Wrap(chunks, overlap), overlap, n + overlap)
  {
    EndsWithMore(chunks, overlap, n);
    OneMoreOverlap([Piece([], B)] + chunks, overlap, n);
  }

  lemma ThreeWraps(chunks: seq<Piece>, overlap: nat, n: nat)
    requires overlap > 0 && EndsWith(chunks, overlap, n)
    ensures EndsWith(Wrap(Wrap(Wrap(chunks, overlap), overlap), overlap), overlap, n + 3 * overlap)
  {
    var one := Wrap(chunks, overlap);
    WrapIsLonger(chunks, overlap, n);
    var two := Wrap(one, overlap);
    WrapIsLonger(one, overlap, n + overlap);
    WrapIsLonger(two, overlap, n + 2 * overlap);
  }

  lemma IncludesCons(c: CodeUnit, text: Text, sep: Text)
    requires !Includes(text, sep) && !(sep <= [c] + text)
    ensures !Includes([c] + text, sep)
  {
    assert ([c] + text)[1..] == text;
  }

  /** A letter, the one-unit separator `c`, and a rest that starts with a letter. */
  lemma StillLack(c: CodeUnit, rest: Text, sep: Text)
    requires rest != [] && rest[0] != LF && !Includes(rest, sep) && (sep == [LF, LF] || (sep == [LF] && c != LF))
    ensures !Includes(B + [c] + rest, sep)
  {
    assert ([c] + rest)[1] == rest[0];
    IncludesCons(c, rest, sep);
    assert B + [c] + rest == [98] + ([c] + rest) && ([98] + ([c] + rest))[0] == 98;
    IncludesCons(98, [c] + rest, sep);
  }

  lemma WordsChunks(size: nat, overlap: nat, finest: seq<Text>) returns (words: Text)
    requires 0 < size && finest == [[SPACE], []]
    ensures |words| > size && words[0] == 98 && !Includes(words, [LF]) && !Includes(words, [LF, LF])
    ensures SplitText(words, finest, size, overlap) == Wrap(SplitText(Letters(2 * size), [[]], size, overlap), overlap)
  {
    var rest := Letters(2 * size);
    LettersAre(2 * size);
    LettersInclude(2 * size, [SPACE]);
    LettersInclude(2 * size, [LF]);
    LettersInclude(2 * size, [LF, LF]);
    words := B + [SPACE] + rest;
    StillLack(SPACE, rest, [LF]);
    StillLack(SPACE, rest, [LF, LF]);
    assert finest[1..] == [[]];
    OneLevel(rest, finest, size, overlap);
  }

  lemma LinesChunks(words: Text, size: nat, overlap: nat, finer: seq<Text>, finest: seq<Text>) returns (text: Text)
    requires |words| > size > 0 && words[0] == 98 && !Includes(words, [LF]) && !Includes(words, [LF, LF])
    requires finest == [[SPACE], []] && finer == [[LF]] + finest
    ensures SplitText(text, [[LF, LF]] + finer, size, overlap)
         == Wrap(Wrap(SplitText(words, finest, size, overlap), overlap), overlap)
  {
    var lines, separators := B + [LF] + words, [[LF, LF]] + finer;
    assert finer[1..] == finest && separators[1..] == finer;
    OneLevel(words, finer, size, overlap);
    StillLack(LF, words, [LF, LF]);
    text := B + [LF, LF] + lines;
    OneLevel(lines, separators, size, overlap);
  }

  /** The length of the last chunk. */
  function LastLength(chunks: seq<Piece>): (n: nat)
    requires chunks != []
    ensures n == |chunks[|chunks| - 1].Text()|
  {
    Length(chunks[|chunks| - 1])
  }

  /** Some text has a chunk of exactly the greatest length, for every chunk size that is at least the overlap. */
  lemma BoundIsReached(size: nat, overlap: nat) returns (text: Text)
    requires 0 < overlap <= size
    ensures var chunks := SplitText(text, SEPARATORS, size, overlap);
            chunks != [] && LastLength(chunks) == size + 4 * overlap
  {
    var finest: seq<Text> := [[SPACE], []];
    var finer := [[LF]] + finest;
    assert SEPARATORS == [[LF, LF]] + finer;
    var words := WordsChunks(size, overlap, finest);
    text := LinesChunks(words, size, overlap, finer, finest);
    var last := SplitText(Letters(2 * size), [[]], size, overlap);
    LastLevel(size, overlap);
    ThreeWraps(last, overlap, size + overlap);
  }
}
