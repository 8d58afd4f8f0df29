/** What the chunker's packing comes to, without its loop: the separator is the first that occurs, the splits are cut at
    its leftmost occurrences, and every chunk takes as many splits as fit. */
module ChunkPacking {
  import opened Wrappers
  import opened Chunking
  import opened ChunkBounds

  // ── The separator and the splits ────────────────────────────────────────────────

  predicate OccursAt(text: Text, s: Text, i: nat) {
    i + |s| <= |text| && text[i..i + |s|] == s
  }

  predicate Occurs(text: Text, s: Text) {
    exists i :: 0 <= i <= |text| && OccursAt(text, s, i)
  }

  lemma OccursBehind(text: Text, s: Text, i: nat)
    requires text != []
    ensures OccursAt(text, s, i + 1) <==> OccursAt(text[1..], s, i)
  {
    if i + |s| <= |text[1..]| {
      assert text[1..][i..i + |s|] == text[i + 1..i + 1 + |s|];
    }
  }

  lemma {:induction false} IncludedOccurs(text: Text, s: Text) returns (i: nat)
    requires Includes(text, s)
    ensures OccursAt(text, s, i)
    decreases |text|
  {
    if s <= text {
      i := 0;
    } else {
      var k := IncludedOccurs(text[1..], s);
      OccursBehind(text, s, k);
      i := k + 1;
    }
  }

  lemma {:induction false} OccurringIsIncluded(text: Text, s: Text, i: nat)
    requires OccursAt(text, s, i)
    ensures Includes(text, s)
    decreases i
  {
    if i > 0 && text != [] {
      OccursBehind(text, s, i - 1);
      OccurringIsIncluded(text[1..], s, i - 1);
    }
  }

  lemma IncludesIff(text: Text, s: Text)
    ensures Includes(text, s) <==> Occurs(text, s)
  {
    if Includes(text, s) {
      var i := IncludedOccurs(text, s);
      assert 0 <= i <= |text| && OccursAt(text, s, i);
    }
    if Occurs(text, s) {
      var i :| 0 <= i <= |text| && OccursAt(text, s, i);
      OccurringIsIncluded(text, s, i);
    }
  }

  predicate FirstOccurring(separators: seq<Text>, text: Text, i: nat) {
    i < |separators| && Occurs(text, separators[i]) && forall j :: 0 <= j < i ==> !Occurs(text, separators[j])
  }

  lemma {:induction false} ChosenOccursFirst(separators: seq<Text>, text: Text) returns (i: nat)
    requires WellFormed(separators) && separators != []
    ensures FirstOccurring(separators, text, i) && ChooseSeparator(separators, text) == separators[i]
    decreases |separators|
  {
    IncludesIff(text, separators[0]);
    if Includes(text, separators[0]) {
      i := 0;
    } else {
      IncludesEmpty(text);
      var rest := separators[1..];
      var k := ChosenOccursFirst(rest, text);
      i := k + 1;
      assert forall j :: 0 < j < i ==> separators[j] == rest[j - 1];
    }
  }

  lemma {:induction false} FinerIsRest(separators: seq<Text>, i: nat)
    requires i < |separators| && forall j :: 0 <= j < i ==> separators[j] != separators[i]
    ensures Finer(separators, separators[i]) == separators[i + 1..]
    decreases i
  {
    if i > 0 {
      var rest := separators[1..];
      assert forall j :: 0 <= j < i - 1 ==> rest[j] == separators[j + 1];
      FinerIsRest(rest, i - 1);
      assert rest[i - 1 + 1..] == separators[i + 1..];
    }
  }

  /** The text is split by the first separator of the list that occurs in it, and what is too long is split again by
      those behind it. */
  lemma ChosenIsFirst(separators: seq<Text>, text: Text) returns (i: nat)
    requires WellFormed(separators) && separators != []
    ensures FirstOccurring(separators, text, i) && ChooseSeparator(separators, text) == separators[i]
    ensures Finer(separators, separators[i]) == separators[i + 1..]
  {
    i := ChosenOccursFirst(separators, text);
    FinerIsRest(separators, i);
  }

  /** A separator that starts inside the split, or reaches into it, does not occur in the split and its end. */
  predicate CutFirst(split: Text, sep: Text) {
    forall i :: 0 <= i < |split| ==> !OccursAt(split + sep, sep, i)
  }

  lemma CutFirstCons(c: CodeUnit, split: Text, sep: Text)
    requires CutFirst(split, sep) && !OccursAt([c] + split + sep, sep, 0)
    ensures CutFirst([c] + split, sep)
  {
    var text := [c] + split + sep;
    forall i | 0 <= i < |[c] + split| ensures !OccursAt(text, sep, i) {
      if i > 0 && OccursAt(text, sep, i) {
        assert (split + sep)[i - 1..i - 1 + |sep|] == text[i..i + |sep|];
        assert OccursAt(split + sep, sep, i - 1);
      }
    }
  }

  /** The splits are cut at the leftmost occurrences: in each split but the last, followed by its separator, there is
      no earlier occurrence, and in the last there is none. */
  predicate CutLeftmost(splits: seq<Text>, sep: Text) {
    && splits != [] && !Occurs(splits[|splits| - 1], sep)
    && forall k :: 0 <= k < |splits| - 1 ==> CutFirst(splits[k], sep)
  }

  lemma FirstSplitIsPrefix(splits: seq<Text>, sep: Text)
    requires |splits| > 1
    ensures splits[0] + sep <= Remaining(splits, sep, true)
  {
    var more := splits[1] + Remaining(splits[1..][1..], sep, false);
    assert Remaining(splits[1..], sep, false) == sep + more;
    assert Remaining(splits, sep, true) == splits[0] + sep + more;
  }

  lemma NotAtStart(c: CodeUnit, start: Text, rest: Text, sep: Text)
    requires start <= rest && |sep| <= |start| && !(sep <= [c] + rest)
    ensures !OccursAt([c] + start, sep, 0)
  {
    assert [c] + start <= [c] + rest;
  }

  lemma StartsSame(text: Text, sep: Text)
    requires sep != [] && text != [] && !(sep <= text)
    ensures var splits := SplitOn(text[1..], sep);
            |splits| > 1 ==> !OccursAt([text[0]] + splits[0] + sep, sep, 0)
  {
    var splits := SplitOn(text[1..], sep);
    if |splits| > 1 {
      SplitOnJoin(text[1..], sep);
      FirstSplitIsPrefix(splits, sep);
      assert [text[0]] + text[1..] == text;
      NotAtStart(text[0], splits[0] + sep, text[1..], sep);
      assert [text[0]] + (splits[0] + sep) == [text[0]] + splits[0] + sep;
    }
  }

  lemma CutLeftmostEmpty(rest: seq<Text>, sep: Text)
    requires CutLeftmost(rest, sep)
    ensures CutLeftmost([[]] + rest, sep)
  {
    var splits := [[]] + rest;
    assert forall k :: 1 <= k < |splits| ==> splits[k] == rest[k - 1];
  }

  lemma CutLeftmostCons(first: Text, rest: seq<Text>, sep: Text)
    requires CutLeftmost(rest, sep)
    requires if |rest| > 1 then CutFirst(first, sep) else !Occurs(first, sep)
    ensures CutLeftmost([first] + rest[1..], sep)
  {
    var splits := [first] + rest[1..];
    assert forall k :: 1 <= k < |splits| ==> splits[k] == rest[k];
  }

  lemma {:induction false} SplitsAreLeftmost(text: Text, sep: Text)
    requires sep != []
    ensures CutLeftmost(SplitOn(text, sep), sep)
    decreases |text|
  {
    if text == [] {
      assert forall i :: 0 <= i <= 0 ==> !OccursAt([], sep, i);
    } else if sep <= text {
      SplitsAreLeftmost(text[|sep|..], sep);
      CutLeftmostEmpty(SplitOn(text[|sep|..], sep), sep);
    } else {
      var rest := SplitOn(text[1..], sep);
      SplitsAreLeftmost(text[1..], sep);
      if |rest| > 1 {
        StartsSame(text, sep);
        CutFirstCons(text[0], rest[0], sep);
      } else {
        OnlySplit(text, rest, sep);
      }
      CutLeftmostCons([text[0]] + rest[0], rest, sep);
    }
  }

  lemma OnlySplit(text: Text, rest: seq<Text>, sep: Text)
    requires sep != [] && text != [] && !(sep <= text) && rest == SplitOn(text[1..], sep) && |rest| == 1
    requires !Occurs(rest[0], sep)
    ensures !Occurs([text[0]] + rest[0], sep)
  {
    SplitOnJoin(text[1..], sep);
    assert rest[1..] == [] && rest[0] == text[1..] && [text[0]] + rest[0] == text;
    IncludesIff(text[1..], sep);
    IncludesIff(text, sep);
  }

  // ── Packing ─────────────────────────────────────────────────────────────────────

  /** The first `n` splits, joined, are the body: they fit, and the next split, if there is one, does not fit behind
      them. */
  predicate Fills(splits: seq<Text>, n: nat, sep: Text, size: nat, body: Text) {
    && 0 < n <= |splits|
    && body == Remaining(splits[..n], sep, true) && |body| <= Max(size, 1)
    && (n < |splits| ==> |body| + |sep| + |splits[n]| > size)
  }

  /** The bodies of one level: each takes as many splits as fit; an empty split does not start one; and a split that
      is too long alone is replaced by `sub`, its own bodies, if it can be split again. */
  ghost predicate Greedy(splits: seq<Text>, sep: Text, size: nat, again: bool, sub: Text -> seq<Text>,
                         bodies: seq<Text>)
    decreases |splits|
  {
    if splits == [] then bodies == []
    else if splits[0] == [] then Greedy(splits[1..], sep, size, again, sub, bodies)
    else if again && |splits[0]| > size then
      sub(splits[0]) <= bodies && Greedy(splits[1..], sep, size, again, sub, bodies[|sub(splits[0])|..])
    else
      && bodies != []
      && exists n: nat ::
           Fills(splits, n, sep, size, bodies[0]) && Greedy(splits[n..], sep, size, again, sub, bodies[1..])
  }

  lemma {:induction false} JoinMore(g: seq<Text>, s: Text, sep: Text, first: bool)
    requires g != []
    ensures Remaining(g + [s], sep, first) == Remaining(g, sep, first) + sep + s
    decreases |g|
  {
    var lead: Text := if first then [] else sep;
    assert (g + [s])[1..] == g[1..] + [s];
    if |g| == 1 {
      assert g[1..] == [] && (g[1..] + [s])[1..] == [];
      assert Remaining([s], sep, false) == sep + s + [];
      assert Remaining(g, sep, first) == lead + g[0] + [];
    } else {
      JoinMore(g[1..], s, sep, false);
    }
  }

  lemma JoinIsLonger(g: seq<Text>, sep: Text)
    requires g != []
    ensures |Remaining(g, sep, true)| >= |g[0]|
  {
  }

  function Finished(current: Text): seq<Text> {
    if current == [] then [] else [current]
  }

  /** The bodies that the packing loop adds from a chunk in progress. */
  function Packing(splits: seq<Text>, sep: Text, size: nat, again: bool, sub: Text -> seq<Text>, current: Text)
      : seq<Text>
    decreases |splits|
  {
    if splits == [] then Finished(current)
    else
      var s, rest := splits[0], splits[1..];
      if |current| + |sep| + |s| <= size
      then Packing(rest, sep, size, again, sub, current + (if current != [] then sep else []) + s)
      else if again && |s| > size then Finished(current) + (sub(s) + Packing(rest, sep, size, again, sub, []))
      else Finished(current) + Packing(rest, sep, size, again, sub, s)
  }

  /** What `sub` stands for: the bodies of a split that is split again by the finer separators. */
  ghost predicate IsFiner(sub: Text -> seq<Text>, sep: Text, separators: seq<Text>, size: nat, overlap: nat)
    requires WellFormed(separators)
  {
    forall s :: sub(s) == Bodies(SplitText(s, Finer(separators, sep), size, overlap))
  }

  lemma FlushBodies(chunks: seq<Piece>, current: Text)
    ensures Bodies(Flush(chunks, current)) == Bodies(chunks) + Finished(current)
  {
    BodiesAppend(chunks, [Piece([], current)]);
  }

  lemma FourParts(a: seq<Text>, b: seq<Text>, c: seq<Text>, d: seq<Text>)
    ensures a + b + c + d == a + (b + (c + d))
  {
  }

  /** What the loop of the chunker adds to its chunks is what `Packing` says. */
  predicate Adds(splits: seq<Text>, sep: Text, separators: seq<Text>, size: nat, overlap: nat, chunks: seq<Piece>,
                 current: Text, sub: Text -> seq<Text>)
    requires WellFormed(separators) && (separators != [] ==> sep in separators)
  {
    Bodies(Pack(splits, sep, separators, size, overlap, chunks, current))
    == Bodies(chunks) + Packing(splits, sep, size, |separators| > 1, sub, current)
  }

  lemma AddsRecursing(splits: seq<Text>, sep: Text, separators: seq<Text>, size: nat, overlap: nat,
                      chunks: seq<Piece>, current: Text, sub: Text -> seq<Text>, more: seq<Piece>)
    requires WellFormed(separators) && (separators != [] ==> sep in separators)
    requires splits != [] && |current| + |sep| + |splits[0]| > size && |splits[0]| > size && |separators| > 1
    requires more == SplitText(splits[0], Finer(separators, sep), size, overlap) && sub(splits[0]) == Bodies(more)
    requires Adds(splits[1..], sep, separators, size, overlap, Flush(chunks, current) + more, [], sub)
    ensures Adds(splits, sep, separators, size, overlap, chunks, current, sub)
  {
    FlushBodies(chunks, current);
    BodiesAppend(Flush(chunks, current), more);
    FourParts(Bodies(chunks), Finished(current), Bodies(more), Packing(splits[1..], sep, size, true, sub, []));
  }

  lemma AddsStarting(splits: seq<Text>, sep: Text, separators: seq<Text>, size: nat, overlap: nat,
                     chunks: seq<Piece>, current: Text, sub: Text -> seq<Text>)
    requires WellFormed(separators) && (separators != [] ==> sep in separators)
    requires splits != [] && |current| + |sep| + |splits[0]| > size && !(|splits[0]| > size && |separators| > 1)
    requires Adds(splits[1..], sep, separators, size, overlap, Flush(chunks, current), splits[0], sub)
    ensures Adds(splits, sep, separators, size, overlap, chunks, current, sub)
  {
    FlushBodies(chunks, current);
    FourParts(Bodies(chunks), Finished(current), [],
              Packing(splits[1..], sep, size, |separators| > 1, sub, splits[0]));
  }

  lemma {:induction false} PackAdds(splits: seq<Text>, sep: Text, separators: seq<Text>, size: nat, overlap: nat,
                                    chunks: seq<Piece>, current: Text, sub: Text -> seq<Text>)
    requires WellFormed(separators) && (separators != [] ==> sep in separators)
    requires IsFiner(sub, sep, separators, size, overlap)
    ensures Adds(splits, sep, separators, size, overlap, chunks, current, sub)
    decreases |splits|
  {
    if splits == [] {
      FlushBodies(chunks, current);
    } else {
      var s, rest := splits[0], splits[1..];
      if |current| + |sep| + |s| <= size {
        PackAdds(rest, sep, separators, size, overlap, chunks, current + (if current != [] then sep else []) + s, sub);
      } else if |s| > size && |separators| > 1 {
        var more := SplitText(s, Finer(separators, sep), size, overlap);
        PackAdds(rest, sep, separators, size, overlap, Flush(chunks, current) + more, [], sub);
        AddsRecursing(splits, sep, separators, size, overlap, chunks, current, sub, more);
      } else {
        PackAdds(rest, sep, separators, size, overlap, Flush(chunks, current), s, sub);
        AddsStarting(splits, sep, separators, size, overlap, chunks, current, sub);
      }
    }
  }

  /** The splits of the chunk in progress: none, or a first that is not empty and can start one. */
  predicate InProgress(g: seq<Text>, sep: Text, size: nat, again: bool, current: Text) {
    if g == [] then current == []
    else
      && g[0] != [] && !(again && |g[0]| > size)
      && current == Remaining(g, sep, true) && |current| <= Max(size, 1)
  }

  /** Each split fits, or is a single unit, or can be split again. */
  predicate CanPack(splits: seq<Text>, size: nat, again: bool) {
    again || forall s :: s in splits ==> |s| <= Max(size, 1)
  }

  /** The chunk in progress, if there is one, is complete when the next split does not fit behind it. */
  lemma DoneThenGreedy(g: seq<Text>, splits: seq<Text>, sep: Text, size: nat, again: bool, sub: Text -> seq<Text>,
                       current: Text, bodies: seq<Text>)
    requires InProgress(g, sep, size, again, current)
    requires g != [] && splits != [] ==> |current| + |sep| + |splits[0]| > size
    requires Greedy(splits, sep, size, again, sub, bodies)
    ensures Greedy(g + splits, sep, size, again, sub, Finished(current) + bodies)
  {
    if g == [] {
      assert g + splits == splits && [] + bodies == bodies;
    } else {
      JoinIsLonger(g, sep);
      var all, n, more := g + splits, |g|, [current] + bodies;
      assert all[..n] == g && all[n..] == splits && more[1..] == bodies && all[0] == g[0];
      assert Fills(all, n, sep, size, more[0]);
    }
  }

  lemma LongThenGreedy(splits: seq<Text>, sep: Text, size: nat, again: bool, sub: Text -> seq<Text>, bodies: seq<Text>)
    requires splits != [] && again && |splits[0]| > size && Greedy(splits[1..], sep, size, again, sub, bodies)
    ensures Greedy(splits, sep, size, again, sub, sub(splits[0]) + bodies)
  {
    assert (sub(splits[0]) + bodies)[|sub(splits[0])|..] == bodies;
  }

  lemma {:induction false} PackIsGreedy(g: seq<Text>, splits: seq<Text>, sep: Text, size: nat, again: bool,
                                        sub: Text -> seq<Text>, current: Text)
    requires CanPack(splits, size, again) && InProgress(g, sep, size, again, current)
    ensures Greedy(g + splits, sep, size, again, sub, Packing(splits, sep, size, again, sub, current))
    decreases |splits|, 0
  {
    if splits == [] {
      DoneThenGreedy(g, [], sep, size, again, sub, current, []);
      assert Finished(current) + [] == Finished(current);
    } else {
      var s, rest := splits[0], splits[1..];
      assert splits == [s] + rest;
      if |current| + |sep| + |s| <= size && g != [] {
        JoinMore(g, s, sep, true);
        JoinIsLonger(g, sep);
        assert g + splits == (g + [s]) + rest;
        PackIsGreedy(g + [s], rest, sep, size, again, sub, current + sep + s);
      } else if again && |s| > size {
        var bodies := Packing(rest, sep, size, again, sub, []);
        PackIsGreedy([], rest, sep, size, again, sub, []);
        assert [] + rest == rest;
        LongThenGreedy(splits, sep, size, again, sub, bodies);
        DoneThenGreedy(g, splits, sep, size, again, sub, current, sub(s) + bodies);
      } else {
        var bodies := Packing(rest, sep, size, again, sub, s);
        StartsGroup(s, rest, sep, size, again, sub);
        DoneThenGreedy(g, splits, sep, size, again, sub, current, bodies);
        assert g == [] ==> current + [] + s == s && Finished(current) + bodies == bodies;
      }
    }
  }

  /** A split that is not too long starts the next chunk, unless it is empty. */
  lemma {:induction false} StartsGroup(s: Text, rest: seq<Text>, sep: Text, size: nat, again: bool,
                                       sub: Text -> seq<Text>)
    requires CanPack([s] + rest, size, again) && !(again && |s| > size)
    ensures Greedy([s] + rest, sep, size, again, sub, Packing(rest, sep, size, again, sub, s))
    decreases |rest|, 1
  {
    var splits := [s] + rest;
    assert splits[1..] == rest && [] + rest == rest && s in splits;
    if s == [] {
      PackIsGreedy([], rest, sep, size, again, sub, []);
    } else {
      assert [s][1..] == [] && Remaining([s], sep, true) == [] + s + [] == s;
      PackIsGreedy([s], rest, sep, size, again, sub, s);
    }
  }

  lemma SplitsCanPack(text: Text, separators: seq<Text>, size: nat)
    requires WellFormed(separators)
    ensures var sep := ChooseSeparator(separators, text);
            (separators != [] ==> sep in separators) && CanPack(Split(text, sep), size, |separators| > 1)
            && (|separators| > 1 || [] !in Split(text, sep))
  {
    ChosenIsListed(separators, text);
    if |separators| <= 1 {
      assert separators != [] ==> separators == [[]];
      UnitsAreSingle(text);
    }
  }

  lemma OverlapKeepsBodies(chunks: seq<Piece>, overlap: nat)
    ensures Bodies(ApplyOverlap(chunks, overlap)) == Bodies(chunks)
  {
  }

  lemma SplitsOnce(text: Text, separators: seq<Text>, size: nat, overlap: nat, sep: Text)
    requires WellFormed(separators) && |text| > size && sep == ChooseSeparator(separators, text)
    requires separators != [] ==> sep in separators
    ensures SplitText(text, separators, size, overlap)
         == ApplyOverlap(Pack(Split(text, sep), sep, separators, size, overlap, [], []), overlap)
  {
  }

  lemma PackedBodies(splits: seq<Text>, sep: Text, separators: seq<Text>, size: nat, overlap: nat,
                     sub: Text -> seq<Text>)
    requires WellFormed(separators) && (separators != [] ==> sep in separators)
    requires IsFiner(sub, sep, separators, size, overlap)
    ensures Bodies(Pack(splits, sep, separators, size, overlap, [], []))
         == Packing(splits, sep, size, |separators| > 1, sub, [])
  {
    PackAdds(splits, sep, separators, size, overlap, [], [], sub);
    var bodies := Packing(splits, sep, size, |separators| > 1, sub, []);
    assert Bodies([]) == [] && [] + bodies == bodies;
  }

  lemma SplitBodies(text: Text, separators: seq<Text>, size: nat, overlap: nat, sep: Text, splits: seq<Text>,
                    sub: Text -> seq<Text>)
    requires WellFormed(separators) && |text| > size && sep == ChooseSeparator(separators, text)
    requires (separators != [] ==> sep in separators) && splits == Split(text, sep)
    requires IsFiner(sub, sep, separators, size, overlap)
    ensures Bodies(SplitText(text, separators, size, overlap))
         == Packing(splits, sep, size, |separators| > 1, sub, [])
  {
    SplitsOnce(text, separators, size, overlap, sep);
    OverlapKeepsBodies(Pack(splits, sep, separators, size, overlap, [], []), overlap);
    PackedBodies(splits, sep, separators, size, overlap, sub);
  }

  // ── There is one such packing ───────────────────────────────────────────────────

  /** More splits make a longer body, by at least the separator and the next split. */
  lemma {:induction false} JoinGrows(splits: seq<Text>, n: nat, m: nat, sep: Text)
    requires 0 < n < m <= |splits|
    ensures |Remaining(splits[..m], sep, true)| >= |Remaining(splits[..n], sep, true)| + |sep| + |splits[n]|
    decreases m
  {
    assert splits[..m] == splits[..m - 1] + [splits[m - 1]];
    JoinMore(splits[..m - 1], splits[m - 1], sep, true);
    if n < m - 1 {
      JoinGrows(splits, n, m - 1, sep);
    }
  }

  lemma FillsOnce(splits: seq<Text>, n: nat, m: nat, sep: Text, size: nat, a: Text, b: Text)
    requires size > 0 || [] !in splits
    requires Fills(splits, n, sep, size, a) && Fills(splits, m, sep, size, b)
    ensures n == m && a == b
  {
    JoinIsLonger(splits[..n], sep);
    JoinIsLonger(splits[..m], sep);
    if n < m {
      JoinGrows(splits, n, m, sep);
    } else if m < n {
      JoinGrows(splits, m, n, sep);
    }
  }

  /** The first body takes its splits, and the others the rest. */
  lemma FirstFills(splits: seq<Text>, sep: Text, size: nat, again: bool, sub: Text -> seq<Text>, bodies: seq<Text>)
      returns (n: nat)
    requires Greedy(splits, sep, size, again, sub, bodies)
    requires splits != [] && splits[0] != [] && !(again && |splits[0]| > size)
    ensures bodies != [] && Fills(splits, n, sep, size, bodies[0])
    ensures Greedy(splits[n..], sep, size, again, sub, bodies[1..]) && bodies == [bodies[0]] + bodies[1..]
  {
    n :| Fills(splits, n, sep, size, bodies[0]) && Greedy(splits[n..], sep, size, again, sub, bodies[1..]);
  }

  /** The splits determine the bodies: no other list of bodies takes as many splits as fit. */
  lemma {:induction false} GreedyIsUnique(splits: seq<Text>, sep: Text, size: nat, again: bool, sub: Text -> seq<Text>,
                                          a: seq<Text>, b: seq<Text>)
    requires size > 0 || again || [] !in splits
    requires Greedy(splits, sep, size, again, sub, a) && Greedy(splits, sep, size, again, sub, b)
    ensures a == b
    decreases |splits|
  {
    if splits != [] {
      if splits[0] == [] {
        GreedyIsUnique(splits[1..], sep, size, again, sub, a, b);
      } else if again && |splits[0]| > size {
        var first := sub(splits[0]);
        GreedyIsUnique(splits[1..], sep, size, again, sub, a[|first|..], b[|first|..]);
        assert a == first + a[|first|..] && b == first + b[|first|..];
      } else {
        var n := FirstFills(splits, sep, size, again, sub, a);
        var m := FirstFills(splits, sep, size, again, sub, b);
        FillsOnce(splits, n, m, sep, size, a[0], b[0]);
        GreedyIsUnique(splits[n..], sep, size, again, sub, a[1..], b[1..]);
      }
    }
  }

  /** For every text that has to be split, at every level of the recursion: the bodies of its chunks are the ones that
      take as many as fit of its splits at the first separator that occurs, with the bodies of splits that are too long
      in their places; and no other list of bodies does. */
  lemma SplitIffGreedy(text: Text, separators: seq<Text>, size: nat, overlap: nat, sub: Text -> seq<Text>,
                       bodies: seq<Text>)
    requires WellFormed(separators) && |text| > size
    requires IsFiner(sub, ChooseSeparator(separators, text), separators, size, overlap)
    ensures var sep := ChooseSeparator(separators, text);
            bodies == Bodies(SplitText(text, separators, size, overlap)) <==>
            Greedy(Split(text, sep), sep, size, |separators| > 1, sub, bodies)
  {
    var sep := ChooseSeparator(separators, text);
    var splits, again := Split(text, sep), |separators| > 1;
    SplitsCanPack(text, separators, size);
    SplitBodies(text, separators, size, overlap, sep, splits, sub);
    PackIsGreedy([], splits, sep, size, again, sub, []);
    assert [] + splits == splits;
    if Greedy(splits, sep, size, again, sub, bodies) {
      GreedyIsUnique(splits, sep, size, again, sub, bodies, Packing(splits, sep, size, again, sub, []));
    }
  }

  // ── Neighbours ──────────────────────────────────────────────────────────────────

  /** `next` starts with a split that does not fit behind `body`. */
  predicate Full(body: Text, next: Text, splits: seq<Text>, sep: Text, size: nat) {
    exists k :: 0 <= k < |splits| && splits[k] != [] && splits[k] <= next && |body| + |sep| + |splits[k]| > size
  }

  predicate NoneTooLong(splits: seq<Text>, size: nat) {
    forall k :: 0 <= k < |splits| ==> |splits[k]| <= size
  }

  lemma {:induction false} FirstOfNext(splits: seq<Text>, sep: Text, size: nat, again: bool, sub: Text -> seq<Text>,
                                       bodies: seq<Text>) returns (k: nat)
    requires Greedy(splits, sep, size, again, sub, bodies) && bodies != [] && NoneTooLong(splits, size)
    ensures k < |splits| && splits[k] != [] && splits[k] <= bodies[0] && (splits[0] == [] || k == 0)
    decreases |splits|
  {
    if splits[0] == [] {
      var i := FirstOfNext(splits[1..], sep, size, again, sub, bodies);
      k := i + 1;
    } else {
      k := 0;
      var n := FirstFills(splits, sep, size, again, sub, bodies);
      assert splits[..n][0] == splits[0];
    }
  }

  lemma FullInMore(splits: seq<Text>, n: nat, body: Text, next: Text, sep: Text, size: nat)
    requires n <= |splits| && Full(body, next, splits[n..], sep, size)
    ensures Full(body, next, splits, sep, size)
  {
    var k :| 0 <= k < |splits[n..]| && splits[n..][k] != [] && splits[n..][k] <= next
             && |body| + |sep| + |splits[n..][k]| > size;
    assert splits[n + k] == splits[n..][k];
  }

  /** While no split is too long alone: no body and the first split of the next one would have fit together. */
  lemma {:induction false} NeighboursDoNotFit(splits: seq<Text>, sep: Text, size: nat, again: bool,
                                              sub: Text -> seq<Text>, bodies: seq<Text>, j: nat)
    requires Greedy(splits, sep, size, again, sub, bodies) && NoneTooLong(splits, size) && j + 1 < |bodies|
    ensures Full(bodies[j], bodies[j + 1], splits, sep, size)
    decreases |splits|
  {
    if splits[0] == [] {
      NeighboursDoNotFit(splits[1..], sep, size, again, sub, bodies, j);
      FullInMore(splits, 1, bodies[j], bodies[j + 1], sep, size);
    } else {
      var n := FirstFills(splits, sep, size, again, sub, bodies);
      if j == 0 {
        var k := FirstOfNext(splits[n..], sep, size, again, sub, bodies[1..]);
        assert splits[n + k] == splits[n..][k];
      } else {
        NeighboursDoNotFit(splits[n..], sep, size, again, sub, bodies[1..], j - 1);
        FullInMore(splits, n, bodies[j], bodies[j + 1], sep, size);
      }
    }
  }

  // ── What neighbours share ───────────────────────────────────────────────────────

  /** The chunk starts with the last `n` units of the one before. */
  predicate StartsWithEnd(chunk: Text, prev: Text, n: nat) {
    n <= |chunk| && n <= |prev| && chunk[..n] == prev[|prev| - n..]
  }

  lemma StartsLonger(chunk: Text, prev: Text, longer: Text, n: nat)
    requires StartsWithEnd(chunk, prev, n) && |prev| <= |longer| && longer[|longer| - |prev|..] == prev
    ensures StartsWithEnd(chunk, longer, n)
  {
    assert prev[|prev| - n..] == longer[|longer| - n..];
  }

  lemma StartsWithTail(prev: Text, own: Text, overlap: nat)
    requires overlap > 0
    ensures StartsWithEnd(Tail(prev, overlap) + own, prev, Min(overlap, |prev|))
  {
  }

  lemma OverlappedShares(chunks: seq<Piece>, i: nat, overlap: nat)
    requires 0 < i < |chunks| && overlap > 0
    ensures StartsWithEnd(Overlapped(chunks, i, overlap).Text(), Overlapped(chunks, i - 1, overlap).Text(),
                          Min(overlap, |chunks[i - 1].Text()|))
  {
    var prev, own := chunks[i - 1].Text(), chunks[i].Text();
    LongerBefore(chunks, i, overlap);
    StartsWithTail(prev, own, overlap);
    assert Overlapped(chunks, i, overlap).Text() == Tail(prev, overlap) + own;
    StartsLonger(Tail(prev, overlap) + own, prev, Overlapped(chunks, i - 1, overlap).Text(), Min(overlap, |prev|));
  }

  /** Every chunk of a text that has to be split starts with an end of the chunk before: with a whole overlap, or at
      least with as much as the body before it holds. */
  lemma NeighboursShare(text: Text, separators: seq<Text>, size: nat, overlap: nat, i: nat) returns (n: nat)
    requires WellFormed(separators) && |text| > size && overlap > 0
    requires 0 < i < |SplitText(text, separators, size, overlap)|
    ensures var chunks := SplitText(text, separators, size, overlap);
            && Min(overlap, |chunks[i - 1].body|) <= n <= overlap
            && StartsWithEnd(chunks[i].Text(), chunks[i - 1].Text(), n)
  {
    var sep := ChooseSeparator(separators, text);
    ChosenIsListed(separators, text);
    SplitsOnce(text, separators, size, overlap, sep);
    var packed := Pack(Split(text, sep), sep, separators, size, overlap, [], []);
    Applies(packed, overlap);
    n := SharedIn(ApplyOverlap(packed, overlap), packed, i, overlap);
  }

  lemma SharedIn(all: seq<Piece>, packed: seq<Piece>, i: nat, overlap: nat) returns (n: nat)
    requires IsApplied(all, packed, overlap) && overlap > 0 && 0 < i < |all|
    ensures Min(overlap, |all[i - 1].body|) <= n <= overlap && StartsWithEnd(all[i].Text(), all[i - 1].Text(), n)
  {
    assert all[i] == Overlapped(packed, i, overlap) && all[i - 1] == Overlapped(packed, i - 1, overlap);
    OverlappedShares(packed, i, overlap);
    n := Min(overlap, |packed[i - 1].Text()|);
  }
}
