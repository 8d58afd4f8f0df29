/** Checkpoints: serialising the agent state, saving, loading the latest, and pruning. */
module Checkpoints {
  import opened Wrappers
  import opened AgentState

  // ── Serialisation ───────────────────────────────────────────────────────────────

  datatype PlainMessage = PlainMessage(
    kind: string, content: string, toolCallId: Option<string>, toolCalls: Option<seq<Json>>)

  /** The state as JSON: its messages as plain objects, everything else as it is. */
  datatype PlainState = PlainState(rest: AgentState, messages: seq<PlainMessage>)

  function PlainOf(m: Message): PlainMessage {
    PlainMessage(
      m.kind,
      match m.content case Text(t) => t case Parts(j) => j,
      if Truthy(m.toolCallId) then m.toolCallId else None,
      if m.toolCalls != [] then Some(m.toolCalls) else None)
  }

  function MessageOf(p: PlainMessage): Message {
    Message(p.kind, Text(p.content), if Truthy(p.toolCallId) then p.toolCallId else None, p.toolCalls.GetOr([]))
  }

  function Serialize(s: AgentState): PlainState {
    PlainState(s.(messages := []), seq(|s.messages|, i requires 0 <= i < |s.messages| => PlainOf(s.messages[i])))
  }

  function Deserialize(p: PlainState): AgentState {
    p.rest.(messages := seq(|p.messages|, i requires 0 <= i < |p.messages| => MessageOf(p.messages[i])))
  }

  /** `n` rounds of saving and loading. */
  function Rounds(s: AgentState, n: nat): AgentState {
    if n == 0 then s else Deserialize(Serialize(Rounds(s, n - 1)))
  }

  lemma PlainIsStable(m: Message)
    ensures PlainOf(MessageOf(PlainOf(m))) == PlainOf(m)
  {
  }

  /** One round changes nothing but how messages are represented: their number, order, type,
      tool call id and tool calls stay, text stays, and structured content becomes its JSON text. */
  lemma RoundKeeps(s: AgentState)
    ensures var t := Deserialize(Serialize(s));
            && t.(messages := []) == s.(messages := [])
            && |t.messages| == |s.messages|
            && forall i :: 0 <= i < |s.messages| ==>
                 && t.messages[i].kind == s.messages[i].kind
                 && t.messages[i].content == Text(match s.messages[i].content case Text(x) => x case Parts(j) => j)
                 && t.messages[i].toolCalls == s.messages[i].toolCalls
                 && (Truthy(s.messages[i].toolCallId) ==> t.messages[i].toolCallId == s.messages[i].toolCallId)
                 && (!Truthy(s.messages[i].toolCallId) ==> t.messages[i].toolCallId == None)
  {
  }

  /** Any number of rounds is stable: what would be stored never changes again, and after the
      first round neither does what is loaded. */
  lemma {:induction false} RoundsAreStable(s: AgentState, n: nat)
    ensures Serialize(Rounds(s, n)) == Serialize(s)
    ensures n >= 1 ==> Rounds(s, n) == Rounds(s, 1)
  {
    if n >= 1 {
      RoundsAreStable(s, n - 1);
      assert Rounds(s, 0) == s;
      forall i | 0 <= i < |s.messages| ensures Serialize(Rounds(s, n)).messages[i] == PlainOf(s.messages[i]) {
        PlainIsStable(s.messages[i]);
        assert Serialize(s).messages[i] == PlainOf(s.messages[i]);
      }
      assert Serialize(Rounds(s, n)).messages == Serialize(s).messages;
    }
  }

  // ── Rows ────────────────────────────────────────────────────────────────────────

  /** Rows stand in creation order; creation times are distinct. */
  datatype Checkpoint = Checkpoint(
    id: Uuid, executionId: Uuid, nodeName: string, state: PlainState, parentCheckpointId: Option<Uuid>)

  predicate UniqueIds(rows: seq<Checkpoint>) {
    Distinct(rows, (r: Checkpoint) => r.id)
  }

  function Of(rows: seq<Checkpoint>, x: Uuid): seq<Checkpoint> {
    if rows == [] then []
    else Of(rows[..|rows| - 1], x) + (if rows[|rows| - 1].executionId == x then [rows[|rows| - 1]] else [])
  }

  /** The rows whose id is not among `gone`. */
  function Without(rows: seq<Checkpoint>, gone: set<Uuid>): seq<Checkpoint> {
    if rows == [] then []
    else Without(rows[..|rows| - 1], gone) + (if rows[|rows| - 1].id in gone then [] else [rows[|rows| - 1]])
  }

  predicate IsKept(nodeName: string) {
    nodeName == "plan" || nodeName == "respond" || "WAITING_" <= nodeName
  }

  function KeptOnly(rows: seq<Checkpoint>): seq<Checkpoint> {
    if rows == [] then []
    else KeptOnly(rows[..|rows| - 1]) + (if IsKept(rows[|rows| - 1].nodeName) then [rows[|rows| - 1]] else [])
  }

  /** What pruning leaves of one execution's checkpoints: the first, the last, and between them,
      in order, those of the plan, respond and WAITING_ nodes. */
  function Pruned(all: seq<Checkpoint>): seq<Checkpoint> {
    if |all| <= 2 then all
    else [all[0]] + KeptOnly(all[1..|all| - 1]) + [all[|all| - 1]]
  }

  lemma {:induction false} KeptOnlyTwice(rows: seq<Checkpoint>)
    ensures KeptOnly(KeptOnly(rows)) == KeptOnly(rows)
  {
    if rows != [] {
      var front := KeptOnly(rows[..|rows| - 1]);
      KeptOnlyTwice(rows[..|rows| - 1]);
      if IsKept(rows[|rows| - 1].nodeName) {
        assert KeptOnly(rows)[..|front|] == front;
      } else {
        assert KeptOnly(rows) == front;
      }
    }
  }

  /** Pruning again changes nothing, and what is loaded is the same before and after. */
  lemma PruneIsIdempotent(all: seq<Checkpoint>)
    ensures Pruned(Pruned(all)) == Pruned(all)
    ensures all != [] ==> Pruned(all) != [] && Pruned(all)[|Pruned(all)| - 1] == all[|all| - 1]
  {
    if |all| > 2 {
      var mid := KeptOnly(all[1..|all| - 1]);
      KeptOnlyTwice(all[1..|all| - 1]);
      if |mid| > 0 {
        assert Pruned(all)[1..|Pruned(all)| - 1] == mid;
      }
    }
  }

  /** What must stay of one execution's checkpoints: all if there are not more than two; else the first, the last, and
      those of the plan node, of the respond node, and of a node whose name starts with WAITING_. */
  predicate MustStay(all: seq<Checkpoint>, c: Checkpoint) {
    c in all
    && (|all| <= 2 || c == all[0] || c == all[|all| - 1]
        || c.nodeName == "plan" || c.nodeName == "respond"
        || (|c.nodeName| >= 8 && c.nodeName[..8] == "WAITING_"))
  }

  /** `a` is `b` without some of its rows, in the same order. */
  predicate IsSubsequence<T(==)>(a: seq<T>, b: seq<T>)
    decreases |b|
  {
    if a == [] then true
    else if b == [] then false
    else
      || (a[|a| - 1] == b[|b| - 1] && IsSubsequence(a[..|a| - 1], b[..|b| - 1]))
      || IsSubsequence(a, b[..|b| - 1])
  }

  lemma {:induction false} KeptOnlyRows(rows: seq<Checkpoint>)
    ensures IsSubsequence(KeptOnly(rows), rows)
    ensures forall c :: c in KeptOnly(rows) <==> c in rows && IsKept(c.nodeName)
    decreases |rows|
  {
    if rows != [] {
      var front, last := rows[..|rows| - 1], rows[|rows| - 1];
      assert rows == front + [last];
      KeptOnlyRows(front);
      if IsKept(last.nodeName) {
        assert KeptOnly(rows)[..|KeptOnly(front)|] == KeptOnly(front);
      } else {
        assert KeptOnly(rows) == KeptOnly(front);
      }
    }
  }

  lemma {:induction false} SubsequenceBehind<T>(a: seq<T>, b: seq<T>, first: T)
    requires IsSubsequence(a, b)
    ensures IsSubsequence([first] + a, [first] + b)
    decreases |b|
  {
    var longer := [first] + b;
    if b == [] {
      assert [first] + a == [first] && longer[..0] == [];
    } else {
      assert longer[..|longer| - 1] == [first] + b[..|b| - 1];
      if a == [] {
        SubsequenceBehind(a, b[..|b| - 1], first);
        assert ([first] + a)[..|[first] + a| - 1] == [];
      } else if a[|a| - 1] == b[|b| - 1] && IsSubsequence(a[..|a| - 1], b[..|b| - 1]) {
        SubsequenceBehind(a[..|a| - 1], b[..|b| - 1], first);
        assert ([first] + a)[..|[first] + a| - 1] == [first] + a[..|a| - 1];
      } else {
        SubsequenceBehind(a, b[..|b| - 1], first);
      }
    }
  }

  lemma SubsequenceOfItself<T>(a: seq<T>)
    ensures IsSubsequence(a, a)
  {
    if a != [] {
      SubsequenceOfItself(a[..|a| - 1]);
    }
  }

  lemma SubsequenceAround<T>(a: seq<T>, b: seq<T>, first: T, last: T)
    requires IsSubsequence(a, b)
    ensures IsSubsequence([first] + a + [last], [first] + b + [last])
  {
    var kept, rows := [first] + a, [first] + b;
    SubsequenceBehind(a, b, first);
    assert (kept + [last])[..|kept|] == kept && (rows + [last])[..|rows|] == rows;
  }

  lemma PrunedMembers(all: seq<Checkpoint>, mid: seq<Checkpoint>, c: Checkpoint)
    requires |all| > 2 && mid == all[1..|all| - 1]
    requires c in KeptOnly(mid) <==> c in mid && IsKept(c.nodeName)
    ensures c in Pruned(all) <==> MustStay(all, c)
  {
    CutEnds(all);
    assert c in Pruned(all) <==> c == all[0] || c in KeptOnly(mid) || c == all[|all| - 1];
    assert c in all <==> c == all[0] || c in mid || c == all[|all| - 1];
  }

  /** Pruning leaves exactly the rows that must stay, in their order. */
  lemma PruneLeaves(all: seq<Checkpoint>)
    ensures IsSubsequence(Pruned(all), all)
    ensures forall c :: c in Pruned(all) <==> MustStay(all, c)
  {
    if |all| <= 2 {
      SubsequenceOfItself(all);
    } else {
      var mid := all[1..|all| - 1];
      KeptOnlyRows(mid);
      CutEnds(all);
      SubsequenceAround(KeptOnly(mid), mid, all[0], all[|all| - 1]);
      forall c ensures c in Pruned(all) <==> MustStay(all, c) {
        PrunedMembers(all, mid, c);
      }
    }
  }

  lemma OfMember(rows: seq<Checkpoint>, x: Uuid, c: Checkpoint)
    ensures c in Of(rows, x) <==> c in rows && c.executionId == x
  {
    if rows != [] {
      OfMember(rows[..|rows| - 1], x, c);
      assert rows == rows[..|rows| - 1] + [rows[|rows| - 1]];
    }
  }

  lemma {:induction false} OfWithout(rows: seq<Checkpoint>, gone: set<Uuid>, x: Uuid)
    ensures Of(Without(rows, gone), x) == Without(Of(rows, x), gone)
  {
    if rows != [] {
      var front, last := rows[..|rows| - 1], rows[|rows| - 1];
      OfWithout(front, gone, x);
      OfAppend(Without(front, gone), last, x);
      WithoutAppend(Of(front, x), last, gone);
      assert Without(rows, gone) == if last.id in gone then Without(front, gone) else Without(front, gone) + [last];
      assert Of(rows, x) == if last.executionId == x then Of(front, x) + [last] else Of(front, x);
    }
  }

  lemma OfAppend(rows: seq<Checkpoint>, c: Checkpoint, x: Uuid)
    ensures Of(rows + [c], x) == if c.executionId == x then Of(rows, x) + [c] else Of(rows, x)
  {
    assert (rows + [c])[..|rows|] == rows;
  }

  lemma WithoutAppend(rows: seq<Checkpoint>, c: Checkpoint, gone: set<Uuid>)
    ensures Without(rows + [c], gone) == if c.id in gone then Without(rows, gone) else Without(rows, gone) + [c]
  {
    assert (rows + [c])[..|rows|] == rows;
  }

  lemma {:induction false} WithoutNone(rows: seq<Checkpoint>, gone: set<Uuid>)
    requires forall c :: c in rows ==> c.id !in gone
    ensures Without(rows, gone) == rows
  {
    if rows != [] {
      assert rows == rows[..|rows| - 1] + [rows[|rows| - 1]];
      WithoutNone(rows[..|rows| - 1], gone);
    }
  }

  /** Deleting from the middle of a list exactly what is not kept by its node. */
  lemma {:induction false} WithoutIsKeptOnly(rows: seq<Checkpoint>, gone: set<Uuid>)
    requires forall c :: c in rows ==> (c.id in gone <==> !IsKept(c.nodeName))
    ensures Without(rows, gone) == KeptOnly(rows)
  {
    if rows != [] {
      assert rows == rows[..|rows| - 1] + [rows[|rows| - 1]];
      WithoutIsKeptOnly(rows[..|rows| - 1], gone);
    }
  }

  lemma {:induction false} WithoutConcat(a: seq<Checkpoint>, b: seq<Checkpoint>, gone: set<Uuid>)
    ensures Without(a + b, gone) == Without(a, gone) + Without(b, gone)
  {
    if b == [] {
      assert a + b == a;
    } else {
      var front, last := b[..|b| - 1], b[|b| - 1];
      assert (a + b)[..|a + b| - 1] == a + front && (a + b)[|a + b| - 1] == last;
      WithoutConcat(a, front, gone);
    }
  }

  /** The id of a kept checkpoint. */
  predicate KeepsId(all: seq<Checkpoint>, id: Uuid) {
    all != []
    && (id == all[0].id || id == all[|all| - 1].id || exists c :: c in all && c.id == id && IsKept(c.nodeName))
  }

  lemma SameRow(rows: seq<Checkpoint>, c: Checkpoint, d: Checkpoint)
    requires UniqueIds(rows) && c in rows && d in rows && c.id == d.id
    ensures c == d
  {
  }

  /** Between the first and the last, an id is kept for the row's own node only. */
  lemma KeptInTheMiddle(all: seq<Checkpoint>, i: nat)
    requires UniqueIds(all) && 0 < i < |all| - 1
    ensures KeepsId(all, all[i].id) <==> IsKept(all[i].nodeName)
  {
    var c := all[i];
    assert c.id != all[0].id && c.id != all[|all| - 1].id;
    forall d | d in all && d.id == c.id ensures d == c {
      SameRow(all, c, d);
    }
  }

  lemma WithoutInThree(first: seq<Checkpoint>, mid: seq<Checkpoint>, last: seq<Checkpoint>, gone: set<Uuid>)
    ensures Without(first + mid + last, gone) == Without(first, gone) + Without(mid, gone) + Without(last, gone)
  {
    WithoutConcat(first + mid, last, gone);
    WithoutConcat(first, mid, gone);
  }

  lemma WithoutMiddle(all: seq<Checkpoint>, gone: set<Uuid>)
    requires UniqueIds(all) && |all| > 2
    requires forall c :: c in all ==> (c.id in gone <==> !KeepsId(all, c.id))
    ensures Without(all[1..|all| - 1], gone) == KeptOnly(all[1..|all| - 1])
  {
    var mid := all[1..|all| - 1];
    forall c | c in mid ensures c.id in gone <==> !IsKept(c.nodeName) {
      var i :| 0 <= i < |mid| && mid[i] == c;
      KeptInTheMiddle(all, i + 1);
    }
    WithoutIsKeptOnly(mid, gone);
  }

  lemma WithoutOuter(first: Checkpoint, mid: seq<Checkpoint>, last: Checkpoint, gone: set<Uuid>)
    requires first.id !in gone && last.id !in gone && Without(mid, gone) == KeptOnly(mid)
    ensures Without([first] + mid + [last], gone) == [first] + KeptOnly(mid) + [last]
  {
    WithoutNone([first], gone);
    WithoutNone([last], gone);
    WithoutInThree([first], mid, [last], gone);
  }

  lemma CutEnds<T>(all: seq<T>)
    requires |all| > 1
    ensures all == [all[0]] + all[1..|all| - 1] + [all[|all| - 1]]
  {
  }

  /** Deleting every row whose id is not to be kept leaves exactly the pruned list. */
  lemma WithoutIsPruned(all: seq<Checkpoint>, gone: set<Uuid>)
    requires UniqueIds(all) && |all| > 2
    requires forall c :: c in all ==> (c.id in gone <==> !KeepsId(all, c.id))
    ensures Without(all, gone) == Pruned(all)
  {
    var first, last := all[0], all[|all| - 1];
    assert first in all && KeepsId(all, first.id);
    assert last in all && KeepsId(all, last.id);
    WithoutMiddle(all, gone);
    WithoutOuter(first, all[1..|all| - 1], last, gone);
    CutEnds(all);
  }

  /** Row `i` is the newest of execution `x`. */
  predicate IsNewest(rows: seq<Checkpoint>, x: Uuid, i: nat) {
    i < |rows| && rows[i].executionId == x && forall j :: i < j < |rows| ==> rows[j].executionId != x
  }

  /** What loading gives: the last of the execution's rows. */
  function Loaded(rows: seq<Checkpoint>, x: Uuid): Option<AgentState> {
    var all := Of(rows, x);
    if all == [] then None else Some(Deserialize(all[|all| - 1].state))
  }

  lemma {:induction false} NoneToLoad(rows: seq<Checkpoint>, x: Uuid)
    ensures Loaded(rows, x).None? <==> forall i :: 0 <= i < |rows| ==> rows[i].executionId != x
    decreases |rows|
  {
    if rows != [] {
      NoneToLoad(rows[..|rows| - 1], x);
    }
  }

  lemma {:induction false} LoadedIsNewest(rows: seq<Checkpoint>, x: Uuid, i: nat)
    requires IsNewest(rows, x, i)
    ensures Loaded(rows, x) == Some(Deserialize(rows[i].state))
    decreases |rows|
  {
    if i < |rows| - 1 {
      var front := rows[..|rows| - 1];
      assert rows[|rows| - 1].executionId != x && Of(rows, x) == Of(front, x);
      LoadedIsNewest(front, x, i);
    } else {
      assert Of(rows, x) == Of(rows[..i], x) + [rows[i]];
    }
  }

  /** What is loaded after a save is the saved state after one round of serialisation; other executions load
      what they loaded before. */
  lemma SaveThenLoad(rows: seq<Checkpoint>, x: Uuid, id: Uuid, nodeName: string, state: AgentState,
                     parent: Option<Uuid>)
    ensures var more := rows + [Checkpoint(id, x, nodeName, Serialize(state), parent)];
            Loaded(more, x) == Some(Rounds(state, 1)) && forall y :: y != x ==> Loaded(more, y) == Loaded(rows, y)
  {
    var c := Checkpoint(id, x, nodeName, Serialize(state), parent);
    assert Rounds(state, 0) == state;
    forall y ensures Of(rows + [c], y) == if y == x then Of(rows, y) + [c] else Of(rows, y) {
      OfAppend(rows, c, y);
    }
  }

  /** Deleting rows of one execution leaves the rows of every other. */
  lemma OthersStay(rows: seq<Checkpoint>, x: Uuid, y: Uuid, gone: set<Uuid>)
    requires UniqueIds(rows) && y != x
    requires forall id :: id in gone ==> exists d :: d in Of(rows, x) && d.id == id
    ensures Of(Without(rows, gone), y) == Of(rows, y)
  {
    OfWithout(rows, gone, y);
    forall c | c in Of(rows, y) ensures c.id !in gone {
      OfMember(rows, y, c);
      if c.id in gone {
        var d :| d in Of(rows, x) && d.id == c.id;
        OfMember(rows, x, d);
        SameRow(rows, c, d);
      }
    }
    WithoutNone(Of(rows, y), gone);
  }

  lemma LoadedFrom(rows: seq<Checkpoint>, x: Uuid, all: seq<Checkpoint>)
    requires all == Of(rows, x)
    ensures Loaded(rows, x) == if all == [] then None else Some(Deserialize(all[|all| - 1].state))
  {
  }

  lemma PruneKeepsLoadedOf(before: seq<Checkpoint>, after: seq<Checkpoint>, x: Uuid)
    requires Of(after, x) == Pruned(Of(before, x)) || Of(after, x) == Of(before, x)
    ensures Loaded(after, x) == Loaded(before, x)
  {
    PruneIsIdempotent(Of(before, x));
    LoadedFrom(before, x, Of(before, x));
    LoadedFrom(after, x, Of(after, x));
  }

  /** Pruning one execution never changes what is loaded, for it or for any other. */
  lemma PruneKeepsLoaded(before: seq<Checkpoint>, after: seq<Checkpoint>, x: Uuid)
    requires Of(after, x) == Pruned(Of(before, x))
    requires forall y :: y != x ==> Of(after, y) == Of(before, y)
    ensures forall y :: Loaded(after, y) == Loaded(before, y)
  {
    forall y ensures Loaded(after, y) == Loaded(before, y) {
      assert y != x ==> Of(after, y) == Of(before, y);
      PruneKeepsLoadedOf(before, after, y);
    }
  }

  class CheckpointService {
    var rows: seq<Checkpoint>

    constructor ()
      ensures rows == []
    {
      rows := [];
    }

    /** Only the listed nodes are saved; the new row is the latest of its execution. */
    method Save(x: Uuid, id: Uuid, nodeName: string, state: AgentState, parent: Option<Uuid>) returns (saved: bool)
      modifies this
      ensures saved <==> nodeName == "plan" || nodeName == "retrieve" || nodeName == "retrieve_memory"
                         || nodeName == "act" || nodeName == "observe" || nodeName == "respond"
                         || nodeName == "WAITING_FOR_APPROVAL"
      ensures rows == if saved then old(rows) + [Checkpoint(id, x, nodeName, Serialize(state), parent)] else old(rows)
      ensures saved ==> Of(rows, x) == Of(old(rows), x) + [Checkpoint(id, x, nodeName, Serialize(state), parent)]
      ensures saved ==> Loaded(rows, x) == Some(Rounds(state, 1))
      ensures forall y :: !saved || y != x ==> Loaded(rows, y) == Loaded(old(rows), y)
    {
      saved := IsCheckpointNode(nodeName);
      if saved {
        rows := rows + [Checkpoint(id, x, nodeName, Serialize(state), parent)];
        assert rows[..|old(rows)|] == old(rows);
        SaveThenLoad(old(rows), x, id, nodeName, state, parent);
      }
    }

    /** The state of the newest row of the execution, none exactly if it has no row. */
    method LoadLatest(x: Uuid) returns (state: Option<AgentState>)
      ensures state == Loaded(rows, x)
      ensures state.None? <==> forall i :: 0 <= i < |rows| ==> rows[i].executionId != x
      ensures forall i :: 0 <= i < |rows| && IsNewest(rows, x, i) ==> state == Some(Deserialize(rows[i].state))
    {
      var all := Of(rows, x);
      state := if all == [] then None else Some(Deserialize(all[|all| - 1].state));
      NoneToLoad(rows, x);
      forall i | 0 <= i < |rows| && IsNewest(rows, x, i) ensures state == Some(Deserialize(rows[i].state)) {
        LoadedIsNewest(rows, x, i);
      }
    }

    method Prune(x: Uuid)
      requires UniqueIds(rows)
      modifies this
      ensures Of(rows, x) == Pruned(Of(old(rows), x))
      ensures forall c :: c in Of(rows, x) <==> MustStay(Of(old(rows), x), c)
      ensures forall y :: y != x ==> Of(rows, y) == Of(old(rows), y)
      ensures forall y :: Loaded(rows, y) == Loaded(old(rows), y)
    {
      var all := Of(rows, x);
      PruneLeaves(all);
      if |all| <= 2 {
        return;
      }
      var keep := {all[0].id, all[|all| - 1].id};
      for i := 0 to |all|
        invariant forall id :: id in keep <==>
                    id == all[0].id || id == all[|all| - 1].id
                    || exists j :: 0 <= j < i && all[j].id == id && IsKept(all[j].nodeName)
      {
        if IsKept(all[i].nodeName) {
          keep := keep + {all[i].id};
        }
      }
      forall id ensures id in keep <==> KeepsId(all, id) {
        if KeepsId(all, id) && id != all[0].id && id != all[|all| - 1].id {
          var c :| c in all && c.id == id && IsKept(c.nodeName);
          var j :| 0 <= j < |all| && all[j] == c;
        }
      }
      var toDelete := set c | c in all && c.id !in keep :: c.id;
      ghost var before := rows;
      rows := Without(rows, toDelete);
      OfUnique(before, x);
      WithoutIsPruned(all, toDelete);
      OfWithout(before, toDelete, x);
      forall y | y != x ensures Of(rows, y) == Of(before, y) {
        OthersStay(before, x, y, toDelete);
      }
      PruneKeepsLoaded(before, rows, x);
    }
  }

  predicate IsCheckpointNode(nodeName: string) {
    nodeName in {"plan", "retrieve", "retrieve_memory", "act", "observe", "respond", "WAITING_FOR_APPROVAL"}
  }

  lemma {:induction false} OfUnique(rows: seq<Checkpoint>, x: Uuid)
    requires UniqueIds(rows)
    ensures UniqueIds(Of(rows, x))
  {
    if rows != [] {
      var front, last := rows[..|rows| - 1], rows[|rows| - 1];
      OfUnique(front, x);
      forall i | 0 <= i < |Of(front, x)| ensures Of(front, x)[i].id != last.id {
        OfMember(front, x, Of(front, x)[i]);
      }
    }
  }
}
