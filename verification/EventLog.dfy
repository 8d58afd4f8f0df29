/** The append-only event log of executions, and the protocol by which any number of
    concurrent appenders extend it: read the largest sequence number, insert under a
    unique key, publish. */
module EventLog {
  import opened Wrappers

  /** Event types: the three that end an execution, and all others by name. */
  datatype Kind = COMPLETED | FAILED | CANCELLED | Other(name: string)

  datatype Event = Event(id: Uuid, executionId: Uuid, sequence: nat, kind: Kind, payload: string)

  /** The events of execution `x`, in commit order. */
  function LogOf(rows: seq<Event>, x: Uuid): seq<Event> {
    if rows == [] then [] else
    var last := rows[|rows| - 1];
    var rest := LogOf(rows[..|rows| - 1], x);
    if last.executionId == x then rest + [last] else rest
  }

  /** `aggregate _max sequence`, with 0 standing for no row. */
  function MaxSequence(rows: seq<Event>, x: Uuid): nat {
    if rows == [] then 0 else
    var last := rows[|rows| - 1];
    var rest := MaxSequence(rows[..|rows| - 1], x);
    if last.executionId == x && last.sequence > rest then last.sequence else rest
  }

  /** The sequences of a log are exactly 1, 2, ..., n, each once and in order. */
  predicate Dense(log: seq<Event>) {
    forall i :: 0 <= i < |log| ==> log[i].sequence == i + 1
  }

  predicate UniqueIds(rows: seq<Event>) {
    Distinct(rows, (r: Event) => r.id)
  }

  /** The insert would break the primary key or the unique key (executionId, sequence). */
  predicate Conflicts(rows: seq<Event>, e: Event) {
    exists r :: r in rows && (r.id == e.id || (r.executionId == e.executionId && r.sequence == e.sequence))
  }

  lemma LogOfMember(rows: seq<Event>, x: Uuid, e: Event)
    ensures e in LogOf(rows, x) <==> e in rows && e.executionId == x
  {
    if rows != [] {
      LogOfMember(rows[..|rows| - 1], x, e);
      assert rows == rows[..|rows| - 1] + [rows[|rows| - 1]];
    }
  }

  lemma LogOfAppend(rows: seq<Event>, e: Event, x: Uuid)
    ensures LogOf(rows + [e], x) == LogOf(rows, x) + (if e.executionId == x then [e] else [])
  {
    assert (rows + [e])[..|rows|] == rows;
  }

  lemma LogOfUniqueIds(rows: seq<Event>, x: Uuid)
    requires UniqueIds(rows)
    ensures UniqueIds(LogOf(rows, x))
  {
    if rows != [] {
      var front, last := rows[..|rows| - 1], rows[|rows| - 1];
      LogOfUniqueIds(front, x);
      forall i | 0 <= i < |LogOf(front, x)| ensures LogOf(front, x)[i].id != last.id {
        LogOfMember(front, x, LogOf(front, x)[i]);
      }
    }
  }

  /** On a dense log the largest sequence is its length, so the next one is free. */
  lemma {:induction false} MaxSequenceIsLength(rows: seq<Event>, x: Uuid)
    requires Dense(LogOf(rows, x))
    ensures MaxSequence(rows, x) == |LogOf(rows, x)|
  {
    if rows != [] {
      var front, last := rows[..|rows| - 1], rows[|rows| - 1];
      forall i | 0 <= i < |LogOf(front, x)| ensures LogOf(front, x)[i].sequence == i + 1 {
        assert LogOf(rows, x)[i] == LogOf(front, x)[i];
      }
      MaxSequenceIsLength(front, x);
      if last.executionId == x {
        assert LogOf(rows, x)[|LogOf(front, x)|] == last;
      }
    }
  }

  // ── Concurrent appenders ────────────────────────────────────────────────────────

  /** Where one call of `appendEvent` stands. */
  datatype Appender =
    | ReadMax(executionId: Uuid, next: nat, kind: Kind, payload: string)
    | Committed(event: Event)

  datatype State = State(rows: seq<Event>, appenders: map<nat, Appender>, published: set<Event>)

  datatype Step =
    | Read(a: nat, executionId: Uuid, kind: Kind, payload: string)
    | Insert(a: nat, id: Uuid)
    | Publish(a: nat)
    | Die(a: nat)

  const INIT := State([], map[], {})

  /** One step of one appender; a step that is not enabled changes nothing. */
  function Next(s: State, step: Step): State {
    match step
    case Read(a, x, kind, payload) =>
      if a in s.appenders then s
      else s.(appenders := s.appenders[a := ReadMax(x, MaxSequence(s.rows, x) + 1, kind, payload)])
    case Insert(a, id) =>
      if a in s.appenders && s.appenders[a].ReadMax? then
        var p := s.appenders[a];
        var e := Event(id, p.executionId, p.next, p.kind, p.payload);
        if Conflicts(s.rows, e) then s.(appenders := s.appenders - {a})
        else s.(rows := s.rows + [e], appenders := s.appenders[a := Committed(e)])
      else s
    case Publish(a) =>
      if a in s.appenders && s.appenders[a].Committed? then
        s.(published := s.published + {s.appenders[a].event}, appenders := s.appenders - {a})
      else s
    case Die(a) => s.(appenders := s.appenders - {a})
  }

  function Run(s: State, steps: seq<Step>): State
    decreases |steps|
  {
    if steps == [] then s else Run(Next(s, steps[0]), steps[1..])
  }

  ghost predicate Inv(s: State) {
    && UniqueIds(s.rows)
    && (forall x :: Dense(LogOf(s.rows, x)))
    && (forall a :: a in s.appenders ==>
          match s.appenders[a]
          case ReadMax(x, next, _, _) => 1 <= next <= |LogOf(s.rows, x)| + 1
          case Committed(e) => e in s.rows)
    && (forall e :: e in s.published ==> e in s.rows)
  }

  /** An insert that the unique keys let through always takes the next free sequence. */
  lemma InsertTakesNext(s: State, a: nat, id: Uuid)
    requires Inv(s) && a in s.appenders && s.appenders[a].ReadMax?
    ensures var p := s.appenders[a];
            !Conflicts(s.rows, Event(id, p.executionId, p.next, p.kind, p.payload)) ==>
              p.next == |LogOf(s.rows, p.executionId)| + 1
  {
    var p := s.appenders[a];
    var log := LogOf(s.rows, p.executionId);
    if p.next <= |log| {
      var r := log[p.next - 1];
      LogOfMember(s.rows, p.executionId, r);
      assert r in s.rows && r.executionId == p.executionId && r.sequence == p.next;
    }
  }

  lemma StepKeepsInv(s: State, step: Step)
    requires Inv(s)
    ensures Inv(Next(s, step))
    ensures s.rows <= Next(s, step).rows
  {
    var t := Next(s, step);
    match step
    case Read(a, x, kind, payload) =>
      MaxSequenceIsLength(s.rows, x);
    case Insert(a, id) =>
      if t.rows != s.rows {
        InsertTakesNext(s, a, id);
        var e := t.rows[|s.rows|];
        forall x ensures Dense(LogOf(t.rows, x)) && |LogOf(s.rows, x)| <= |LogOf(t.rows, x)| {
          LogOfAppend(s.rows, e, x);
          assert Dense(LogOf(s.rows, x));
        }
        forall i | 0 <= i < |s.rows| ensures t.rows[i].id != e.id {
          assert s.rows[i] in s.rows;
        }
      }
    case Publish(a) =>
    case Die(a) =>
  }

  /** Whatever the interleaving, the lost races and the deaths: each execution's log
      is numbered 1..n without gap or repetition, ids are unique, everything published is
      already stored, and rows are only ever added at the end. */
  lemma {:induction false} LogIsAlwaysDense(s: State, steps: seq<Step>)
    requires Inv(s)
    ensures Inv(Run(s, steps))
    ensures s.rows <= Run(s, steps).rows
    decreases |steps|
  {
    if steps != [] {
      StepKeepsInv(s, steps[0]);
      LogIsAlwaysDense(Next(s, steps[0]), steps[1..]);
    }
  }

  /** From an empty table, under any interleaving: the log of every execution is 1..n, and every
      published event stands in it at the place of its sequence number. */
  lemma LogFromTheStart(steps: seq<Step>, x: Uuid)
    ensures var s := Run(INIT, steps);
            && Dense(LogOf(s.rows, x)) && UniqueIds(s.rows)
            && (forall e :: e in s.published && e.executionId == x ==>
                  1 <= e.sequence <= |LogOf(s.rows, x)| && LogOf(s.rows, x)[e.sequence - 1] == e)
  {
    LogIsAlwaysDense(INIT, steps);
    var s := Run(INIT, steps);
    forall e | e in s.published && e.executionId == x
      ensures 1 <= e.sequence <= |LogOf(s.rows, x)| && LogOf(s.rows, x)[e.sequence - 1] == e
    {
      LogOfMember(s.rows, x, e);
    }
  }

  lemma LogOfPrefix(rows: seq<Event>, more: seq<Event>, x: Uuid)
    requires rows <= more
    ensures LogOf(rows, x) <= LogOf(more, x)
  {
    if rows != more {
      var front := more[..|more| - 1];
      assert rows <= front;
      LogOfPrefix(rows, front, x);
      assert LogOf(more, x) == LogOf(front, x) || LogOf(more, x) == LogOf(front, x) + [more[|more| - 1]];
    }
  }

  /** Of two appenders that read the same maximum, exactly one insert succeeds: the first
      commits, and the second leaves the table as it was. */
  lemma RaceHasOneWinner(s: State, a: nat, b: nat, ida: Uuid, idb: Uuid)
    requires Inv(s) && a != b
    requires a in s.appenders && s.appenders[a].ReadMax?
    requires b in s.appenders && s.appenders[b].ReadMax?
    requires s.appenders[a].executionId == s.appenders[b].executionId
    requires s.appenders[a].next == s.appenders[b].next
    requires Next(s, Insert(a, ida)).rows != s.rows
    ensures Run(s, [Insert(a, ida), Insert(b, idb)]).rows == Next(s, Insert(a, ida)).rows
  {
    var t := Next(s, Insert(a, ida));
    var steps := [Insert(a, ida), Insert(b, idb)];
    assert steps[1..] == [Insert(b, idb)] && steps[1..][1..] == [];
    assert Run(s, steps) == Run(t, [Insert(b, idb)]) == Run(Next(t, Insert(b, idb)), []);
    var e := t.appenders[a].event;
    assert e in t.rows && e.sequence == s.appenders[b].next;
  }

  // ── The service itself ──────────────────────────────────────────────────────────

  /** The writing half of the service, undisturbed by other appenders. */
  class EventsService {
    var rows: seq<Event>
    var published: set<Event>

    ghost predicate Valid()
      reads this
    {
      Inv(State(rows, map[], published))
    }

    constructor ()
      ensures Valid() && rows == [] && published == {}
    {
      rows, published := [], {};
    }

    /** Reads the maximum, inserts, then publishes what was stored. */
    method AppendEvent(x: Uuid, kind: Kind, payload: string, id: Uuid) returns (result: Result<Event, string>)
      requires Valid()
      modifies this
      ensures Valid()
      ensures result.Err? <==> exists r :: r in old(rows) && r.id == id
      ensures result.Err? ==> rows == old(rows) && published == old(published)
      ensures result.Ok? ==>
                && result.value == Event(id, x, |LogOf(old(rows), x)| + 1, kind, payload)
                && rows == old(rows) + [result.value]
                && published == old(published) + {result.value}
    {
      ghost var s0 := State(rows, map[], published);
      ghost var s1 := Next(s0, Read(0, x, kind, payload));
      StepKeepsInv(s0, Read(0, x, kind, payload));
      StepKeepsInv(s1, Insert(0, id));
      StepKeepsInv(Next(s1, Insert(0, id)), Publish(0));
      MaxSequenceIsLength(rows, x);
      assert forall r :: r in rows && r.executionId == x ==> r.sequence != MaxSequence(rows, x) + 1 by {
        forall r | r in rows && r.executionId == x ensures r.sequence <= MaxSequence(rows, x) {
          LogOfMember(rows, x, r);
        }
      }
      var event := Event(id, x, MaxSequence(rows, x) + 1, kind, payload);
      if Conflicts(rows, event) {
        return Err("unique constraint");
      }
      rows := rows + [event];
      published := published + {event};
      assert Next(Next(s1, Insert(0, id)), Publish(0)) == State(rows, map[], published);
      result := Ok(event);
    }
  }
}
