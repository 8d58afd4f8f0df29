/** Cursor pagination over one execution's log. Cursors are base64url of a row id;
    encoding is a bijection, so a cursor is modelled by the id itself. */
module EventPages {
  import opened Wrappers
  import opened EventLog

  datatype Page<T> = Page(items: seq<T>, nextCursor: Option<Uuid>)

  /** Given up to `limit + 1` rows, the first `limit` of them and a cursor if one is left over. */
  function Paginate<T>(items: seq<T>, limit: nat, cursorOf: T -> Uuid): Page<T> {
    var hasMore := |items| > limit;
    var page := if hasMore then items[..limit] else items;
    Page(page, if hasMore && page != [] then Some(cursorOf(page[|page| - 1])) else None)
  }

  /** The `where` clause: an `after` of 0 filters nothing. */
  function Matching(log: seq<Event>, after: nat): seq<Event> {
    if log == [] then [] else
    var rest := Matching(log[..|log| - 1], after);
    if after == 0 || log[|log| - 1].sequence > after then rest + [log[|log| - 1]] else rest
  }

  /** The rows after the one whose id is the cursor; none if no row has that id. */
  function AfterCursor(rows: seq<Event>, cursor: Uuid): seq<Event> {
    if rows == [] then [] else if rows[0].id == cursor then rows[1..] else AfterCursor(rows[1..], cursor)
  }

  /** The matching rows that a query may return: all of them, or those after the cursor. */
  function Remaining(log: seq<Event>, cursor: Option<Uuid>, after: nat): seq<Event> {
    var rows := Matching(log, after);
    if cursor.Some? then AfterCursor(rows, cursor.value) else rows
  }

  function Take<T>(s: seq<T>, n: nat): seq<T> {
    if |s| > n then s[..n] else s
  }

  /** `getEvents` on the log of one execution, which is stored in sequence order. */
  function GetEvents(log: seq<Event>, limit: nat, cursor: Option<Uuid>, after: nat): Page<Event> {
    Paginate(Take(Remaining(log, cursor, after), limit + 1), limit, (e: Event) => e.id)
  }

  /** Where reading after `after` starts in a dense log. */
  function StartOf(log: seq<Event>, after: nat): (k: nat)
    ensures k <= |log|
  {
    if after <= |log| then after else |log|
  }

  lemma {:induction false} MatchingIsSuffix(log: seq<Event>, after: nat)
    requires Dense(log)
    ensures Matching(log, after) == log[StartOf(log, after)..]
  {
    if log != [] {
      var front := log[..|log| - 1];
      MatchingIsSuffix(front, after);
      if after <= |front| {
        assert log[after..] == front[after..] + [log[|log| - 1]];
      }
    }
  }

  lemma {:induction false} AfterCursorIsSuffix(rows: seq<Event>, i: nat)
    requires UniqueIds(rows) && i < |rows|
    ensures AfterCursor(rows, rows[i].id) == rows[i + 1..]
  {
    if i > 0 {
      AfterCursorIsSuffix(rows[1..], i - 1);
      assert rows[1..][i - 1 + 1..] == rows[i + 1..];
    }
  }

  /** `k` is where a query reads on: at the start, or just after the event the cursor names. */
  predicate ReadsFrom(log: seq<Event>, cursor: Option<Uuid>, after: nat, k: nat) {
    && k <= |log|
    && if cursor.Some? then after < k && cursor.value == log[k - 1].id else k == StartOf(log, after)
  }

  lemma RemainingIsSuffix(log: seq<Event>, cursor: Option<Uuid>, after: nat, k: nat)
    requires Dense(log) && UniqueIds(log) && ReadsFrom(log, cursor, after, k)
    ensures Remaining(log, cursor, after) == log[k..]
  {
    MatchingIsSuffix(log, after);
    if cursor.Some? {
      var rows := log[after..];
      assert rows[k - 1 - after] == log[k - 1];
      AfterCursorIsSuffix(rows, k - 1 - after);
      assert rows[k - after..] == log[k..];
    }
  }

  lemma TakeMore<T>(rest: seq<T>, limit: nat)
    requires |rest| > limit
    ensures |Take(rest, limit + 1)| == limit + 1
    ensures Take(rest, limit + 1)[..limit] == rest[..limit]
  {
  }

  /** A page is the next `limit` events of the log from position `k`; a further cursor, naming
      the last of them, is given exactly when events remain. */
  lemma PageIsSlice(log: seq<Event>, limit: nat, cursor: Option<Uuid>, after: nat, k: nat)
    requires Dense(log) && UniqueIds(log) && limit >= 1
    requires ReadsFrom(log, cursor, after, k)
    ensures var page := GetEvents(log, limit, cursor, after);
            && page.items == log[k..Min(k + limit, |log|)]
            && page.nextCursor == if k + limit < |log| then Some(log[k + limit - 1].id) else None
  {
    RemainingIsSuffix(log, cursor, after, k);
    var rest := log[k..];
    if |rest| > limit {
      TakeMore(rest, limit);
      assert rest[..limit] == log[k..k + limit];
    }
  }
}
