/** Refresh-token rotation with reuse detection, as suggested in section 10.4 of RFC 6749.
    Each handler is one atomic step. */
module RefreshTokens {
  import opened Wrappers

  /** Tokens are stored, and looked up, by the hash of their raw value; rows stand in creation order. */
  datatype Token = Token(userId: Uuid, hash: Uuid, family: Uuid, expiresAt: int, revoked: bool)

  datatype Reply = Issued(hash: Uuid) | Done | Invalid | Reused | TokenExpired | UserGone | StoreFailed

  /** Login and register issue a token; fresh hashes and family ids come from outside. */
  datatype Op =
    | Issue(userId: Uuid, hash: Uuid, family: Uuid, expiresAt: int)
    | Refresh(hash: Uuid, newHash: Uuid, newExpiresAt: int, now: int, userExists: bool)
    | Logout(hash: Uuid)
    | LogoutAll(userId: Uuid)

  function Find(tokens: seq<Token>, hash: Uuid): (i: Option<nat>)
    ensures i.Some? ==> i.value < |tokens| && tokens[i.value].hash == hash
    ensures i.None? ==> forall j :: 0 <= j < |tokens| ==> tokens[j].hash != hash
  {
    if tokens == [] then None
    else if tokens[|tokens| - 1].hash == hash then Some(|tokens| - 1)
    else Find(tokens[..|tokens| - 1], hash)
  }

  predicate HasFamily(tokens: seq<Token>, family: Uuid) {
    exists i :: 0 <= i < |tokens| && tokens[i].family == family
  }

  function Revoke(tokens: seq<Token>, i: nat): seq<Token>
    requires i < |tokens|
  {
    tokens[i := tokens[i].(revoked := true)]
  }

  function RevokeFamily(tokens: seq<Token>, family: Uuid): seq<Token> {
    seq(|tokens|, i requires 0 <= i < |tokens| =>
      if tokens[i].family == family then tokens[i].(revoked := true) else tokens[i])
  }

  function RevokeUser(tokens: seq<Token>, userId: Uuid): seq<Token> {
    seq(|tokens|, i requires 0 <= i < |tokens| =>
      if tokens[i].userId == userId then tokens[i].(revoked := true) else tokens[i])
  }

  function RefreshOn(tokens: seq<Token>, hash: Uuid, newHash: Uuid, newExpiresAt: int, now: int,
                     userExists: bool): (seq<Token>, Reply)
  {
    var i := Find(tokens, hash);
    if i.None? then (tokens, Invalid)
    else
      var stored := tokens[i.value];
      if stored.revoked then (RevokeFamily(tokens, stored.family), Reused)
      else if stored.expiresAt < now then (Revoke(tokens, i.value), TokenExpired)
      else
        var rotated := Revoke(tokens, i.value);
        if !userExists then (rotated, UserGone)
        else if Find(rotated, newHash).Some? then (rotated, StoreFailed)
        else (rotated + [Token(stored.userId, newHash, stored.family, newExpiresAt, false)], Issued(newHash))
  }

  function Perform(tokens: seq<Token>, op: Op): (seq<Token>, Reply) {
    match op
    case Issue(user, hash, family, expiresAt) =>
      // A random family id is never one in use; a hash in use breaks the unique key.
      if Find(tokens, hash).Some? || HasFamily(tokens, family) then (tokens, StoreFailed)
      else (tokens + [Token(user, hash, family, expiresAt, false)], Issued(hash))
    case Refresh(hash, newHash, newExpiresAt, now, userExists) =>
      RefreshOn(tokens, hash, newHash, newExpiresAt, now, userExists)
    case Logout(hash) =>
      var i := Find(tokens, hash);
      (if i.Some? && !tokens[i.value].revoked then Revoke(tokens, i.value) else tokens, Done)
    case LogoutAll(user) => (RevokeUser(tokens, user), Done)
  }

  function After(ops: seq<Op>): seq<Token> {
    if ops == [] then [] else Perform(After(ops[..|ops| - 1]), ops[|ops| - 1]).0
  }

  /** What the `k`-th operation of a history answers. */
  function ReplyAt(ops: seq<Op>, k: nat): Reply
    requires k < |ops|
  {
    Perform(After(ops[..k]), ops[k]).1
  }

  // ── Invariants ──────────────────────────────────────────────────────────────────

  /** Hashes are unique, all tokens of a family belong to one user, and only the newest token of
      a family can be unrevoked. */
  predicate Inv(tokens: seq<Token>) {
    && (forall i, j :: 0 <= i < j < |tokens| ==> tokens[i].hash != tokens[j].hash)
    && (forall i, j :: 0 <= i < j < |tokens| && tokens[i].family == tokens[j].family ==>
          tokens[i].userId == tokens[j].userId && tokens[i].revoked)
  }

  /** Rows stay, keep everything but `revoked`, and are never unrevoked. */
  predicate Evolves(before: seq<Token>, after: seq<Token>) {
    && |before| <= |after|
    && forall i :: 0 <= i < |before| ==>
         after[i].(revoked := true) == before[i].(revoked := true) && (before[i].revoked ==> after[i].revoked)
  }

  /** No token of the family is usable. */
  predicate Dead(tokens: seq<Token>, family: Uuid) {
    forall i :: 0 <= i < |tokens| && tokens[i].family == family ==> tokens[i].revoked
  }

  lemma RevokingKeeps(tokens: seq<Token>, next: seq<Token>)
    requires Inv(tokens) && |next| == |tokens| && Evolves(tokens, next)
    ensures Inv(next)
    ensures forall f :: HasFamily(tokens, f) && Dead(tokens, f) ==> HasFamily(next, f) && Dead(next, f)
  {
    forall f | HasFamily(tokens, f) && Dead(tokens, f) ensures HasFamily(next, f) && Dead(next, f) {
      var i :| 0 <= i < |tokens| && tokens[i].family == f;
      assert next[i].family == f;
    }
  }

  lemma AppendKeeps(tokens: seq<Token>, t: Token)
    requires Inv(tokens) && !t.revoked
    requires forall i :: 0 <= i < |tokens| ==> tokens[i].hash != t.hash
    requires forall i :: 0 <= i < |tokens| && tokens[i].family == t.family ==>
               tokens[i].revoked && tokens[i].userId == t.userId
    ensures Inv(tokens + [t])
  {
  }

  /** `Append` revives no dead family, as long as it is not the family of the new token. */
  lemma AppendRevivesNone(tokens: seq<Token>, t: Token, f: Uuid)
    requires HasFamily(tokens, f) && Dead(tokens, f) && t.family != f
    ensures HasFamily(tokens + [t], f) && Dead(tokens + [t], f)
  {
    var i :| 0 <= i < |tokens| && tokens[i].family == f;
    assert (tokens + [t])[i].family == f;
  }

  lemma RefreshKeeps(tokens: seq<Token>, hash: Uuid, newHash: Uuid, newExpiresAt: int, now: int, userExists: bool)
    requires Inv(tokens)
    ensures var next := RefreshOn(tokens, hash, newHash, newExpiresAt, now, userExists).0;
            && Inv(next) && Evolves(tokens, next)
            && forall f :: HasFamily(tokens, f) && Dead(tokens, f) ==> HasFamily(next, f) && Dead(next, f)
  {
    var next := RefreshOn(tokens, hash, newHash, newExpiresAt, now, userExists).0;
    var i := Find(tokens, hash);
    if i.Some? {
      if |next| == |tokens| {
        RevokingKeeps(tokens, next);
      } else {
        var rotated := Revoke(tokens, i.value);
        RevokingKeeps(tokens, rotated);
        var t := next[|tokens|];
        assert next == rotated + [t];
        AppendKeeps(rotated, t);
        forall f | HasFamily(tokens, f) && Dead(tokens, f) ensures HasFamily(next, f) && Dead(next, f) {
          AppendRevivesNone(rotated, t, f);
        }
      }
    }
  }

  lemma PerformKeeps(tokens: seq<Token>, op: Op)
    requires Inv(tokens)
    ensures Inv(Perform(tokens, op).0) && Evolves(tokens, Perform(tokens, op).0)
    ensures forall f :: HasFamily(tokens, f) && Dead(tokens, f) ==>
              HasFamily(Perform(tokens, op).0, f) && Dead(Perform(tokens, op).0, f)
  {
    var next := Perform(tokens, op).0;
    match op
    case Issue(user, hash, family, expiresAt) =>
      if next != tokens {
        var t := Token(user, hash, family, expiresAt, false);
        AppendKeeps(tokens, t);
        forall f | HasFamily(tokens, f) && Dead(tokens, f) ensures HasFamily(next, f) && Dead(next, f) {
          AppendRevivesNone(tokens, t, f);
        }
      }
    case Refresh(hash, newHash, newExpiresAt, now, userExists) =>
      RefreshKeeps(tokens, hash, newHash, newExpiresAt, now, userExists);
    case Logout(hash) => RevokingKeeps(tokens, next);
    case LogoutAll(user) => RevokingKeeps(tokens, next);
  }

  lemma {:induction false} HistoryKeeps(ops: seq<Op>, k: nat)
    requires k <= |ops|
    ensures Inv(After(ops)) && Evolves(After(ops[..k]), After(ops))
    ensures forall f :: HasFamily(After(ops[..k]), f) && Dead(After(ops[..k]), f) ==> Dead(After(ops), f)
    ensures forall f :: HasFamily(After(ops[..k]), f) && Dead(After(ops[..k]), f) ==> HasFamily(After(ops), f)
    decreases |ops|
  {
    if k == |ops| {
      assert ops[..k] == ops;
      if ops != [] {
        HistoryKeeps(ops[..k - 1], k - 1);
        PerformKeeps(After(ops[..k - 1]), ops[k - 1]);
      }
    } else {
      var front := ops[..|ops| - 1];
      assert front[..k] == ops[..k];
      HistoryKeeps(front, k);
      PerformKeeps(After(front), ops[|ops| - 1]);
    }
  }

  /** Over any history each family has at most one unrevoked token: its newest. */
  lemma OneLiveTokenPerFamily(ops: seq<Op>, i: nat, j: nat)
    requires i < |After(ops)| && j < |After(ops)| && After(ops)[i].family == After(ops)[j].family
    ensures !After(ops)[i].revoked && !After(ops)[j].revoked ==> i == j
    ensures !After(ops)[i].revoked ==> j <= i
  {
    HistoryKeeps(ops, |ops|);
  }

  /** A token is refreshed successfully at most once. */
  lemma RefreshedAtMostOnce(ops: seq<Op>, a: nat, b: nat)
    requires a < b < |ops| && ops[a].Refresh? && ops[b].Refresh? && ops[a].hash == ops[b].hash
    requires ReplyAt(ops, a).Issued?
    ensures ReplyAt(ops, b) == Reused
  {
    var t0, t1, t2 := After(ops[..a]), After(ops[..a + 1]), After(ops[..b]);
    assert ops[..a + 1][..a] == ops[..a] && ops[..b][..a + 1] == ops[..a + 1] && ops[..b][..a] == ops[..a];
    HistoryKeeps(ops[..b], a + 1);
    HistoryKeeps(ops[..b], |ops[..b]|);
    HistoryKeeps(ops[..a], a);
    var i := Find(t0, ops[a].hash).value;
    assert t1[i].revoked && t1[i].hash == ops[a].hash;
    assert t2[i].revoked && t2[i].hash == ops[a].hash;
    assert Find(t2, ops[b].hash) == Some(i);
  }

  /** After a revoked token has been presented, no token of its family refreshes ever again,
      whichever it is and whenever it was issued. */
  lemma ReuseKillsTheFamily(ops: seq<Op>, a: nat, b: nat)
    requires a < b < |ops| && ops[a].Refresh? && ops[b].Refresh? && ReplyAt(ops, a).Reused?
    ensures var family := After(ops[..a])[Find(After(ops[..a]), ops[a].hash).value].family;
            var i := Find(After(ops[..b]), ops[b].hash);
            i.Some? && After(ops[..b])[i.value].family == family ==> ReplyAt(ops, b) == Reused
  {
    var t0, t1, t2 := After(ops[..a]), After(ops[..a + 1]), After(ops[..b]);
    assert ops[..a + 1][..a] == ops[..a] && ops[..b][..a + 1] == ops[..a + 1];
    var k := Find(t0, ops[a].hash).value;
    var family := t0[k].family;
    assert t1 == RevokeFamily(t0, family);
    assert t1[k].family == family;
    assert HasFamily(t1, family) && Dead(t1, family);
    HistoryKeeps(ops[..b], a + 1);
    assert Dead(t2, family);
  }

  /** A detection, like every refresh, touches no other family: their tokens stay exactly as
      they are; and a detection leaves no usable token in its own. */
  lemma RefreshTouchesOneFamily(tokens: seq<Token>, hash: Uuid, newHash: Uuid, newExpiresAt: int, now: int,
                                userExists: bool)
    requires Find(tokens, hash).Some?
    ensures var family := tokens[Find(tokens, hash).value].family;
            var (next, reply) := RefreshOn(tokens, hash, newHash, newExpiresAt, now, userExists);
            && |tokens| <= |next| <= |tokens| + 1
            && (forall i :: 0 <= i < |tokens| && tokens[i].family != family ==> next[i] == tokens[i])
            && (|next| > |tokens| ==> next[|tokens|].family == family)
            && (reply.Reused? ==> |next| == |tokens| && Dead(next, family))
  {
  }

  /** Rotation hands over: on success the new token is the family's only usable one, for the
      same user, and the old one is not; in every other case no token has become usable. */
  lemma RefreshHandsOver(tokens: seq<Token>, hash: Uuid, newHash: Uuid, newExpiresAt: int, now: int, userExists: bool)
    requires Inv(tokens)
    ensures var (next, reply) := RefreshOn(tokens, hash, newHash, newExpiresAt, now, userExists);
            if reply.Issued? then
              var used := tokens[Find(tokens, hash).value];
              && !used.revoked && used.expiresAt >= now && userExists
              && |next| == |tokens| + 1
              && next[|tokens|] == Token(used.userId, newHash, used.family, newExpiresAt, false)
              && (forall i :: 0 <= i < |tokens| && tokens[i].family == used.family ==> next[i].revoked)
            else
              |next| == |tokens| && forall i :: 0 <= i < |tokens| ==> tokens[i].revoked ==> next[i].revoked
  {
    PerformKeeps(tokens, Refresh(hash, newHash, newExpiresAt, now, userExists));
  }

  // ── What a refresh answers ──────────────────────────────────────────────────────

  /** Token `i` is the one presented. */
  predicate Presented(tokens: seq<Token>, hash: Uuid, i: nat) {
    i < |tokens| && tokens[i].hash == hash
  }

  predicate Unused(tokens: seq<Token>, hash: Uuid) {
    forall i :: 0 <= i < |tokens| ==> tokens[i].hash != hash
  }

  /** The token presented has been used before, or has been logged out. */
  predicate PresentsRevoked(tokens: seq<Token>, hash: Uuid) {
    exists i :: 0 <= i < |tokens| && Presented(tokens, hash, i) && tokens[i].revoked
  }

  predicate PresentsExpired(tokens: seq<Token>, hash: Uuid, now: int) {
    exists i :: 0 <= i < |tokens| && Presented(tokens, hash, i) && !tokens[i].revoked && tokens[i].expiresAt < now
  }

  predicate PresentsUsable(tokens: seq<Token>, hash: Uuid, now: int) {
    exists i :: 0 <= i < |tokens| && Presented(tokens, hash, i) && !tokens[i].revoked && tokens[i].expiresAt >= now
  }

  /** When each reply is given. */
  predicate Answers(tokens: seq<Token>, hash: Uuid, newHash: Uuid, now: int, userExists: bool, reply: Reply) {
    && (reply == Issued(newHash) <==> PresentsUsable(tokens, hash, now) && userExists && Unused(tokens, newHash))
    && (reply == StoreFailed <==> PresentsUsable(tokens, hash, now) && userExists && !Unused(tokens, newHash))
    && (reply == UserGone <==> PresentsUsable(tokens, hash, now) && !userExists)
    && (reply == TokenExpired <==> PresentsExpired(tokens, hash, now))
    && (reply == Reused <==> PresentsRevoked(tokens, hash))
    && (reply == Invalid <==> Unused(tokens, hash))
    && !reply.Done?
  }

  /** What each reply leaves of the table, if token `i` was presented: a reuse revokes its family, and every other
      reply that token alone, even if no new one can be stored. */
  predicate Leaves(tokens: seq<Token>, i: nat, newExpiresAt: int, reply: Reply, next: seq<Token>)
    requires i < |tokens|
  {
    var used := tokens[i];
    match reply
    case Reused =>
      |next| == |tokens| && forall j :: 0 <= j < |tokens| ==>
        next[j] == if tokens[j].family == used.family then tokens[j].(revoked := true) else tokens[j]
    case Issued(hash) =>
      next == tokens[i := used.(revoked := true)] + [Token(used.userId, hash, used.family, newExpiresAt, false)]
    case _ => next == tokens[i := used.(revoked := true)]
  }

  /** For every table and every request, the exact condition of each reply and what it leaves: a new token is issued if
      and only if the one presented is stored, unrevoked and not past its time, its user exists, and the new hash is
      unused. */
  lemma RefreshAnswers(tokens: seq<Token>, hash: Uuid, newHash: Uuid, newExpiresAt: int, now: int, userExists: bool)
    requires Inv(tokens)
    ensures var (next, reply) := RefreshOn(tokens, hash, newHash, newExpiresAt, now, userExists);
            && Answers(tokens, hash, newHash, now, userExists, reply)
            && (reply.Invalid? ==> next == tokens)
            && forall i: nat :: Presented(tokens, hash, i) ==> Leaves(tokens, i, newExpiresAt, reply, next)
  {
    var found := Find(tokens, hash);
    if found.Some? {
      var i := found.value;
      assert Presented(tokens, hash, i);
      assert forall j: nat :: Presented(tokens, hash, j) ==> j == i;
      RotatedHashes(tokens, i, newHash);
    }
  }

  lemma RotatedHashes(tokens: seq<Token>, i: nat, newHash: Uuid)
    requires i < |tokens|
    ensures Find(Revoke(tokens, i), newHash).None? <==> Unused(tokens, newHash)
  {
    var rotated := Revoke(tokens, i);
    assert forall j :: 0 <= j < |tokens| ==> rotated[j].hash == tokens[j].hash;
  }

  // ── Logging out ─────────────────────────────────────────────────────────────────

  /** Once revoked, a token is answered as reuse, whatever happened in between. */
  lemma RevokedIsReused(ops: seq<Op>, k: nat, b: nat, i: nat)
    requires k <= b < |ops| && ops[b].Refresh?
    requires Presented(After(ops[..k]), ops[b].hash, i) && After(ops[..k])[i].revoked
    ensures ReplyAt(ops, b) == Reused
  {
    assert ops[..b][..k] == ops[..k];
    HistoryKeeps(ops[..b], k);
    var tokens := After(ops[..b]);
    assert Presented(tokens, ops[b].hash, i) && tokens[i].revoked;
    var r := ops[b];
    RefreshAnswers(tokens, r.hash, r.newHash, r.newExpiresAt, r.now, r.userExists);
  }

  /** A token that was stored when it was logged out, alone or with all of its user, never refreshes again. */
  lemma LoggedOutNeverRefreshes(ops: seq<Op>, a: nat, b: nat, i: nat)
    requires a < b < |ops| && ops[b].Refresh? && Presented(After(ops[..a]), ops[b].hash, i)
    requires ops[a] == Logout(ops[b].hash) || ops[a] == LogoutAll(After(ops[..a])[i].userId)
    ensures ReplyAt(ops, b) == Reused
  {
    assert ops[..a + 1][..a] == ops[..a];
    HistoryKeeps(ops[..a], a);
    var before, tokens := After(ops[..a]), After(ops[..a + 1]);
    assert tokens == Perform(before, ops[a]).0;
    assert tokens[i].hash == ops[b].hash && tokens[i].revoked;
    RevokedIsReused(ops, a + 1, b, i);
  }

  // ── The service ─────────────────────────────────────────────────────────────────

  class AuthService {
    var tokens: seq<Token>

    constructor ()
      ensures tokens == []
    {
      tokens := [];
    }

    method RevokeOne(i: nat)
      requires i < |tokens|
      modifies this
      ensures tokens == Revoke(old(tokens), i)
    {
      tokens := tokens[i := tokens[i].(revoked := true)];
    }

    method IssueTokenPair(user: Uuid, hash: Uuid, family: Uuid, expiresAt: int) returns (reply: Reply)
      requires Inv(tokens) && !HasFamily(tokens, family)
      modifies this
      ensures Inv(tokens)
      ensures (tokens, reply) == Perform(old(tokens), Issue(user, hash, family, expiresAt))
      ensures if Unused(old(tokens), hash)
              then reply == Issued(hash) && tokens == old(tokens) + [Token(user, hash, family, expiresAt, false)]
              else reply == StoreFailed && tokens == old(tokens)
    {
      PerformKeeps(tokens, Issue(user, hash, family, expiresAt));
      if Find(tokens, hash).Some? {
        return StoreFailed;
      }
      tokens := tokens + [Token(user, hash, family, expiresAt, false)];
      reply := Issued(hash);
    }

    method Refresh(hash: Uuid, newHash: Uuid, newExpiresAt: int, now: int, userExists: bool) returns (reply: Reply)
      requires Inv(tokens)
      modifies this
      ensures Inv(tokens) && Evolves(old(tokens), tokens)
      ensures (tokens, reply) == RefreshOn(old(tokens), hash, newHash, newExpiresAt, now, userExists)
      ensures Answers(old(tokens), hash, newHash, now, userExists, reply)
      ensures reply.Invalid? ==> tokens == old(tokens)
      ensures forall i: nat :: Presented(old(tokens), hash, i) ==> Leaves(old(tokens), i, newExpiresAt, reply, tokens)
    {
      PerformKeeps(tokens, Op.Refresh(hash, newHash, newExpiresAt, now, userExists));
      RefreshAnswers(tokens, hash, newHash, newExpiresAt, now, userExists);
      var i := Find(tokens, hash);
      if i.None? {
        return Invalid;
      }
      var stored := tokens[i.value];
      if stored.revoked {
        tokens := RevokeFamily(tokens, stored.family);
        return Reused;
      }
      if stored.expiresAt < now {
        RevokeOne(i.value);
        return TokenExpired;
      }
      RevokeOne(i.value);
      if !userExists {
        return UserGone;
      }
      if Find(tokens, newHash).Some? {
        return StoreFailed;
      }
      tokens := tokens + [Token(stored.userId, newHash, stored.family, newExpiresAt, false)];
      reply := Issued(newHash);
    }

    method Logout(hash: Uuid)
      requires Inv(tokens)
      modifies this
      ensures Inv(tokens) && tokens == Perform(old(tokens), Op.Logout(hash)).0
      ensures Unused(old(tokens), hash) ==> tokens == old(tokens)
      ensures forall i: nat :: Presented(old(tokens), hash, i) ==>
                tokens == old(tokens)[i := old(tokens)[i].(revoked := true)]
    {
      PerformKeeps(tokens, Op.Logout(hash));
      var i := Find(tokens, hash);
      if i.Some? && !tokens[i.value].revoked {
        RevokeOne(i.value);
      }
    }

    method LogoutAll(user: Uuid)
      requires Inv(tokens)
      modifies this
      ensures Inv(tokens) && tokens == RevokeUser(old(tokens), user)
      ensures |tokens| == |old(tokens)| && forall i :: 0 <= i < |tokens| ==>
                tokens[i] == if old(tokens)[i].userId == user then old(tokens)[i].(revoked := true) else old(tokens)[i]
    {
      PerformKeeps(tokens, Op.LogoutAll(user));
      tokens := RevokeUser(tokens, user);
    }
  }
}
