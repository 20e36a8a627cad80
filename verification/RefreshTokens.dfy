/** Refresh-token rotation: a rotation hands a session from one token to the next, and a token that comes back after its
    rotation ends all sessions of its user. Each request is one atomic step. */
module RefreshTokens {
  import opened Common

  /** A raw token and its row's id stand for each other: hashes are injective. */
  datatype Token = Token(user: Id, expiresAt: Time, revokedAt: Option<Time>, replacedBy: Option<Id>)

  datatype Outcome = Issued(id: Id) | InvalidToken | TokenReused | Expired | Inactive | LoggedOut | RevokedAll

  predicate Active(tokens: map<Id, Token>, id: Id) {
    id in tokens && tokens[id].revokedAt.None?
  }

  function RevokeAll(tokens: map<Id, Token>, user: Id, now: Time): map<Id, Token> {
    map id | id in tokens ::
      if tokens[id].user == user && tokens[id].revokedAt.None? then tokens[id].(revokedAt := Some(now)) else tokens[id]
  }

  function Issue(tokens: map<Id, Token>, user: Id, now: Time, ttl: int, newId: Id): map<Id, Token> {
    tokens[newId := Token(user, now + ttl, None, None)]
  }

  /** refresh. `active` says whether the token's user still exists and is active. */
  function Refresh(tokens: map<Id, Token>, raw: Id, active: bool, now: Time, ttl: int,
                   newId: Id): (map<Id, Token>, Outcome) {
    if raw !in tokens then (tokens, InvalidToken)
    else if tokens[raw].revokedAt.Some? then (RevokeAll(tokens, tokens[raw].user, now), TokenReused)
    else if tokens[raw].expiresAt <= now then (tokens, Expired)
    else if !active then (tokens, Inactive)
    else
      var issued := Issue(tokens, tokens[raw].user, now, ttl, newId);
      (issued[raw := tokens[raw].(revokedAt := Some(now), replacedBy := Some(newId))], Issued(newId))
  }

  function Logout(tokens: map<Id, Token>, raw: Id, user: Id, now: Time): (map<Id, Token>, Outcome) {
    if raw !in tokens || tokens[raw].user != user then (tokens, InvalidToken)
    else if tokens[raw].revokedAt.Some? then (tokens, LoggedOut)
    else (tokens[raw := tokens[raw].(revokedAt := Some(now))], LoggedOut)
  }

  class AuthService {
    var tokens: map<Id, Token>
    const ttl: int

    constructor (ttl: int)
      ensures tokens == map[] && this.ttl == ttl
    {
      tokens := map[];
      this.ttl := ttl;
    }

    /** The last part of a login whose password was right. */
    method IssueTokens(user: Id, now: Time, newId: Id) returns (raw: Id)
      modifies this
      ensures tokens == Issue(old(tokens), user, now, ttl, newId) && raw == newId
    {
      tokens := tokens[newId := Token(user, now + ttl, None, None)];
      return newId;
    }

    method RefreshTokens(raw: Id, active: bool, now: Time, newId: Id) returns (outcome: Outcome)
      requires newId !in tokens
      modifies this
      ensures (tokens, outcome) == Refresh(old(tokens), raw, active, now, ttl, newId)
    {
      if raw !in tokens {
        return InvalidToken;
      }
      var stored := tokens[raw];
      if stored.revokedAt.Some? {
        var revoked := RevokeAllOf(stored.user, now);
        return TokenReused;
      }
      if stored.expiresAt <= now {
        return Expired;
      }
      if !active {
        return Inactive;
      }
      var replacement := IssueTokens(stored.user, now, newId);
      stored := stored.(revokedAt := Some(now));
      stored := stored.(replacedBy := Some(replacement));
      tokens := tokens[raw := stored];
      return Issued(replacement);
    }

    method LogoutToken(raw: Id, user: Id, now: Time) returns (outcome: Outcome)
      modifies this
      ensures (tokens, outcome) == Logout(old(tokens), raw, user, now)
    {
      if raw !in tokens || tokens[raw].user != user {
        return InvalidToken;
      }
      if tokens[raw].revokedAt.None? {
        tokens := tokens[raw := tokens[raw].(revokedAt := Some(now))];
      }
      return LoggedOut;
    }

    /** logout_all, and the answer to a replayed token: of the user's tokens none stays active, what was revoked before
        keeps its time, nobody else's token is touched, and the count is of the rows that changed. */
    method RevokeAllOf(user: Id, now: Time) returns (revoked: nat)
      modifies this
      ensures tokens == RevokeAll(old(tokens), user, now)
      ensures ActiveOf(tokens, user) == {} && tokens.Keys == old(tokens).Keys
      ensures forall id :: id in tokens && id !in ActiveOf(old(tokens), user) ==> tokens[id] == old(tokens)[id]
      ensures forall id :: id in ActiveOf(old(tokens), user) ==>
                && tokens[id].revokedAt == Some(now) && tokens[id].replacedBy == old(tokens)[id].replacedBy
                && tokens[id].user == user && tokens[id].expiresAt == old(tokens)[id].expiresAt
      ensures revoked == |set id | id in tokens && tokens[id] != old(tokens)[id]|
    {
      revoked := |ActiveOf(tokens, user)|;
      tokens := map id | id in tokens ::
        if tokens[id].user == user && tokens[id].revokedAt.None? then tokens[id].(revokedAt := Some(now))
        else tokens[id];
      assert ActiveOf(old(tokens), user) == set id | id in tokens && tokens[id] != old(tokens)[id];
    }
  }

  function ActiveOf(tokens: map<Id, Token>, user: Id): set<Id> {
    set id | id in tokens && tokens[id].user == user && tokens[id].revokedAt.None?
  }

  // ---------------------------------------------------------------- what each request is answered

  /** A refresh issues a token exactly for a known, unrevoked and unexpired one of an active user. */
  lemma RefreshDecides(tokens: map<Id, Token>, raw: Id, active: bool, now: Time, ttl: int, newId: Id)
    requires newId !in tokens
    ensures var (after, outcome) := Refresh(tokens, raw, active, now, ttl, newId);
            var usable := raw in tokens && tokens[raw].revokedAt.None?;
            && (outcome.Issued? <==> usable && now < tokens[raw].expiresAt && active)
            && (outcome == InvalidToken <==> raw !in tokens)
            && (outcome == TokenReused <==> raw in tokens && !usable)
            && (outcome == Expired <==> usable && tokens[raw].expiresAt <= now)
            && (outcome == Inactive <==> usable && now < tokens[raw].expiresAt && !active)
            && (!outcome.Issued? && outcome != TokenReused ==> after == tokens)
  {
  }

  /** The new token belongs to the old one's user for one lifetime from now; the old one is revoked and names it; no
      other row changes. */
  lemma RotationHandsOver(tokens: map<Id, Token>, raw: Id, active: bool, now: Time, ttl: int, newId: Id)
    requires newId !in tokens && Refresh(tokens, raw, active, now, ttl, newId).1.Issued?
    ensures raw in tokens
    ensures var (after, outcome) := Refresh(tokens, raw, active, now, ttl, newId);
            && outcome == Issued(newId) && after.Keys == tokens.Keys + {newId}
            && after[newId] == Token(tokens[raw].user, now + ttl, None, None)
            && after[raw] == Token(tokens[raw].user, tokens[raw].expiresAt, Some(now), Some(newId))
            && (forall id :: id in tokens && id != raw ==> after[id] == tokens[id])
  {
  }

  /** A token issued at a login can be refreshed until its lifetime is over and not after, while its user is active. */
  lemma LoginLasts(tokens: map<Id, Token>, user: Id, now: Time, ttl: int, id: Id, active: bool, later: Time, newId: Id)
    requires id !in tokens && newId !in tokens && newId != id
    ensures var issued := Issue(tokens, user, now, ttl, id);
            && (Refresh(issued, id, active, later, ttl, newId).1.Issued? <==> active && later < now + ttl)
            && issued.Keys == tokens.Keys + {id} && issued[id].user == user
            && (forall other :: other in tokens ==> issued[other] == tokens[other])
  {
  }

  /** A logout ends the caller's own token and no other; a token revoked before keeps its time. */
  lemma LogoutDecides(tokens: map<Id, Token>, raw: Id, user: Id, now: Time)
    ensures var (after, outcome) := Logout(tokens, raw, user, now);
            var own := raw in tokens && tokens[raw].user == user;
            && outcome == (if own then LoggedOut else InvalidToken)
            && after.Keys == tokens.Keys
            && (forall id :: id in tokens && id != raw ==> after[id] == tokens[id])
            && (raw in tokens ==>
                  after[raw] == if own && tokens[raw].revokedAt.None? then tokens[raw].(revokedAt := Some(now))
                                else tokens[raw])
  {
  }

  // ---------------------------------------------------------------- runs

  /** `root` is the login each token descends from, `logins` the logins since the user's last revoke-all, `exchanges`
      the rotations in order. Ids are drawn in rising order, so they also say which token is older. */
  datatype Sessions = Sessions(tokens: map<Id, Token>, root: map<Id, Id>, logins: map<Id, nat>, exchanges: seq<Id>,
                               nextId: Id)

  datatype Action =
    | Login(user: Id, now: Time, ttl: int)
    | Rotate(raw: Id, active: bool, now: Time, ttl: int)
    | LogOut(raw: Id, user: Id, now: Time)
    | LogOutAll(user: Id, now: Time)

  const NOBODY := Sessions(map[], map[], map[], [], 0)

  function Logins(s: Sessions, user: Id): nat {
    if user in s.logins then s.logins[user] else 0
  }

  function Step(s: Sessions, a: Action): Sessions {
    match a
    case Login(user, now, ttl) =>
      s.(tokens := Issue(s.tokens, user, now, ttl, s.nextId), root := s.root[s.nextId := s.nextId],
         logins := s.logins[user := Logins(s, user) + 1], nextId := s.nextId + 1)
    case Rotate(raw, active, now, ttl) =>
      var (tokens, outcome) := Refresh(s.tokens, raw, active, now, ttl, s.nextId);
      (match outcome
       case Issued(id) =>
         s.(tokens := tokens, root := s.root[id := if raw in s.root then s.root[raw] else raw],
            exchanges := s.exchanges + [raw], nextId := s.nextId + 1)
       case TokenReused => s.(tokens := tokens,
                              logins := if raw in s.tokens then s.logins[s.tokens[raw].user := 0] else s.logins)
       case _ => s)
    case LogOut(raw, user, now) => s.(tokens := Logout(s.tokens, raw, user, now).0)
    case LogOutAll(user, now) => s.(tokens := RevokeAll(s.tokens, user, now), logins := s.logins[user := 0])
  }

  function Run(s: Sessions, actions: seq<Action>): Sessions
    decreases |actions|
  {
    if actions == [] then s else Run(Step(s, actions[0]), actions[1..])
  }

  /** A replaced token is revoked, its replacement exists, is younger, and belongs to the same user and the same
      login. */
  predicate LinkFits(s: Sessions, id: Id) {
    id in s.tokens ==>
      && id < s.nextId && id in s.root && s.root[id] <= id
      && (s.tokens[id].replacedBy.Some? ==>
            var next := s.tokens[id].replacedBy.value;
            && s.tokens[id].revokedAt.Some? && id in s.exchanges
            && id < next && next in s.tokens && next in s.root
            && s.tokens[next].user == s.tokens[id].user && s.root[next] == s.root[id])
  }

  ghost predicate Links(s: Sessions) {
    forall id {:trigger LinkFits(s, id)} :: LinkFits(s, id)
  }

  /** No token replaces two. */
  ghost predicate Injective(s: Sessions) {
    forall a, b :: a in s.tokens && b in s.tokens && s.tokens[a].replacedBy.Some?
                   && s.tokens[a].replacedBy == s.tokens[b].replacedBy
      ==> a == b
  }

  predicate IsTip(s: Sessions, id: Id) {
    id in s.tokens && id in s.root && s.tokens[id].replacedBy.None?
  }

  /** Of the tokens that descend from one login, only one has not been replaced. */
  ghost predicate OneTip(s: Sessions) {
    forall a, b :: IsTip(s, a) && IsTip(s, b) && s.root[a] == s.root[b] ==> a == b
  }

  /** A token is exchanged once, and being exchanged is having a replacement. */
  ghost predicate Exchanged(s: Sessions) {
    && (forall j, k :: 0 <= j < k < |s.exchanges| ==> s.exchanges[j] != s.exchanges[k])
    && (forall k :: 0 <= k < |s.exchanges| ==> s.exchanges[k] in s.tokens && s.tokens[s.exchanges[k]].replacedBy.Some?)
  }

  ghost predicate FewActive(s: Sessions) {
    forall user {:trigger ActiveOf(s.tokens, user)} :: |ActiveOf(s.tokens, user)| <= Logins(s, user)
  }

  ghost predicate Inv(s: Sessions) {
    Links(s) && Injective(s) && OneTip(s) && Exchanged(s) && FewActive(s)
  }

  // ---------------------------------------------------------------- preservation

  lemma StartInv()
    ensures Inv(NOBODY)
  {
  }

  lemma LoginKeepsInv(s: Sessions, user: Id, now: Time, ttl: int)
    requires Inv(s)
    ensures Inv(Step(s, Login(user, now, ttl)))
  {
    var t := Step(s, Login(user, now, ttl));
    assert LinkFits(s, s.nextId);
    forall id ensures LinkFits(t, id) {
      assert LinkFits(s, id);
    }
    forall a, b | IsTip(t, a) && IsTip(t, b) && t.root[a] == t.root[b] ensures a == b {
      assert LinkFits(s, a) && LinkFits(s, b);
      assert a != s.nextId ==> IsTip(s, a);
      assert b != s.nextId ==> IsTip(s, b);
    }
    forall u ensures |ActiveOf(t.tokens, u)| <= Logins(t, u) {
      assert |ActiveOf(s.tokens, u)| <= Logins(s, u);
      assert ActiveOf(t.tokens, u) == if u == user then ActiveOf(s.tokens, u) + {s.nextId} else ActiveOf(s.tokens, u);
    }
  }

  lemma RevokeAllKeepsInv(s: Sessions, user: Id, now: Time)
    requires Inv(s)
    ensures Inv(s.(tokens := RevokeAll(s.tokens, user, now), logins := s.logins[user := 0]))
    ensures ActiveOf(RevokeAll(s.tokens, user, now), user) == {}
  {
    var t := s.(tokens := RevokeAll(s.tokens, user, now), logins := s.logins[user := 0]);
    forall id ensures LinkFits(t, id) {
      assert LinkFits(s, id);
    }
    forall a, b | IsTip(t, a) && IsTip(t, b) && t.root[a] == t.root[b] ensures a == b {
      assert IsTip(s, a) && IsTip(s, b);
    }
    assert ActiveOf(t.tokens, user) == {};
    forall u ensures |ActiveOf(t.tokens, u)| <= Logins(t, u) {
      if u != user {
        assert |ActiveOf(s.tokens, u)| <= Logins(s, u);
        assert ActiveOf(t.tokens, u) == ActiveOf(s.tokens, u);
      }
    }
  }

  lemma LogoutKeepsInv(s: Sessions, raw: Id, user: Id, now: Time)
    requires Inv(s)
    ensures Inv(Step(s, LogOut(raw, user, now)))
  {
    var t := Step(s, LogOut(raw, user, now));
    forall id ensures LinkFits(t, id) {
      assert LinkFits(s, id);
    }
    forall a, b | IsTip(t, a) && IsTip(t, b) && t.root[a] == t.root[b] ensures a == b {
      assert IsTip(s, a) && IsTip(s, b);
    }
    forall u ensures |ActiveOf(t.tokens, u)| <= Logins(t, u) {
      assert |ActiveOf(s.tokens, u)| <= Logins(s, u);
      SubsetSize(ActiveOf(t.tokens, u), ActiveOf(s.tokens, u));
    }
  }

  /** A rotation hands its session to exactly one new token. */
  lemma RotationLinks(s: Sessions, raw: Id, active: bool, now: Time, ttl: int)
    requires Inv(s) && Refresh(s.tokens, raw, active, now, ttl, s.nextId).1.Issued?
    ensures var t := Step(s, Rotate(raw, active, now, ttl)); Links(t) && Injective(t) && OneTip(t) && Exchanged(t)
  {
    var t := Step(s, Rotate(raw, active, now, ttl));
    assert LinkFits(s, raw) && LinkFits(s, s.nextId);
    forall id ensures LinkFits(t, id) {
      assert LinkFits(s, id);
    }
    forall a, b | a in t.tokens && b in t.tokens && t.tokens[a].replacedBy.Some?
      && t.tokens[a].replacedBy == t.tokens[b].replacedBy
      ensures a == b
    {
      assert LinkFits(s, a) && LinkFits(s, b);
    }
    assert IsTip(s, raw);
    forall a, b | IsTip(t, a) && IsTip(t, b) && t.root[a] == t.root[b] ensures a == b {
      assert a != s.nextId ==> IsTip(s, a) && a != raw;
      assert b != s.nextId ==> IsTip(s, b) && b != raw;
    }
  }

  lemma RotationKeepsCounts(s: Sessions, raw: Id, active: bool, now: Time, ttl: int)
    requires Inv(s) && Refresh(s.tokens, raw, active, now, ttl, s.nextId).1.Issued?
    ensures FewActive(Step(s, Rotate(raw, active, now, ttl)))
  {
    var t := Step(s, Rotate(raw, active, now, ttl));
    var user := s.tokens[raw].user;
    assert LinkFits(s, raw) && LinkFits(s, s.nextId);
    forall u ensures |ActiveOf(t.tokens, u)| <= Logins(t, u) {
      assert |ActiveOf(s.tokens, u)| <= Logins(s, u);
      if u == user {
        assert raw in ActiveOf(s.tokens, u);
        assert ActiveOf(t.tokens, u) == ActiveOf(s.tokens, u) - {raw} + {s.nextId};
      } else {
        assert ActiveOf(t.tokens, u) == ActiveOf(s.tokens, u);
      }
    }
  }

  lemma StepKeepsInv(s: Sessions, a: Action)
    requires Inv(s)
    ensures Inv(Step(s, a))
  {
    match a
    case Login(user, now, ttl) => LoginKeepsInv(s, user, now, ttl);
    case LogOut(raw, user, now) => LogoutKeepsInv(s, raw, user, now);
    case LogOutAll(user, now) => RevokeAllKeepsInv(s, user, now);
    case Rotate(raw, active, now, ttl) =>
      match Refresh(s.tokens, raw, active, now, ttl, s.nextId).1 {
        case Issued(_) =>
          RotationLinks(s, raw, active, now, ttl);
          RotationKeepsCounts(s, raw, active, now, ttl);
        case TokenReused => RevokeAllKeepsInv(s, s.tokens[raw].user, now);
        case _ =>
      }
  }

  lemma {:induction false} RunKeepsInv(s: Sessions, actions: seq<Action>)
    requires Inv(s)
    ensures Inv(Run(s, actions))
    decreases |actions|
  {
    if actions != [] {
      StepKeepsInv(s, actions[0]);
      RunKeepsInv(Step(s, actions[0]), actions[1..]);
    }
  }

  // ---------------------------------------------------------------- what every run gives

  /** Each token of the chain was replaced by the next. */
  predicate Chain(s: Sessions, chain: seq<Id>) {
    forall k :: 0 <= k < |chain| - 1 ==> chain[k] in s.tokens && s.tokens[chain[k]].replacedBy == Some(chain[k + 1])
  }

  lemma {:induction false} ChainClimbs(s: Sessions, chain: seq<Id>, j: nat, k: nat)
    requires Links(s) && Chain(s, chain) && j < k < |chain|
    ensures chain[j] < chain[k]
    ensures s.tokens[chain[j]].revokedAt.Some?
    decreases k
  {
    assert LinkFits(s, chain[k - 1]) && LinkFits(s, chain[j]);
    if j < k - 1 {
      ChainClimbs(s, chain, j, k - 1);
    }
  }

  /** In every reachable state: no token replaces two, a token is exchanged at most once, and at most one token that
      descends from a login is active. */
  lemma RotationIsExclusive(actions: seq<Action>)
    ensures var s := Run(NOBODY, actions);
            && Injective(s) && Exchanged(s)
            && (forall a, b :: Active(s.tokens, a) && Active(s.tokens, b) && a in s.root && b in s.root
                               && s.root[a] == s.root[b]
                  ==> a == b)
  {
    StartInv();
    RunKeepsInv(NOBODY, actions);
    var s := Run(NOBODY, actions);
    forall a, b | Active(s.tokens, a) && Active(s.tokens, b) && a in s.root && b in s.root && s.root[a] == s.root[b]
      ensures a == b
    {
      assert LinkFits(s, a) && LinkFits(s, b);
      assert IsTip(s, a) && IsTip(s, b);
    }
  }

  /** In every reachable state a chain of replacements never comes back to a token, and only its last can be active. */
  lemma RotationChains(actions: seq<Action>, chain: seq<Id>, j: nat, k: nat)
    requires j < k < |chain| && Chain(Run(NOBODY, actions), chain)
    ensures chain[j] != chain[k] && !Active(Run(NOBODY, actions).tokens, chain[j])
  {
    StartInv();
    RunKeepsInv(NOBODY, actions);
    ChainClimbs(Run(NOBODY, actions), chain, j, k);
  }

  /** The user's active tokens all descend from logins numbered n or later. */
  ghost predicate OnlySince(s: Sessions, user: Id, n: Id) {
    n <= s.nextId && forall id :: id in ActiveOf(s.tokens, user) ==> id in s.root && s.root[id] >= n
  }

  predicate Owns(s: Sessions, user: Id, raw: Id) {
    raw in s.tokens && s.tokens[raw].user == user
  }

  lemma StepKeepsSince(s: Sessions, a: Action, user: Id, n: Id, raw: Id)
    requires Inv(s) && OnlySince(s, user, n) && Owns(s, user, raw)
    ensures OnlySince(Step(s, a), user, n) && Owns(Step(s, a), user, raw)
  {
    assert LinkFits(s, s.nextId) && LinkFits(s, raw);
    if a.Rotate? {
      assert LinkFits(s, a.raw);
      assert Active(s.tokens, a.raw) && s.tokens[a.raw].user == user ==> a.raw in ActiveOf(s.tokens, user);
    }
    var t := Step(s, a);
    forall id | id in ActiveOf(t.tokens, user) ensures id in t.root && t.root[id] >= n {
      assert id in s.tokens ==> id in ActiveOf(s.tokens, user);
    }
  }

  lemma {:induction false} RunKeepsSince(s: Sessions, actions: seq<Action>, user: Id, n: Id, raw: Id)
    requires Inv(s) && OnlySince(s, user, n) && Owns(s, user, raw)
    ensures OnlySince(Run(s, actions), user, n) && Owns(Run(s, actions), user, raw)
    decreases |actions|
  {
    if actions != [] {
      StepKeepsInv(s, actions[0]);
      StepKeepsSince(s, actions[0], user, n, raw);
      RunKeepsSince(Step(s, actions[0]), actions[1..], user, n, raw);
    }
  }

  /** After a revoke-all no session of the user from before it comes back, whatever runs afterwards: his active tokens
      all descend from later logins, and each of his earlier tokens is answered as a replay, which ends the later ones
      too. */
  lemma RevokeAllEndsSessions(earlier: seq<Action>, user: Id, now: Time, later: seq<Action>, raw: Id, active: bool,
                              last: Time, ttl: int)
    requires Owns(Run(NOBODY, earlier), user, raw)
    ensures var revoked := Step(Run(NOBODY, earlier), LogOutAll(user, now));
            var s := Run(revoked, later);
            && OnlySince(s, user, revoked.nextId)
            && var (tokens, outcome) := Refresh(s.tokens, raw, active, last, ttl, s.nextId);
               outcome == TokenReused && ActiveOf(tokens, user) == {}
  {
    StartInv();
    RunKeepsInv(NOBODY, earlier);
    var before := Run(NOBODY, earlier);
    var revoked := Step(before, LogOutAll(user, now));
    StepKeepsInv(before, LogOutAll(user, now));
    RunKeepsInv(revoked, later);
    RunKeepsSince(revoked, later, user, revoked.nextId, raw);
    var s := Run(revoked, later);
    assert LinkFits(before, raw) && LinkFits(s, raw);
    assert raw !in ActiveOf(s.tokens, user);
  }

  /** A user never has more active tokens than logins since all were last revoked. */
  lemma ActiveTokensAreFew(actions: seq<Action>, user: Id)
    ensures |ActiveOf(Run(NOBODY, actions).tokens, user)| <= Logins(Run(NOBODY, actions), user)
  {
    StartInv();
    RunKeepsInv(NOBODY, actions);
  }

  /** A rotated token that comes back costs its user every session: nothing is issued and nothing stays active. */
  lemma ReplayKillsEverySession(actions: seq<Action>, raw: Id, active: bool, now: Time, ttl: int, k: nat)
    requires k < |Run(NOBODY, actions).exchanges| && Run(NOBODY, actions).exchanges[k] == raw
    ensures var s := Run(NOBODY, actions);
            && raw in s.tokens
            && var (tokens, outcome) := Refresh(s.tokens, raw, active, now, ttl, s.nextId);
               outcome == TokenReused && ActiveOf(tokens, s.tokens[raw].user) == {}
  {
    StartInv();
    RunKeepsInv(NOBODY, actions);
    var s := Run(NOBODY, actions);
    assert LinkFits(s, raw);
    RevokeAllKeepsInv(s, s.tokens[raw].user, now);
  }
}
