/** Refresh-token rotation, each call as one step.
  *
  * backend/src/auth/tokens.service.ts keeps one row per refresh token. A token is single use:
  * exchanging it marks its row used, and presenting a used one again is a replay that revokes
  * every token of the same login, unless it comes within the grace window of the first use.
  * TokenRaces takes the calls apart into their statements.
  */
module Tokens {
  import opened Wrappers

  type Id = nat

  const REUSE_GRACE: nat := 30_000
  const REFRESH_TTL: nat := 7 * 24 * 60 * 60 * 1000

  /** One row. Tokens are random and only their hash is stored; the hash is taken to be injective,
    * so the token itself is the key. family is drawn at login and inherited by rotation. */
  datatype Token = Token(user: Id, family: Id, usedAt: Option<nat>, expiresAt: nat)

  type Store = map<Id, Token>

  datatype Refusal = Unknown | Suspended | Reused | Expired

  function Issue(tokens: Store, user: Id, family: Id, now: nat, minted: Id): Store {
    tokens[minted := Token(user, family, None, now + REFRESH_TTL)]
  }

  function WithoutFamily(tokens: Store, family: Id): Store {
    map t | t in tokens && tokens[t].family != family :: tokens[t]
  }

  function WithoutUser(tokens: Store, user: Id): Store {
    map t | t in tokens && tokens[t].user != user :: tokens[t]
  }

  predicate InGrace(usedAt: nat, now: nat) {
    now < usedAt + REUSE_GRACE
  }

  /** The rows after token is presented, and the new token or the refusal. A used token is judged
    * by its first use alone: it may have expired meanwhile. */
  function Rotate(tokens: Store, token: Id, suspended: set<Id>, now: nat, minted: Id): (Store, Result<Id, Refusal>) {
    if token !in tokens then (tokens, Err(Unknown)) else
    var row := tokens[token];
    if row.user in suspended then (tokens, Err(Suspended))
    else if row.usedAt.Some? then
      if InGrace(row.usedAt.value, now) then (Issue(tokens, row.user, row.family, now, minted), Ok(minted))
      else (WithoutFamily(tokens, row.family), Err(Reused))
    else if row.expiresAt < now then (tokens - {token}, Err(Expired))
    else (Issue(tokens[token := row.(usedAt := Some(now))], row.user, row.family, now, minted), Ok(minted))
  }

  predicate Usable(tokens: Store, token: Id, suspended: set<Id>) {
    token in tokens && tokens[token].user !in suspended
  }

  /** The whole rule. A token that was used is answered again within thirty seconds of its first use,
    * and every row is kept; from then on presenting it ends the family. One that was not used is
    * answered up to its expiry, and its row marked. What is issued lasts seven days. */
  lemma RotationIsDecided(tokens: Store, token: Id, suspended: set<Id>, now: nat, minted: Id)
    ensures var r := Rotate(tokens, token, suspended, now, minted).1;
            var usable := Usable(tokens, token, suspended);
            && (r == Err(Unknown) <==> token !in tokens)
            && (r == Err(Suspended) <==> token in tokens && tokens[token].user in suspended)
            && (r == Err(Reused) <==>
                  usable && tokens[token].usedAt.Some? && tokens[token].usedAt.value + 30_000 <= now)
            && (r == Err(Expired) <==> usable && tokens[token].usedAt.None? && tokens[token].expiresAt < now)
            && (r.Ok? ==> r.value == minted)
    ensures var (after, r) := Rotate(tokens, token, suspended, now, minted);
            match r
            case Ok(_) =>
              && after.Keys == tokens.Keys + {minted}
              && after[minted] == Token(tokens[token].user, tokens[token].family, None, now + 604_800_000)
              && (forall t :: t in tokens && t != token && t != minted ==> after[t] == tokens[t])
              && (token != minted ==>
                    after[token]
                      == if tokens[token].usedAt.None? then tokens[token].(usedAt := Some(now)) else tokens[token])
            case Err(Reused) =>
              && (forall t :: t in after <==> t in tokens && tokens[t].family != tokens[token].family)
              && (forall t :: t in after ==> after[t] == tokens[t])
            case Err(Expired) => after == tokens - {token}
            case Err(_) => after == tokens
  {
  }

  // ---------- the service ----------

  class TokensService {
    var tokens: Store

    constructor ()
      ensures tokens == map[]
    {
      tokens := map[];
    }

    /** Login passes a family it has just drawn, rotation the one of the row it exchanges. */
    method IssueTokens(user: Id, family: Id, now: nat, minted: Id) returns (token: Id)
      modifies this
      ensures tokens == old(tokens)[minted := Token(user, family, None, now + 604_800_000)] && token == minted
    {
      tokens := tokens[minted := Token(user, family, None, now + REFRESH_TTL)];
      token := minted;
    }

    method RotateToken(raw: Id, suspended: set<Id>, now: nat, minted: Id) returns (r: Result<Id, Refusal>)
      modifies this
      ensures (tokens, r) == Rotate(old(tokens), raw, suspended, now, minted)
      ensures r == Err(Reused)
         <==> && Usable(old(tokens), raw, suspended) && old(tokens)[raw].usedAt.Some?
              && old(tokens)[raw].usedAt.value + 30_000 <= now
      ensures r == Err(Reused) ==>
                forall t :: t in tokens <==> t in old(tokens) && old(tokens)[t].family != old(tokens)[raw].family
    {
      RotationIsDecided(tokens, raw, suspended, now, minted);
      if raw !in tokens {
        return Err(Unknown);
      }
      var existing := tokens[raw];
      if existing.user in suspended {
        return Err(Suspended);
      }
      if existing.usedAt.Some? {
        if now - existing.usedAt.value < REUSE_GRACE {
          var sibling := IssueTokens(existing.user, existing.family, now, minted);
          return Ok(sibling);
        }
        tokens := WithoutFamily(tokens, existing.family);
        return Err(Reused);
      }
      if existing.expiresAt < now {
        tokens := tokens - {raw};
        return Err(Expired);
      }
      var claimed := Claim(raw, now);
      var issued := IssueTokens(existing.user, existing.family, now, minted);
      return Ok(issued);
    }

    /** Marks the row used if it is there and unused, and says whether it was. */
    method Claim(raw: Id, now: nat) returns (claimed: bool)
      modifies this
      ensures claimed == (raw in old(tokens) && old(tokens)[raw].usedAt.None?)
      ensures tokens == if claimed then old(tokens)[raw := old(tokens)[raw].(usedAt := Some(now))] else old(tokens)
    {
      claimed := raw in tokens && tokens[raw].usedAt.None?;
      if claimed {
        tokens := tokens[raw := tokens[raw].(usedAt := Some(now))];
      }
    }

    method Revoke(raw: Id)
      modifies this
      ensures tokens == old(tokens) - {raw}
    {
      tokens := tokens - {raw};
    }
  }

  // ---------- concurrent siblings ----------

  /** One presentation: when, and the token it would draw. */
  datatype Attempt = Attempt(at: nat, minted: Id)

  /** The rows after the attempts, one after the other, and what each was answered. */
  function PresentAll(tokens: Store, token: Id, suspended: set<Id>, attempts: seq<Attempt>)
    : (Store, seq<Result<Id, Refusal>>)
    decreases |attempts|
  {
    if attempts == [] then (tokens, []) else
    var last, (before, answers) := attempts[|attempts| - 1],
                                   PresentAll(tokens, token, suspended, attempts[..|attempts| - 1]);
    var (after, answer) := Rotate(before, token, suspended, last.at, last.minted);
    (after, answers + [answer])
  }

  /** Attempts within the grace window of the first one, drawing tokens never drawn before. */
  ghost predicate Siblings(tokens: Store, attempts: seq<Attempt>) {
    && (forall i :: 0 <= i < |attempts| ==> attempts[i].minted !in tokens)
    && (forall i :: 0 <= i < |attempts| ==> attempts[i].at < attempts[0].at + 30_000)
    && (forall i, j :: 0 <= i < j < |attempts| ==> attempts[i].minted != attempts[j].minted)
  }

  /** Attempt a got its own token, in the family of row. */
  predicate GotSibling(row: Token, a: Attempt, after: Store, answer: Result<Id, Refusal>) {
    && answer == Ok(a.minted) && a.minted in after
    && after[a.minted] == Token(row.user, row.family, None, a.at + 604_800_000)
  }

  /** The rows of before, with the presented one marked used at the time at; no row is missing. */
  predicate KeepsRows(before: Store, token: Id, at: nat, after: Store)
    requires token in before
  {
    && (forall t :: t in before && t != token ==> t in after && after[t] == before[t])
    && token in after && after[token] == before[token].(usedAt := Some(at))
  }

  /** Every attempt got its own token, and those are the only new rows. */
  ghost predicate AllGotSiblings(row: Token, before: Store, attempts: seq<Attempt>, after: Store,
                                 answers: seq<Result<Id, Refusal>>)
  {
    && |answers| == |attempts| && after.Keys == before.Keys + Minted(attempts)
    && forall i :: 0 <= i < |attempts| ==> GotSibling(row, attempts[i], after, answers[i])
  }

  function Minted(attempts: seq<Attempt>): set<Id> {
    set a | a in attempts :: a.minted
  }

  /** Any number of presentations of a valid token within the grace window all succeed: each yields
    * its own token of the same login, every other row stays as it was, and the presented row is
    * marked with the time of the first. */
  lemma {:induction false} SiblingsAllSucceed(tokens: Store, token: Id, suspended: set<Id>, attempts: seq<Attempt>)
    requires token in tokens && tokens[token].user !in suspended && tokens[token].usedAt.None?
    requires attempts != [] && attempts[0].at <= tokens[token].expiresAt && Siblings(tokens, attempts)
    ensures var (after, answers) := PresentAll(tokens, token, suspended, attempts);
            KeepsRows(tokens, token, attempts[0].at, after)
            && AllGotSiblings(tokens[token], tokens, attempts, after, answers)
    decreases |attempts|
  {
    var n := |attempts| - 1;
    var rest, last := attempts[..n], attempts[n];
    var (before, answers) := PresentAll(tokens, token, suspended, rest);
    LastIsNew(tokens, attempts);
    if n == 0 {
      assert rest == [] && before == tokens;
    } else {
      SiblingsAllSucceed(tokens, token, suspended, rest);
    }
    OneMoreSibling(tokens[token], before, token, suspended, last);
    var (after, answer) := Rotate(before, token, suspended, last.at, last.minted);
    SiblingsExtend(tokens[token], tokens, rest, before, answers, last, after, answer);
    assert rest + [last] == attempts;
  }

  lemma LastIsNew(tokens: Store, attempts: seq<Attempt>)
    requires attempts != [] && Siblings(tokens, attempts)
    ensures var n := |attempts| - 1;
            && attempts[n].minted !in tokens && attempts[n].minted !in Minted(attempts[..n])
            && Siblings(tokens, attempts[..n])
  {
  }

  lemma SiblingsExtend(row: Token, tokens: Store, rest: seq<Attempt>, before: Store, answers: seq<Result<Id, Refusal>>,
                       last: Attempt, after: Store, answer: Result<Id, Refusal>)
    requires AllGotSiblings(row, tokens, rest, before, answers) && GotSibling(row, last, after, answer)
    requires after.Keys == before.Keys + {last.minted}
    requires forall a :: a in rest ==> after[a.minted] == before[a.minted]
    ensures AllGotSiblings(row, tokens, rest + [last], after, answers + [answer])
  {
    var all := rest + [last];
    assert Minted(all) == Minted(rest) + {last.minted};
    forall i | 0 <= i < |all|
      ensures GotSibling(row, all[i], after, (answers + [answer])[i])
    {
      if i < |rest| {
        assert GotSibling(row, rest[i], before, answers[i]);
      }
    }
  }

  lemma OneMoreSibling(row: Token, before: Store, token: Id, suspended: set<Id>, a: Attempt)
    requires token in before && row.user !in suspended && a.minted !in before
    requires (before[token] == row && row.usedAt.None? && a.at <= row.expiresAt)
          || exists first: nat :: before[token] == row.(usedAt := Some(first)) && a.at < first + 30_000
    ensures var (after, answer) := Rotate(before, token, suspended, a.at, a.minted);
            && GotSibling(row, a, after, answer) && after.Keys == before.Keys + {a.minted}
            && (forall t :: t in before && t != token ==> after[t] == before[t])
            && after[token] == if before[token].usedAt.None? then row.(usedAt := Some(a.at)) else before[token]
  {
  }

  // ---------- runs of calls ----------

  /** suspended are the accounts that are not active. drawn and families are history: every token
    * and every family ever drawn, with the family and the user each was drawn for. */
  datatype Sessions = Sessions(now: nat, tokens: Store, suspended: set<Id>, drawn: map<Id, Id>, families: map<Id, Id>)

  datatype Event =
    | Wait(ms: nat)
    | Login(user: Id, token: Id, family: Id)
    | Present(token: Id, minted: Id)
    | Logout(token: Id)
    | Suspend(user: Id)
    | Restore(user: Id)

  predicate Possible(s: Sessions, e: Event) {
    match e
    case Login(user, token, family) => user !in s.suspended && token !in s.drawn && family !in s.families
    case Present(_, minted) => minted !in s.drawn
    case _ => true
  }

  function After(s: Sessions, e: Event): Sessions {
    match e
    case Wait(ms) => s.(now := s.now + ms)
    case Login(user, token, family) =>
      s.(tokens := Issue(s.tokens, user, family, s.now, token),
         drawn := s.drawn[token := family], families := s.families[family := user])
    case Present(token, minted) =>
      var (tokens, answer) := Rotate(s.tokens, token, s.suspended, s.now, minted);
      s.(tokens := tokens,
         drawn := if answer.Ok? && token in s.tokens then s.drawn[minted := s.tokens[token].family] else s.drawn)
    case Logout(token) => s.(tokens := s.tokens - {token})
    case Suspend(user) => s.(tokens := WithoutUser(s.tokens, user), suspended := s.suspended + {user})
    case Restore(user) => s.(suspended := s.suspended - {user})
  }

  ghost predicate Run(s: Sessions, events: seq<Event>, s': Sessions)
    decreases |events|
  {
    if events == [] then s' == s
    else Possible(s, events[0]) && Run(After(s, events[0]), events[1..], s')
  }

  /** Every row was drawn, in the family it shows, and that family belongs to its user. */
  ghost predicate Recorded(s: Sessions) {
    && (forall t :: t in s.tokens ==>
          && t in s.drawn && s.drawn[t] == s.tokens[t].family
          && s.tokens[t].family in s.families && s.families[s.tokens[t].family] == s.tokens[t].user)
    && (forall t :: t in s.tokens ==> s.tokens[t].user !in s.suspended)
  }

  const NO_SESSIONS := Sessions(0, map[], {}, map[], map[])

  /** What was drawn stays on record. */
  predicate Remembers(s: Sessions, s': Sessions) {
    && (forall t :: t in s.drawn ==> t in s'.drawn && s'.drawn[t] == s.drawn[t])
    && (forall f :: f in s.families ==> f in s'.families && s'.families[f] == s.families[f])
  }

  lemma EventKeepsRecords(s: Sessions, e: Event)
    requires Recorded(s) && Possible(s, e)
    ensures Recorded(After(s, e))
  {
  }

  lemma {:induction false} RunKeepsRecords(s: Sessions, events: seq<Event>, s': Sessions)
    requires Recorded(s) && Run(s, events, s')
    ensures Recorded(s') && Remembers(s, s')
    decreases |events|
  {
    if events != [] {
      EventKeepsRecords(s, events[0]);
      RunKeepsRecords(After(s, events[0]), events[1..], s');
    }
  }

  /** The event is about the row: its user, its family or itself. */
  predicate Concerns(s: Sessions, e: Event, t: Id)
    requires t in s.tokens
  {
    match e
    case Present(token, _) => token in s.tokens && s.tokens[token].family == s.tokens[t].family
    case Logout(token) => token == t
    case Suspend(user) => s.tokens[t].user == user
    case _ => false
  }

  /** No event touches a row it is not about: suspending a user leaves all others signed in, and a
    * replay ends one login only. */
  lemma OtherRowsStay(s: Sessions, e: Event, t: Id)
    requires Recorded(s) && Possible(s, e) && t in s.tokens && !Concerns(s, e, t)
    ensures t in After(s, e).tokens && After(s, e).tokens[t] == s.tokens[t]
  {
  }

  /** A suspended user has no rows and cannot sign in until restored; nobody else's status changes. */
  lemma SuspensionLocksOut(s: Sessions, user: Id, t: Id, token: Id, family: Id)
    ensures var shut := After(s, Suspend(user));
            && (t in shut.tokens ==> shut.tokens[t].user != user)
            && !Possible(shut, Login(user, token, family))
            && shut.suspended - {user} == s.suspended - {user}
            && After(shut, Restore(user)).suspended == s.suspended - {user}
  {
  }

  /** All rows of a family belong to one user, and no suspended user has any row. */
  lemma FamiliesHaveOneUser(events: seq<Event>, s: Sessions, t: Id, t': Id)
    requires Run(NO_SESSIONS, events, s) && t in s.tokens && t' in s.tokens
    ensures s.tokens[t].family == s.tokens[t'].family ==> s.tokens[t].user == s.tokens[t'].user
    ensures s.tokens[t].user !in s.suspended
  {
    RunKeepsRecords(NO_SESSIONS, events, s);
  }

  /** A row never changes except that its first use is recorded, once. */
  predicate SameRow(a: Token, b: Token) {
    b == a || (a.usedAt.None? && b.usedAt.Some? && b == a.(usedAt := b.usedAt))
  }

  lemma {:induction false} RowsAreUsedOnce(s: Sessions, events: seq<Event>, s': Sessions, t: Id)
    requires Recorded(s) && Run(s, events, s') && t in s.drawn
    ensures t in s'.tokens ==> t in s.tokens && SameRow(s.tokens[t], s'.tokens[t])
    decreases |events|
  {
    if events != [] {
      var mid := After(s, events[0]);
      EventKeepsRecords(s, events[0]);
      RowsAreUsedOnce(mid, events[1..], s', t);
    }
  }

  predicate Empty(tokens: Store, family: Id) {
    forall t :: t in tokens ==> tokens[t].family != family
  }

  /** A family without rows never gets one again: its tokens are dead whatever happens. */
  lemma {:induction false} EmptyFamiliesStayEmpty(s: Sessions, events: seq<Event>, s': Sessions, family: Id)
    requires Run(s, events, s') && family in s.families && Empty(s.tokens, family)
    ensures Empty(s'.tokens, family)
    decreases |events|
  {
    if events != [] {
      EmptyFamiliesStayEmpty(After(s, events[0]), events[1..], s', family);
    }
  }

  /** Presenting a token again after the grace window of its first use ends the whole login: every
    * token that was ever drawn in its family, before or since, is refused from then on, and the
    * rows of all other families are untouched. */
  lemma ReplayEndsTheLogin(before: seq<Event>, s: Sessions, token: Id, minted: Id, events: seq<Event>, s': Sessions,
                           t: Id, minted': Id)
    requires Run(NO_SESSIONS, before, s) && token in s.tokens && s.tokens[token].usedAt.Some?
    requires s.tokens[token].usedAt.value + 30_000 <= s.now
    requires Run(After(s, Present(token, minted)), events, s')
    requires t in s'.drawn && s'.drawn[t] == s.tokens[token].family
    ensures Rotate(s.tokens, token, s.suspended, s.now, minted).1 == Err(Reused)
    ensures Rotate(s'.tokens, t, s'.suspended, s'.now, minted') == (s'.tokens, Err(Unknown))
    ensures forall u :: u in s.tokens && s.tokens[u].family != s.tokens[token].family ==>
              var tokens := After(s, Present(token, minted)).tokens; u in tokens && tokens[u] == s.tokens[u]
  {
    RunKeepsRecords(NO_SESSIONS, before, s);
    var family, mid := s.tokens[token].family, After(s, Present(token, minted));
    assert Recorded(mid) && Empty(mid.tokens, family);
    EmptyFamiliesStayEmpty(mid, events, s', family);
    RunKeepsRecords(mid, events, s');
  }
}
