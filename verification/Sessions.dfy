// Refresh-token rotation: token families, reuse detection, logout and session revocation.
module Sessions {
  import opened Wrappers

  type TokenId = nat // stands for the stored hash of one random token
  type FamilyId = nat
  type UserId = nat

  datatype Token = Token(user: UserId, family: FamilyId, expiresAt: int, revoked: bool, replacedBy: Option<TokenId>)

  // `issued` is the order of creation.
  datatype Store = Store(tokens: map<TokenId, Token>, issued: seq<TokenId>)

  const NO_TOKENS: Store := Store(map[], [])

  datatype AuthError = InvalidToken | TokenReused | TokenExpired | AccountInactive | SessionNotFound

  // ---------------------------------------------------------------- specification

  function Issue(s: Store, id: TokenId, user: UserId, family: FamilyId, expiresAt: int): Store {
    Store(s.tokens[id := Token(user, family, expiresAt, false, None)], s.issued + [id])
  }

  function Revoke(s: Store, id: TokenId, replacedBy: Option<TokenId>): Store {
    if id in s.tokens then s.(tokens := s.tokens[id := s.tokens[id].(revoked := true, replacedBy := replacedBy)]) else s
  }

  function RevokeFamily(s: Store, family: FamilyId): Store {
    s.(tokens := map id | id in s.tokens ::
      if s.tokens[id].family == family then s.tokens[id].(revoked := true) else s.tokens[id])
  }

  predicate IsActive(s: Store, id: TokenId, now: int) {
    id in s.tokens && !s.tokens[id].revoked && s.tokens[id].expiresAt > now
  }

  datatype Call =
    | Login(user: UserId, newFamily: FamilyId, newId: TokenId, expiresAt: int)
    | Refresh(presented: TokenId, now: int, accountActive: bool, newId: TokenId, newExpiresAt: int)
    | Logout(presented: TokenId)
    | RevokeSession(id: TokenId, requestedBy: UserId, now: int)

  function AfterRefresh(s: Store, c: Call): (Store, Result<TokenId, AuthError>)
    requires c.Refresh?
  {
    if c.presented !in s.tokens then (s, Err(InvalidToken))
    else
      var existing := s.tokens[c.presented];
      if existing.revoked then (RevokeFamily(s, existing.family), Err(TokenReused))
      else if existing.expiresAt < c.now then (s, Err(TokenExpired))
      else if !c.accountActive then (s, Err(AccountInactive))
      else
        (Revoke(Issue(s, c.newId, existing.user, existing.family, c.newExpiresAt), c.presented, Some(c.newId)), Ok(c.newId))
  }

  // A call, atomic. Ids of new tokens and families are random, so never used before.
  function AfterCall(s: Store, c: Call): Store {
    match c
    case Login(user, family, id, expiresAt) =>
      if id in s.tokens || FamilyOf(s, family) != [] then s else Issue(s, id, user, family, expiresAt)
    case Refresh(_, _, _, newId, _) => if newId in s.tokens then s else AfterRefresh(s, c).0
    case Logout(presented) =>
      if presented in s.tokens && !s.tokens[presented].revoked then Revoke(s, presented, None) else s
    case RevokeSession(id, user, now) =>
      if IsActive(s, id, now) && s.tokens[id].user == user then Revoke(s, id, None) else s
  }

  // ---------------------------------------------------------------- in between

  // One atomic write of another call.
  datatype TokenStep =
    | Issues(id: TokenId, token: Token)
    | Marks(id: TokenId, replacedBy: Option<TokenId>)
    | RevokesFamily(family: FamilyId)

  function OtherDoes(s: Store, step: TokenStep): Store {
    match step
    case Issues(id, token) => if id in s.tokens then s else Issue(s, id, token.user, token.family, token.expiresAt)
    case Marks(id, replacedBy) => Revoke(s, id, replacedBy)
    case RevokesFamily(family) => RevokeFamily(s, family)
  }

  function OthersDo(s: Store, steps: seq<TokenStep>): Store
    decreases |steps|
  {
    if steps == [] then s else OthersDo(OtherDoes(s, steps[0]), steps[1..])
  }

  // refresh() with other calls' writes after its read and before its mark.
  function RefreshAmid(s: Store, c: Call, before: seq<TokenStep>, between: seq<TokenStep>): (Store, Result<TokenId, AuthError>)
    requires c.Refresh?
  {
    if c.presented !in s.tokens then (s, Err(InvalidToken))
    else
      var existing := s.tokens[c.presented];
      if existing.revoked then (RevokeFamily(OthersDo(s, before), existing.family), Err(TokenReused))
      else if existing.expiresAt < c.now then (s, Err(TokenExpired))
      else if !c.accountActive then (s, Err(AccountInactive))
      else
        var issued := Issue(OthersDo(s, before), c.newId, existing.user, existing.family, c.newExpiresAt);
        (Revoke(OthersDo(issued, between), c.presented, Some(c.newId)), Ok(c.newId))
  }

  // With nothing in between, that is the atomic refresh.
  lemma QuietRefresh(s: Store, c: Call)
    requires c.Refresh?
    ensures RefreshAmid(s, c, [], []) == AfterRefresh(s, c)
  {
  }

  // An undisturbed refresh, outcome by outcome. The token it issues is open, of the same user and
  // family, and is what the presented one, now revoked, names.
  lemma RefreshOutcomes(s: Store, c: Call)
    requires c.Refresh? && c.newId !in s.tokens
    ensures var (s', r) := AfterRefresh(s, c);
            if c.presented !in s.tokens then r == Err(InvalidToken) && s' == s
            else
              var t := s.tokens[c.presented];
              if t.revoked then
                && r == Err(TokenReused) && s'.issued == s.issued && s'.tokens.Keys == s.tokens.Keys
                && forall id :: id in s.tokens ==> s'.tokens[id] == if s.tokens[id].family == t.family then s.tokens[id].(revoked := true) else s.tokens[id]
              else if t.expiresAt < c.now then r == Err(TokenExpired) && s' == s
              else if !c.accountActive then r == Err(AccountInactive) && s' == s
              else
                && r == Ok(c.newId) && s'.issued == s.issued + [c.newId]
                && s'.tokens == s.tokens[c.newId := Token(t.user, t.family, c.newExpiresAt, false, None)]
                                        [c.presented := Token(t.user, t.family, t.expiresAt, true, Some(c.newId))]
  {
  }

  // The other calls, column by column.
  lemma OtherCallsOutcomes(s: Store, c: Call, id: TokenId)
    requires !c.Refresh?
    ensures var s' := AfterCall(s, c);
            && (id in s.tokens ==>
                  && id in s'.tokens
                  && s'.tokens[id] == (if (c.Logout? && c.presented == id && !s.tokens[id].revoked)
                                          || (c.RevokeSession? && c.id == id && !s.tokens[id].revoked && s.tokens[id].expiresAt > c.now
                                              && s.tokens[id].user == c.requestedBy)
                                       then s.tokens[id].(revoked := true, replacedBy := None) else s.tokens[id]))
            && (id !in s.tokens && id in s'.tokens ==>
                  c.Login? && c.newId == id && s'.tokens[id] == Token(c.user, c.newFamily, c.expiresAt, false, None))
  {
  }

  function AfterCalls(s: Store, calls: seq<Call>): Store {
    if calls == [] then s else AfterCall(AfterCalls(s, calls[..|calls| - 1]), calls[|calls| - 1])
  }

  // ---------------------------------------------------------------- the service

  class AuthService {
    var tokens: map<TokenId, Token>
    var issued: seq<TokenId>

    constructor ()
      ensures Contents() == NO_TOKENS
    {
      tokens, issued := map[], [];
    }

    ghost function Contents(): Store
      reads this
    {
      Store(tokens, issued)
    }

    // The part of login() after the password check.
    method IssueTokens(user: UserId, family: FamilyId, newId: TokenId, expiresAt: int)
      requires newId !in tokens
      modifies this
      ensures Contents() == Issue(old(Contents()), newId, user, family, expiresAt)
      ensures tokens == old(tokens)[newId := Token(user, family, expiresAt, false, None)] && issued == old(issued) + [newId]
    {
      tokens := tokens[newId := Token(user, family, expiresAt, false, None)];
      issued := issued + [newId];
    }

    method MarkRevoked(id: TokenId, replacedByTokenId: Option<TokenId>)
      modifies this
      ensures Contents() == Revoke(old(Contents()), id, replacedByTokenId)
      ensures id in old(tokens) ==> tokens == old(tokens)[id := old(tokens)[id].(revoked := true, replacedBy := replacedByTokenId)]
      ensures issued == old(issued)
    {
      if id in tokens {
        tokens := tokens[id := tokens[id].(revoked := true, replacedBy := replacedByTokenId)];
      }
    }

    // UPDATE ... WHERE family_id = $1 AND revoked_at IS NULL
    method RevokeWholeFamily(family: FamilyId)
      modifies this
      ensures Contents() == RevokeFamily(old(Contents()), family)
      ensures tokens.Keys == old(tokens).Keys && issued == old(issued)
      ensures forall id :: id in tokens ==>
                             tokens[id] == if old(tokens)[id].family == family then old(tokens)[id].(revoked := true) else old(tokens)[id]
    {
      var open := set id | id in tokens && tokens[id].family == family && !tokens[id].revoked;
      tokens := map id | id in tokens :: if id in open then tokens[id].(revoked := true) else tokens[id];
    }

    // The other calls' turn.
    method Others(steps: seq<TokenStep>)
      modifies this
      ensures Contents() == OthersDo(old(Contents()), steps)
    {
      var i := 0;
      while i < |steps|
        invariant 0 <= i <= |steps|
        invariant OthersDo(Contents(), steps[i..]) == OthersDo(old(Contents()), steps)
      {
        var s := OtherDoes(Store(tokens, issued), steps[i]);
        tokens, issued := s.tokens, s.issued;
        assert steps[i..][1..] == steps[i + 1..];
        i := i + 1;
      }
    }

    // `before` and `between` are what other calls write after the read and before the mark.
    method Refresh(presented: TokenId, now: int, accountActive: bool, newId: TokenId, newExpiresAt: int,
                   before: seq<TokenStep>, between: seq<TokenStep>)
      returns (r: Result<TokenId, AuthError>)
      requires newId !in OthersDo(Contents(), before).tokens
      modifies this
      ensures (Contents(), r)
           == RefreshAmid(old(Contents()), Call.Refresh(presented, now, accountActive, newId, newExpiresAt), before, between)
    {
      if presented !in tokens {
        return Err(InvalidToken);
      }
      var existing := tokens[presented];
      if existing.revoked {
        Others(before);
        RevokeWholeFamily(existing.family);
        return Err(TokenReused);
      }
      if existing.expiresAt < now {
        return Err(TokenExpired);
      }
      if !accountActive {
        return Err(AccountInactive);
      }
      Others(before);
      IssueTokens(existing.user, existing.family, newId, newExpiresAt);
      Others(between);
      MarkRevoked(presented, Some(newId));
      return Ok(newId);
    }

    // What was read decides, what was written since is overwritten.
    method Logout(presented: TokenId, between: seq<TokenStep>)
      modifies this
      ensures var s := old(Contents());
              Contents() == if presented in s.tokens && !s.tokens[presented].revoked then Revoke(OthersDo(s, between), presented, None) else s
      ensures between == [] ==> Contents() == AfterCall(old(Contents()), Call.Logout(presented))
    {
      if presented in tokens && !tokens[presented].revoked {
        Others(between);
        MarkRevoked(presented, None);
      }
    }

    method RevokeSession(id: TokenId, requestingUser: UserId, now: int, between: seq<TokenStep>) returns (r: Result<(), AuthError>)
      modifies this
      ensures r.Ok? <==> IsActive(old(Contents()), id, now) && old(tokens)[id].user == requestingUser
      ensures r.Ok? ==> Contents() == Revoke(OthersDo(old(Contents()), between), id, None) && !IsActive(Contents(), id, now)
      ensures r.Err? ==> r.error == SessionNotFound && Contents() == old(Contents())
      ensures between == [] ==> Contents() == AfterCall(old(Contents()), Call.RevokeSession(id, requestingUser, now))
    {
      var sessions := set t | t in tokens && tokens[t].user == requestingUser && !tokens[t].revoked && tokens[t].expiresAt > now;
      if id !in sessions {
        return Err(SessionNotFound);
      }
      Others(between);
      MarkRevoked(id, None);
      return Ok(());
    }
  }

  // ---------------------------------------------------------------- families

  function Members(tokens: map<TokenId, Token>, issued: seq<TokenId>, family: FamilyId): seq<TokenId> {
    if issued == [] then []
    else
      var init, last := issued[..|issued| - 1], issued[|issued| - 1];
      if last in tokens && tokens[last].family == family then Members(tokens, init, family) + [last] else Members(tokens, init, family)
  }

  // The tokens of a family in the order they were issued.
  function FamilyOf(s: Store, family: FamilyId): seq<TokenId> {
    Members(s.tokens, s.issued, family)
  }

  // The list one gets by following replacedByTokenId from a token, for at most `fuel` links.
  function Follow(tokens: map<TokenId, Token>, id: TokenId, fuel: nat): seq<TokenId>
    decreases fuel
  {
    if id !in tokens then []
    else if fuel == 0 || tokens[id].replacedBy.None? then [id]
    else [id] + Follow(tokens, tokens[id].replacedBy.value, fuel - 1)
  }

  ghost predicate ChainInv(s: Store, family: FamilyId) {
    var c := FamilyOf(s, family);
    && (forall i :: 0 <= i < |c| ==> c[i] in s.tokens && s.tokens[c[i]].family == family)
    && (forall i, j :: 0 <= i < j < |c| ==> c[i] != c[j])
    && (forall i :: 0 <= i < |c| - 1 ==> s.tokens[c[i]].revoked && s.tokens[c[i]].replacedBy == Some(c[i + 1]))
    && (c != [] ==> s.tokens[c[|c| - 1]].replacedBy == None)
    && (forall id :: id in s.tokens && s.tokens[id].family == family ==> id in c)
  }

  ghost predicate SessionInv(s: Store) {
    forall f :: ChainInv(s, f)
  }

  lemma {:induction false} MembersFrame(tokens: map<TokenId, Token>, tokens': map<TokenId, Token>, issued: seq<TokenId>, family: FamilyId)
    requires forall id :: id in issued ==> (id in tokens' <==> id in tokens)
    requires forall id :: id in issued && id in tokens ==> tokens'[id].family == tokens[id].family
    ensures Members(tokens', issued, family) == Members(tokens, issued, family)
    decreases |issued|
  {
    if issued != [] {
      assert issued[|issued| - 1] in issued;
      MembersFrame(tokens, tokens', issued[..|issued| - 1], family);
    }
  }

  lemma FamilyAfterIssue(s: Store, id: TokenId, user: UserId, family: FamilyId, expiresAt: int, f: FamilyId)
    requires id !in s.tokens && (forall t :: t in s.issued ==> t in s.tokens)
    ensures FamilyOf(Issue(s, id, user, family, expiresAt), f) == if f == family then FamilyOf(s, f) + [id] else FamilyOf(s, f)
  {
    var s' := Issue(s, id, user, family, expiresAt);
    assert s'.issued[..|s.issued|] == s.issued;
    MembersFrame(s.tokens, s'.tokens, s.issued, f);
  }

  ghost predicate AllStored(s: Store) {
    forall t :: t in s.issued ==> t in s.tokens
  }

  lemma LoginKeepsChains(s: Store, user: UserId, family: FamilyId, id: TokenId, expiresAt: int)
    requires SessionInv(s) && AllStored(s) && id !in s.tokens && FamilyOf(s, family) == []
    ensures SessionInv(Issue(s, id, user, family, expiresAt))
  {
    forall f ensures ChainInv(Issue(s, id, user, family, expiresAt), f) {
      LoginKeepsChain(s, user, family, id, expiresAt, f);
    }
  }

  lemma LoginKeepsChain(s: Store, user: UserId, family: FamilyId, id: TokenId, expiresAt: int, f: FamilyId)
    requires ChainInv(s, f) && AllStored(s) && id !in s.tokens && FamilyOf(s, family) == []
    ensures ChainInv(Issue(s, id, user, family, expiresAt), f)
  {
    FamilyAfterIssue(s, id, user, family, expiresAt, f);
    if f != family {
      UntouchedChain(s, Issue(s, id, user, family, expiresAt), f);
    }
  }

  // A chain depends on nothing but the tokens of its family.
  lemma UntouchedChain(s: Store, s': Store, f: FamilyId)
    requires ChainInv(s, f) && FamilyOf(s', f) == FamilyOf(s, f)
    requires forall id :: (id in s.tokens && s.tokens[id].family == f) <==> (id in s'.tokens && s'.tokens[id].family == f)
    requires forall id :: id in s.tokens && s.tokens[id].family == f ==> s'.tokens[id] == s.tokens[id]
    ensures ChainInv(s', f)
  {
  }

  function Rotated(s: Store, presented: TokenId, newId: TokenId, expiresAt: int): Store
    requires presented in s.tokens
  {
    var t := s.tokens[presented];
    Revoke(Issue(s, newId, t.user, t.family, expiresAt), presented, Some(newId))
  }

  lemma FamilyAfterRotation(s: Store, presented: TokenId, newId: TokenId, expiresAt: int, f: FamilyId)
    requires AllStored(s) && presented in s.tokens && newId !in s.tokens
    ensures FamilyOf(Rotated(s, presented, newId, expiresAt), f)
         == if f == s.tokens[presented].family then FamilyOf(s, f) + [newId] else FamilyOf(s, f)
  {
    var t := s.tokens[presented];
    var s1 := Issue(s, newId, t.user, t.family, expiresAt);
    FamilyAfterIssue(s, newId, t.user, t.family, expiresAt, f);
    MembersFrame(s1.tokens, Rotated(s, presented, newId, expiresAt).tokens, s1.issued, f);
  }

  lemma RotationKeepsOtherChain(s: Store, presented: TokenId, newId: TokenId, expiresAt: int, f: FamilyId)
    requires ChainInv(s, f) && AllStored(s) && presented in s.tokens && newId !in s.tokens && f != s.tokens[presented].family
    ensures ChainInv(Rotated(s, presented, newId, expiresAt), f)
  {
    FamilyAfterRotation(s, presented, newId, expiresAt, f);
    UntouchedChain(s, Rotated(s, presented, newId, expiresAt), f);
  }

  lemma RotationKeepsOwnChain(s: Store, presented: TokenId, newId: TokenId, expiresAt: int)
    requires presented in s.tokens && ChainInv(s, s.tokens[presented].family)
    requires AllStored(s) && !s.tokens[presented].revoked && newId !in s.tokens
    ensures ChainInv(Rotated(s, presented, newId, expiresAt), s.tokens[presented].family)
  {
    var f := s.tokens[presented].family;
    var s' := Rotated(s, presented, newId, expiresAt);
    FamilyAfterRotation(s, presented, newId, expiresAt, f);
    OnlyLastIsOpen(s, f, presented);
    var c, c' := FamilyOf(s, f), FamilyOf(s', f);
    assert c' == c + [newId] && newId !in c;
    forall i | 0 <= i < |c'| - 1 ensures s'.tokens[c'[i]].revoked && s'.tokens[c'[i]].replacedBy == Some(c'[i + 1]) {
      if i < |c| - 1 {
        assert c'[i] == c[i] && c'[i + 1] == c[i + 1] && c[i] != presented;
        assert s'.tokens[c[i]] == s.tokens[c[i]];
      }
    }
  }

  lemma RotationKeepsChains(s: Store, presented: TokenId, newId: TokenId, expiresAt: int)
    requires SessionInv(s) && AllStored(s) && presented in s.tokens && !s.tokens[presented].revoked && newId !in s.tokens
    ensures SessionInv(Rotated(s, presented, newId, expiresAt))
  {
    forall f ensures ChainInv(Rotated(s, presented, newId, expiresAt), f) {
      if f == s.tokens[presented].family {
        RotationKeepsOwnChain(s, presented, newId, expiresAt);
      } else {
        RotationKeepsOtherChain(s, presented, newId, expiresAt, f);
      }
    }
  }

  // Only the last issued token of a family can be unrevoked.
  lemma OnlyLastIsOpen(s: Store, family: FamilyId, id: TokenId)
    requires ChainInv(s, family) && id in s.tokens && s.tokens[id].family == family && !s.tokens[id].revoked
    ensures FamilyOf(s, family) != [] && id == FamilyOf(s, family)[|FamilyOf(s, family)| - 1]
  {
    var c := FamilyOf(s, family);
    assert id in c;
  }

  lemma RevocationKeepsChains(s: Store, id: TokenId)
    requires SessionInv(s) && id in s.tokens && !s.tokens[id].revoked
    ensures SessionInv(Revoke(s, id, None))
  {
    var s' := Revoke(s, id, None);
    forall f ensures ChainInv(s', f) {
      assert ChainInv(s, f);
      MembersFrame(s.tokens, s'.tokens, s.issued, f);
      if f == s.tokens[id].family { OnlyLastIsOpen(s, f, id); } else { UntouchedChain(s, s', f); }
    }
  }

  lemma FamilyRevocationKeepsChains(s: Store, family: FamilyId)
    requires SessionInv(s)
    ensures SessionInv(RevokeFamily(s, family))
  {
    var s' := RevokeFamily(s, family);
    forall f ensures ChainInv(s', f) {
      assert ChainInv(s, f);
      MembersFrame(s.tokens, s'.tokens, s.issued, f);
    }
  }

  lemma CallKeepsChains(s: Store, c: Call)
    requires SessionInv(s) && AllStored(s)
    ensures SessionInv(AfterCall(s, c)) && AllStored(AfterCall(s, c))
  {
    match c
    case Login(user, family, id, expiresAt) =>
      if id !in s.tokens && FamilyOf(s, family) == [] { LoginKeepsChains(s, user, family, id, expiresAt); }
    case Refresh(presented, now, accountActive, newId, newExpiresAt) =>
      if newId !in s.tokens && presented in s.tokens {
        if s.tokens[presented].revoked {
          FamilyRevocationKeepsChains(s, s.tokens[presented].family);
        } else {
          RotationKeepsChains(s, presented, newId, newExpiresAt);
        }
      }
    case Logout(presented) =>
      if presented in s.tokens && !s.tokens[presented].revoked { RevocationKeepsChains(s, presented); }
    case RevokeSession(id, user, now) =>
      if IsActive(s, id, now) { RevocationKeepsChains(s, id); }
  }

  lemma {:induction false} ChainsAlways(calls: seq<Call>)
    ensures SessionInv(AfterCalls(NO_TOKENS, calls)) && AllStored(AfterCalls(NO_TOKENS, calls))
    decreases |calls|
  {
    if calls != [] {
      ChainsAlways(calls[..|calls| - 1]);
      CallKeepsChains(AfterCalls(NO_TOKENS, calls[..|calls| - 1]), calls[|calls| - 1]);
    }
  }

  // ---------------------------------------------------------------- theorems

  lemma {:induction false} FollowLists(tokens: map<TokenId, Token>, c: seq<TokenId>, k: nat, fuel: nat)
    requires k < |c| && fuel >= |c| - k - 1
    requires forall i :: 0 <= i < |c| ==> c[i] in tokens
    requires forall i :: 0 <= i < |c| - 1 ==> tokens[c[i]].replacedBy == Some(c[i + 1])
    requires tokens[c[|c| - 1]].replacedBy == None
    ensures Follow(tokens, c[k], fuel) == c[k..]
    decreases |c| - k
  {
    if k < |c| - 1 {
      FollowLists(tokens, c, k + 1, fuel - 1);
      assert c[k..] == [c[k]] + c[k + 1..];
    } else {
      assert c[k..] == [c[k]];
    }
  }

  // After any sequence of calls, following replacedByTokenId from a family's first token lists
  // exactly its tokens, each once and in the order of issue, and only the last can be unrevoked.
  lemma FamiliesAreChains(calls: seq<Call>, family: FamilyId, fuel: nat)
    requires FamilyOf(AfterCalls(NO_TOKENS, calls), family) != []
    requires fuel >= |FamilyOf(AfterCalls(NO_TOKENS, calls), family)|
    ensures var s := AfterCalls(NO_TOKENS, calls);
            var c := FamilyOf(s, family);
            && Follow(s.tokens, c[0], fuel) == c
            && (forall i, j :: 0 <= i < j < |c| ==> c[i] != c[j])
            && (forall id :: id in c <==> id in s.tokens && s.tokens[id].family == family)
            && (forall id :: id in s.tokens && s.tokens[id].family == family && !s.tokens[id].revoked ==> id == c[|c| - 1])
  {
    var s := AfterCalls(NO_TOKENS, calls);
    var c := FamilyOf(s, family);
    ChainsAlways(calls);
    assert ChainInv(s, family);
    FollowLists(s.tokens, c, 0, fuel);
    assert c[0..] == c;
    forall id | id in s.tokens && s.tokens[id].family == family && !s.tokens[id].revoked ensures id == c[|c| - 1] {
      OnlyLastIsOpen(s, family, id);
    }
  }

  ghost predicate FamilyDead(s: Store, family: FamilyId) {
    FamilyOf(s, family) != [] && forall id :: id in s.tokens && s.tokens[id].family == family ==> s.tokens[id].revoked
  }

  // Presenting a revoked token kills its family ...
  lemma ReuseKillsFamily(s: Store, c: Call)
    requires SessionInv(s) && AllStored(s)
    requires c.Refresh? && c.newId !in s.tokens && c.presented in s.tokens && s.tokens[c.presented].revoked
    ensures AfterRefresh(s, c).1 == Err(TokenReused)
    ensures FamilyDead(AfterCall(s, c), s.tokens[c.presented].family)
  {
    var family := s.tokens[c.presented].family;
    assert ChainInv(s, family);
    assert c.presented in FamilyOf(s, family);
    MembersFrame(s.tokens, AfterCall(s, c).tokens, s.issued, family);
  }

  lemma DeadStaysDead(s: Store, c: Call, family: FamilyId)
    requires SessionInv(s) && AllStored(s) && FamilyDead(s, family)
    ensures FamilyDead(AfterCall(s, c), family)
  {
    var s' := AfterCall(s, c);
    if s'.issued == s.issued {
      MembersFrame(s.tokens, s'.tokens, s.issued, family);
    } else {
      match c
      case Login(user, f, id, expiresAt) =>
        FamilyAfterIssue(s, id, user, f, expiresAt, family);
      case Refresh(presented, _, _, newId, newExpiresAt) =>
        var t := s.tokens[presented];
        FamilyAfterIssue(s, newId, t.user, t.family, newExpiresAt, family);
        var s1 := Issue(s, newId, t.user, t.family, newExpiresAt);
        MembersFrame(s1.tokens, s'.tokens, s1.issued, family);
      case _ =>
    }
  }

  // ... for good: no later sequence of calls makes any token of that family active again.
  lemma {:induction false} ReuseIsFinal(calls: seq<Call>, reuse: Call, later: seq<Call>, id: TokenId, now: int)
    requires var s := AfterCalls(NO_TOKENS, calls);
             && reuse.Refresh? && reuse.newId !in s.tokens && reuse.presented in s.tokens && s.tokens[reuse.presented].revoked
    ensures var s := AfterCalls(NO_TOKENS, calls);
            var family := s.tokens[reuse.presented].family;
            var s' := AfterCalls(AfterCall(s, reuse), later);
            && SessionInv(s') && AllStored(s') && FamilyDead(s', family)
            && (id in s'.tokens && s'.tokens[id].family == family ==> !IsActive(s', id, now))
    decreases |later|
  {
    var s := AfterCalls(NO_TOKENS, calls);
    ChainsAlways(calls);
    if later == [] {
      CallKeepsChains(s, reuse);
      ReuseKillsFamily(s, reuse);
    } else {
      ReuseIsFinal(calls, reuse, later[..|later| - 1], id, now);
      var mid := AfterCalls(AfterCall(s, reuse), later[..|later| - 1]);
      CallKeepsChains(mid, later[|later| - 1]);
      DeadStaysDead(mid, later[|later| - 1], s.tokens[reuse.presented].family);
    }
  }

  // Here every call is atomic. Two refreshes that read the same unrevoked token before either
  // marks it fork the family: both successors are open. SessionRaces says exactly when calls that
  // overlap leave a chain.
  lemma OverlappingRefreshesFork(s: Store, t: TokenId, a: TokenId, b: TokenId, expiresAt: int)
    requires t in s.tokens && !s.tokens[t].revoked && a !in s.tokens && b !in s.tokens && a != b
    ensures var token := s.tokens[t];
            var bothIssued := Issue(Issue(s, a, token.user, token.family, expiresAt), b, token.user, token.family, expiresAt);
            var s' := Revoke(Revoke(bothIssued, t, Some(a)), t, Some(b));
            && a in s'.tokens && b in s'.tokens && s'.tokens[a].family == s'.tokens[b].family == token.family
            && !s'.tokens[a].revoked && !s'.tokens[b].revoked && !ChainInv(s', token.family)
  {
    var token := s.tokens[t];
    var bothIssued := Issue(Issue(s, a, token.user, token.family, expiresAt), b, token.user, token.family, expiresAt);
    var s' := Revoke(Revoke(bothIssued, t, Some(a)), t, Some(b));
    if ChainInv(s', token.family) {
      OnlyLastIsOpen(s', token.family, a);
      OnlyLastIsOpen(s', token.family, b);
    }
  }
}
