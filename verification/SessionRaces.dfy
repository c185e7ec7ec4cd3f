// Refreshes, logouts and session revocations whose reads and writes interleave in any way: when a
// token family is still one chain, and when a reused family stays dead.
module SessionRaces {
  import opened Wrappers
  import opened Sessions

  type CallId = nat

  // Where a call stands, after its read.
  datatype Pc =
    | Refreshing(t: TokenId) // read `t` unrevoked, about to issue
    | Marking(t: TokenId, n: TokenId) // issued `n`, about to mark `t`
    | Killing(family: FamilyId) // read a revoked token of the family
    | Ending(t: TokenId) // a logout or session revocation that read `t` unrevoked
    | Over

  datatype Mark = Mark(token: TokenId, replacedBy: Option<TokenId>)

  // `parent` maps each token a refresh issued to the one it was issued for; `marks` are the
  // markRevoked() writes so far.
  datatype World = World(store: Store, calls: map<CallId, Pc>, parent: map<TokenId, TokenId>, marks: seq<Mark>)

  const NO_SESSIONS: World := World(NO_TOKENS, map[], map[], [])

  datatype RaceStep =
    | LogIn(user: UserId, newFamily: FamilyId, newId: TokenId, expiresAt: int)
    | ReadForRefresh(c: CallId, presented: TokenId)
    | IssueNew(c: CallId, newId: TokenId, expiresAt: int)
    | ReadForEnd(c: CallId, presented: TokenId)
    | MarkOld(c: CallId)
    | Kill(c: CallId)

  function Marked(w: World, c: CallId, t: TokenId, replacedBy: Option<TokenId>): World {
    World(Revoke(w.store, t, replacedBy), w.calls[c := Over], w.parent, w.marks + [Mark(t, replacedBy)])
  }

  // A step that does not apply changes nothing. Calls that are refused at their read write nothing.
  function RaceNext(w: World, step: RaceStep): World {
    match step
    case LogIn(user, family, id, expiresAt) =>
      if id in w.store.tokens || FamilyOf(w.store, family) != [] then w else w.(store := Issue(w.store, id, user, family, expiresAt))
    case ReadForRefresh(c, t) =>
      if c in w.calls || t !in w.store.tokens then w
      else w.(calls := w.calls[c := if w.store.tokens[t].revoked then Killing(w.store.tokens[t].family) else Refreshing(t)])
    case IssueNew(c, n, expiresAt) =>
      if c !in w.calls || !w.calls[c].Refreshing? || n in w.store.tokens || w.calls[c].t !in w.store.tokens then w
      else
        var t := w.calls[c].t;
        World(Issue(w.store, n, w.store.tokens[t].user, w.store.tokens[t].family, expiresAt),
              w.calls[c := Marking(t, n)], w.parent[n := t], w.marks)
    case ReadForEnd(c, t) =>
      if c in w.calls || t !in w.store.tokens || w.store.tokens[t].revoked then w else w.(calls := w.calls[c := Ending(t)])
    case MarkOld(c) =>
      if c !in w.calls then w
      else if w.calls[c].Marking? then Marked(w, c, w.calls[c].t, Some(w.calls[c].n))
      else if w.calls[c].Ending? then Marked(w, c, w.calls[c].t, None)
      else w
    case Kill(c) =>
      if c !in w.calls || !w.calls[c].Killing? then w
      else w.(store := RevokeFamily(w.store, w.calls[c].family), calls := w.calls[c := Over])
  }

  function RaceRun(w: World, steps: seq<RaceStep>): World {
    if steps == [] then w else RaceNext(RaceRun(w, steps[..|steps| - 1]), steps[|steps| - 1])
  }

  // ---------------------------------------------------------------- invariant

  // What the last mark on a token left in its replacedByTokenId.
  function LastMark(marks: seq<Mark>, t: TokenId): Option<TokenId> {
    if marks == [] then None
    else if marks[|marks| - 1].token == t then marks[|marks| - 1].replacedBy
    else LastMark(marks[..|marks| - 1], t)
  }

  ghost predicate Before(c: seq<TokenId>, a: TokenId, b: TokenId) {
    exists i, j :: 0 <= i < j < |c| && c[i] == a && c[j] == b
  }

  ghost predicate DistinctIds(c: seq<TokenId>) {
    forall i, j :: 0 <= i < j < |c| ==> c[i] != c[j]
  }

  // A family lists its tokens once each, starts with its only token that no refresh issued, and
  // has every other one after the one it was issued for.
  ghost predicate FamilyInv(s: Store, parent: map<TokenId, TokenId>, f: FamilyId) {
    var c := FamilyOf(s, f);
    && DistinctIds(c)
    && (forall id :: id in c <==> id in s.tokens && s.tokens[id].family == f)
    && (forall id :: id in c && id in parent ==> Before(c, parent[id], id))
    && (forall a, b :: a in c && b in c && a !in parent && b !in parent ==> a == b)
  }

  ghost predicate LinksInv(s: Store, marks: seq<Mark>) {
    forall t :: t in s.tokens ==>
                  && s.tokens[t].replacedBy == LastMark(marks, t)
                  && (s.tokens[t].replacedBy.Some? ==> s.tokens[t].revoked)
  }

  ghost predicate CallInv(w: World, pc: Pc) {
    match pc
    case Refreshing(t) => t in w.store.tokens
    case Marking(t, n) => n in w.parent && w.parent[n] == t && t in w.store.tokens && Mark(t, Some(n)) !in w.marks
    case Killing(f) => FamilyOf(w.store, f) != []
    case Ending(t) => t in w.store.tokens
    case Over => true
  }

  ghost predicate BeingMarked(w: World, n: TokenId) {
    exists c :: c in w.calls && w.calls[c].Marking? && w.calls[c].n == n
  }

  ghost predicate MarksInv(w: World) {
    && (forall c :: c in w.calls ==> CallInv(w, w.calls[c]))
    && (forall c, d :: c in w.calls && d in w.calls && w.calls[c].Marking? && w.calls[d].Marking? && w.calls[c].n == w.calls[d].n ==> c == d)
    && (forall n :: n in w.parent ==> n in w.store.tokens && (BeingMarked(w, n) || Mark(w.parent[n], Some(n)) in w.marks))
    && (forall i :: 0 <= i < |w.marks| ==> w.marks[i].token in w.store.tokens)
    && (forall i :: 0 <= i < |w.marks| && w.marks[i].replacedBy.Some? ==>
          w.marks[i].replacedBy.value in w.parent && w.parent[w.marks[i].replacedBy.value] == w.marks[i].token)
    && (forall i, j :: 0 <= i < j < |w.marks| && w.marks[i].replacedBy.Some? ==> w.marks[i] != w.marks[j])
  }

  ghost predicate RaceInv(w: World) {
    && AllStored(w.store)
    && (forall f :: FamilyInv(w.store, w.parent, f))
    && LinksInv(w.store, w.marks)
    && MarksInv(w)
  }

  // ---------------------------------------------------------------- families under each write

  // A family that gets no new token stays as it is ...
  lemma IssueKeepsOtherFamily(s: Store, parent: map<TokenId, TokenId>, n: TokenId, user: UserId, family: FamilyId, expiresAt: int,
                              parent': map<TokenId, TokenId>, f: FamilyId)
    requires FamilyInv(s, parent, f) && AllStored(s) && n !in s.tokens && f != family
    requires forall id :: id != n ==> (id in parent' <==> id in parent)
    requires forall id :: id != n && id in parent ==> parent'[id] == parent[id]
    ensures FamilyInv(Issue(s, n, user, family, expiresAt), parent', f)
    ensures FamilyOf(Issue(s, n, user, family, expiresAt), f) == FamilyOf(s, f)
  {
    FamilyAfterIssue(s, n, user, family, expiresAt, f);
  }

  // ... a new family is its first token ...
  lemma IssueStartsFamily(s: Store, parent: map<TokenId, TokenId>, n: TokenId, user: UserId, family: FamilyId, expiresAt: int)
    requires FamilyInv(s, parent, family) && AllStored(s) && n !in s.tokens && n !in parent && FamilyOf(s, family) == []
    ensures FamilyInv(Issue(s, n, user, family, expiresAt), parent, family)
    ensures FamilyOf(Issue(s, n, user, family, expiresAt), family) == [n]
  {
    FamilyAfterIssue(s, n, user, family, expiresAt, family);
  }

  // ... and a refresh adds its token at the end.
  lemma IssueExtendsFamily(s: Store, parent: map<TokenId, TokenId>, n: TokenId, user: UserId, t: TokenId, expiresAt: int)
    requires t in s.tokens && FamilyInv(s, parent, s.tokens[t].family) && AllStored(s) && n !in s.tokens && n !in parent
    ensures var f := s.tokens[t].family;
            && FamilyInv(Issue(s, n, user, f, expiresAt), parent[n := t], f)
            && FamilyOf(Issue(s, n, user, f, expiresAt), f) == FamilyOf(s, f) + [n]
  {
    var f := s.tokens[t].family;
    var c, c' := FamilyOf(s, f), FamilyOf(s, f) + [n];
    FamilyAfterIssue(s, n, user, f, expiresAt, f);
    assert t in c && n !in c;
    forall id | id in c' && id in parent[n := t] ensures Before(c', parent[n := t][id], id) {
      BeforeExtends(c, n, if id == n then t else parent[id], id);
    }
  }

  lemma BeforeExtends(c: seq<TokenId>, n: TokenId, a: TokenId, b: TokenId)
    requires if b == n then a in c else Before(c, a, b)
    ensures Before(c + [n], a, b)
  {
    var c' := c + [n];
    if b == n {
      var i :| 0 <= i < |c| && c[i] == a;
      assert c'[i] == a && c'[|c|] == n;
    } else {
      var i, j :| 0 <= i < j < |c| && c[i] == a && c[j] == b;
      assert c'[i] == a && c'[j] == b;
    }
  }

  // Writing revocations and links moves no token between families.
  lemma RelinkKeepsFamily(s: Store, s': Store, parent: map<TokenId, TokenId>, f: FamilyId)
    requires FamilyInv(s, parent, f) && s'.issued == s.issued && s'.tokens.Keys == s.tokens.Keys
    requires forall id :: id in s.tokens ==> s'.tokens[id].family == s.tokens[id].family
    ensures FamilyInv(s', parent, f) && FamilyOf(s', f) == FamilyOf(s, f)
  {
    MembersFrame(s.tokens, s'.tokens, s.issued, f);
  }

  lemma RelinkKeepsFamilies(s: Store, s': Store, parent: map<TokenId, TokenId>)
    requires s'.issued == s.issued && s'.tokens.Keys == s.tokens.Keys
    requires forall id :: id in s.tokens ==> s'.tokens[id].family == s.tokens[id].family
    requires forall f :: FamilyInv(s, parent, f)
    ensures forall f :: FamilyInv(s', parent, f)
    ensures forall f :: FamilyOf(s', f) == FamilyOf(s, f)
  {
    forall f ensures FamilyInv(s', parent, f) && FamilyOf(s', f) == FamilyOf(s, f) {
      RelinkKeepsFamily(s, s', parent, f);
    }
  }

  // ---------------------------------------------------------------- every step

  lemma {:induction false} NoMarkYet(marks: seq<Mark>, t: TokenId)
    requires forall i :: 0 <= i < |marks| ==> marks[i].token != t
    ensures LastMark(marks, t) == None
    decreases |marks|
  {
    if marks != [] { NoMarkYet(marks[..|marks| - 1], t); }
  }

  // A world in which only the store and its tokens have grown, or tokens were revoked.
  lemma MarksFrame(w: World, s': Store)
    requires MarksInv(w) && w.store.tokens.Keys <= s'.tokens.Keys
    requires forall f :: FamilyOf(w.store, f) != [] ==> FamilyOf(s', f) != []
    ensures MarksInv(w.(store := s'))
  {
    var w' := w.(store := s');
    forall c | c in w'.calls ensures CallInv(w', w'.calls[c]) {
      assert CallInv(w, w.calls[c]);
    }
    forall n | n in w'.parent ensures BeingMarked(w', n) || Mark(w'.parent[n], Some(n)) in w'.marks {
      assert BeingMarked(w, n) ==> BeingMarked(w', n);
    }
  }

  // A fresh token carries no mark.
  lemma IssueKeepsLinks(s: Store, marks: seq<Mark>, id: TokenId, user: UserId, family: FamilyId, expiresAt: int)
    requires LinksInv(s, marks) && id !in s.tokens && forall i :: 0 <= i < |marks| ==> marks[i].token in s.tokens
    ensures LinksInv(Issue(s, id, user, family, expiresAt), marks)
  {
    NoMarkYet(marks, id);
  }

  lemma LogInKeepsInv(w: World, user: UserId, family: FamilyId, id: TokenId, expiresAt: int)
    requires RaceInv(w) && id !in w.store.tokens && FamilyOf(w.store, family) == []
    ensures RaceInv(w.(store := Issue(w.store, id, user, family, expiresAt)))
  {
    var s' := Issue(w.store, id, user, family, expiresAt);
    forall f ensures FamilyInv(s', w.parent, f) && (FamilyOf(w.store, f) != [] ==> FamilyOf(s', f) != []) {
      assert FamilyInv(w.store, w.parent, f);
      if f == family {
        IssueStartsFamily(w.store, w.parent, id, user, family, expiresAt);
      } else {
        IssueKeepsOtherFamily(w.store, w.parent, id, user, family, expiresAt, w.parent, f);
      }
    }
    IssueKeepsLinks(w.store, w.marks, id, user, family, expiresAt);
    MarksFrame(w, s');
  }

  // A read, or the end of a call that was not marking.
  lemma PcKeepsInv(w: World, c: CallId, pc: Pc)
    requires RaceInv(w) && CallInv(w, pc) && !pc.Marking? && (c in w.calls ==> !w.calls[c].Marking?)
    ensures RaceInv(w.(calls := w.calls[c := pc]))
  {
    var w' := w.(calls := w.calls[c := pc]);
    forall d | d in w'.calls ensures CallInv(w', w'.calls[d]) {
      if d != c { assert CallInv(w, w.calls[d]); }
    }
    forall n | n in w'.parent ensures BeingMarked(w', n) || Mark(w'.parent[n], Some(n)) in w'.marks {
      if BeingMarked(w, n) {
        var d :| d in w.calls && w.calls[d].Marking? && w.calls[d].n == n;
        assert d in w'.calls && w'.calls[d].Marking? && w'.calls[d].n == n;
      }
    }
  }

  lemma IssueKeepsInv(w: World, c: CallId, n: TokenId, expiresAt: int)
    requires RaceInv(w) && c in w.calls && w.calls[c].Refreshing? && n !in w.store.tokens && w.calls[c].t in w.store.tokens
    ensures RaceInv(RaceNext(w, IssueNew(c, n, expiresAt)))
  {
    var t := w.calls[c].t;
    var token := w.store.tokens[t];
    var s' := Issue(w.store, n, token.user, token.family, expiresAt);
    assert n !in w.parent;
    forall f ensures FamilyInv(s', w.parent[n := t], f) && (FamilyOf(w.store, f) != [] ==> FamilyOf(s', f) != []) {
      assert FamilyInv(w.store, w.parent, f);
      if f == token.family {
        IssueExtendsFamily(w.store, w.parent, n, token.user, t, expiresAt);
      } else {
        IssueKeepsOtherFamily(w.store, w.parent, n, token.user, token.family, expiresAt, w.parent[n := t], f);
      }
    }
    IssueKeepsLinks(w.store, w.marks, n, token.user, token.family, expiresAt);
    MarksFrame(w, s');
    IssueKeepsMarks(w.(store := s'), c, t, n);
  }

  lemma IssueKeepsMarks(w: World, c: CallId, t: TokenId, n: TokenId)
    requires MarksInv(w) && c in w.calls && w.calls[c] == Refreshing(t) && t in w.store.tokens && n in w.store.tokens && n !in w.parent
    ensures MarksInv(World(w.store, w.calls[c := Marking(t, n)], w.parent[n := t], w.marks))
  {
    var w' := World(w.store, w.calls[c := Marking(t, n)], w.parent[n := t], w.marks);
    forall d | d in w'.calls ensures CallInv(w', w'.calls[d]) {
      if d != c { assert CallInv(w, w.calls[d]); }
      assert Mark(t, Some(n)) !in w.marks;
    }
    forall d, e | d in w'.calls && e in w'.calls && w'.calls[d].Marking? && w'.calls[e].Marking? && w'.calls[d].n == w'.calls[e].n ensures d == e {
      assert d != c ==> CallInv(w, w.calls[d]);
      assert e != c ==> CallInv(w, w.calls[e]);
    }
    forall m | m in w'.parent ensures BeingMarked(w', m) || Mark(w'.parent[m], Some(m)) in w'.marks {
      if m == n {
        assert w'.calls[c].n == n;
      } else if BeingMarked(w, m) {
        var d :| d in w.calls && w.calls[d].Marking? && w.calls[d].n == m;
        assert d in w'.calls && w'.calls[d].Marking? && w'.calls[d].n == m;
      }
    }
  }

  lemma RevokeKeepsLinks(s: Store, marks: seq<Mark>, t: TokenId, replacedBy: Option<TokenId>)
    requires LinksInv(s, marks) && t in s.tokens
    ensures LinksInv(Revoke(s, t, replacedBy), marks + [Mark(t, replacedBy)])
  {
    assert (marks + [Mark(t, replacedBy)])[..|marks|] == marks;
  }

  lemma MarkKeepsInv(w: World, c: CallId)
    requires RaceInv(w) && c in w.calls && (w.calls[c].Marking? || w.calls[c].Ending?)
    ensures RaceInv(RaceNext(w, MarkOld(c)))
  {
    var replacedBy := if w.calls[c].Marking? then Some(w.calls[c].n) else None;
    assert CallInv(w, w.calls[c]);
    assert RaceNext(w, MarkOld(c)) == Marked(w, c, w.calls[c].t, replacedBy);
    MarkedKeepsInv(w, c, w.calls[c].t, replacedBy);
  }

  lemma MarkedKeepsInv(w: World, c: CallId, t: TokenId, replacedBy: Option<TokenId>)
    requires RaceInv(w) && c in w.calls && t in w.store.tokens
    requires w.calls[c] == if replacedBy.Some? then Marking(t, replacedBy.value) else Ending(t)
    ensures RaceInv(Marked(w, c, t, replacedBy))
  {
    var s' := Revoke(w.store, t, replacedBy);
    RelinkKeepsFamilies(w.store, s', w.parent);
    RevokeKeepsLinks(w.store, w.marks, t, replacedBy);
    MarksFrame(w, s');
    MarkKeepsMarks(w.(store := s'), c, t, replacedBy);
  }

  lemma MarkKeepsMarks(w: World, c: CallId, t: TokenId, replacedBy: Option<TokenId>)
    requires MarksInv(w) && c in w.calls && t in w.store.tokens
    requires w.calls[c] == if replacedBy.Some? then Marking(t, replacedBy.value) else Ending(t)
    ensures MarksInv(World(w.store, w.calls[c := Over], w.parent, w.marks + [Mark(t, replacedBy)]))
  {
    var w' := World(w.store, w.calls[c := Over], w.parent, w.marks + [Mark(t, replacedBy)]);
    assert CallInv(w, w.calls[c]);
    forall d | d in w'.calls ensures CallInv(w', w'.calls[d]) {
      if d != c { assert CallInv(w, w.calls[d]); }
    }
    forall m | m in w'.parent ensures BeingMarked(w', m) || Mark(w'.parent[m], Some(m)) in w'.marks {
      if replacedBy == Some(m) {
        assert w'.marks[|w.marks|] == Mark(t, Some(m));
      } else if BeingMarked(w, m) {
        var d :| d in w.calls && w.calls[d].Marking? && w.calls[d].n == m;
        assert d in w'.calls && w'.calls[d].Marking? && w'.calls[d].n == m;
      }
    }
  }

  lemma KillKeepsInv(w: World, c: CallId)
    requires RaceInv(w) && c in w.calls && w.calls[c].Killing?
    ensures RaceInv(RaceNext(w, Kill(c)))
  {
    var s' := RevokeFamily(w.store, w.calls[c].family);
    RelinkKeepsFamilies(w.store, s', w.parent);
    MarksFrame(w, s');
    PcKeepsInv(w.(store := s'), c, Over);
  }

  lemma ReadKeepsInv(w: World, step: RaceStep)
    requires RaceInv(w) && (step.ReadForRefresh? || step.ReadForEnd?)
    ensures RaceInv(RaceNext(w, step))
  {
    if step.c !in w.calls && step.presented in w.store.tokens {
      var f := w.store.tokens[step.presented].family;
      assert FamilyInv(w.store, w.parent, f);
      assert step.presented in FamilyOf(w.store, f);
      if step.ReadForRefresh? {
        PcKeepsInv(w, step.c, if w.store.tokens[step.presented].revoked then Killing(f) else Refreshing(step.presented));
      } else {
        PcKeepsInv(w, step.c, Ending(step.presented));
      }
    }
  }

  lemma RaceStepKeepsInv(w: World, step: RaceStep)
    requires RaceInv(w)
    ensures RaceInv(RaceNext(w, step))
  {
    if RaceNext(w, step) != w {
      match step
      case LogIn(user, family, id, expiresAt) => LogInKeepsInv(w, user, family, id, expiresAt);
      case IssueNew(c, n, expiresAt) => IssueKeepsInv(w, c, n, expiresAt);
      case MarkOld(c) => MarkKeepsInv(w, c);
      case Kill(c) => KillKeepsInv(w, c);
      case _ => ReadKeepsInv(w, step);
    }
  }

  lemma {:induction false} RaceInvAlways(steps: seq<RaceStep>)
    ensures RaceInv(RaceRun(NO_SESSIONS, steps))
    decreases |steps|
  {
    if steps != [] {
      RaceInvAlways(steps[..|steps| - 1]);
      RaceStepKeepsInv(RaceRun(NO_SESSIONS, steps[..|steps| - 1]), steps[|steps| - 1]);
    }
  }

  // ---------------------------------------------------------------- when a family is a chain

  // No refresh of the family is between its issue and its mark.
  ghost predicate Settled(w: World, f: FamilyId) {
    forall c :: c in w.calls && w.calls[c].Marking? && w.calls[c].t in w.store.tokens ==> w.store.tokens[w.calls[c].t].family != f
  }

  // A token that a refresh had marked was marked again, by another refresh that had also read it
  // unrevoked or by a logout or session revocation that had.
  ghost predicate Remarked(w: World, f: FamilyId) {
    exists i, j :: 0 <= i < j < |w.marks| && w.marks[i].token == w.marks[j].token && w.marks[i].replacedBy.Some?
                   && w.marks[i].token in w.store.tokens && w.store.tokens[w.marks[i].token].family == f
  }

  lemma {:induction false} LastMarkStands(marks: seq<Mark>, t: TokenId, i: nat)
    requires i < |marks| && marks[i].token == t && forall j :: i < j < |marks| ==> marks[j].token != t
    ensures LastMark(marks, t) == marks[i].replacedBy
    decreases |marks|
  {
    if i < |marks| - 1 { LastMarkStands(marks[..|marks| - 1], t, i); }
  }

  lemma {:induction false} LastMarkFound(marks: seq<Mark>, t: TokenId) returns (i: nat)
    requires LastMark(marks, t).Some?
    ensures i < |marks| && marks[i] == Mark(t, LastMark(marks, t)) && forall j :: i < j < |marks| ==> marks[j].token != t
    decreases |marks|
  {
    if marks[|marks| - 1].token == t {
      i := |marks| - 1;
    } else {
      i := LastMarkFound(marks[..|marks| - 1], t);
    }
  }

  // A list that starts with its only root, has every other element after its parent, and gives no
  // two elements the same parent is a path.
  lemma {:induction false} ListIsPath(c: seq<TokenId>, parent: map<TokenId, TokenId>, i: nat)
    requires 0 < i < |c| && DistinctIds(c)
    requires forall id :: id in c && id in parent ==> Before(c, parent[id], id)
    requires forall a, b :: a in c && b in c && a !in parent && b !in parent ==> a == b
    requires forall a, b :: a in c && b in c && a in parent && b in parent && parent[a] == parent[b] ==> a == b
    ensures c[i] in parent && parent[c[i]] == c[i - 1]
    decreases i
  {
    assert c[0] in c && c[i] in c;
    assert c[0] !in parent;
    assert c[i] in parent;
    var k, m :| 0 <= k < m < |c| && c[k] == parent[c[i]] && c[m] == c[i];
    assert m == i;
    if k < i - 1 {
      assert c[k + 1] in c;
      ListIsPath(c, parent, k + 1);
    }
  }

  lemma NotRemarkedIsLinked(w: World, f: FamilyId, n: TokenId)
    requires RaceInv(w) && Settled(w, f) && !Remarked(w, f) && n in w.parent && n in FamilyOf(w.store, f)
    ensures w.parent[n] in w.store.tokens && w.store.tokens[w.parent[n]].family == f
    ensures w.store.tokens[w.parent[n]].replacedBy == Some(n)
  {
    var c, t := FamilyOf(w.store, f), w.parent[n];
    assert FamilyInv(w.store, w.parent, f);
    assert Before(c, t, n);
    assert t in c;
    SettledIsMarked(w, f, n);
    var i :| 0 <= i < |w.marks| && w.marks[i] == Mark(t, Some(n));
    LastMarkStands(w.marks, t, i);
  }

  lemma SettledIsMarked(w: World, f: FamilyId, n: TokenId)
    requires RaceInv(w) && Settled(w, f) && n in w.parent && w.parent[n] in w.store.tokens && w.store.tokens[w.parent[n]].family == f
    ensures Mark(w.parent[n], Some(n)) in w.marks
  {
    forall d | d in w.calls ensures !(w.calls[d].Marking? && w.calls[d].n == n) {
      assert CallInv(w, w.calls[d]);
    }
  }

  lemma SoleChildren(w: World, f: FamilyId, c: seq<TokenId>)
    requires RaceInv(w) && Settled(w, f) && !Remarked(w, f) && c == FamilyOf(w.store, f)
    ensures forall a, b :: a in c && b in c && a in w.parent && b in w.parent && w.parent[a] == w.parent[b] ==> a == b
  {
    forall a, b | a in c && b in c && a in w.parent && b in w.parent && w.parent[a] == w.parent[b] ensures a == b {
      NotRemarkedIsLinked(w, f, a);
      NotRemarkedIsLinked(w, f, b);
    }
  }

  lemma LinkAt(w: World, f: FamilyId, i: nat)
    requires RaceInv(w) && Settled(w, f) && !Remarked(w, f) && i + 1 < |FamilyOf(w.store, f)|
    ensures var c := FamilyOf(w.store, f);
            c[i] in w.store.tokens && w.store.tokens[c[i]].revoked && w.store.tokens[c[i]].replacedBy == Some(c[i + 1])
  {
    var c := FamilyOf(w.store, f);
    SoleChildren(w, f, c);
    FamilyIsPath(w.store, w.parent, f, i + 1);
    assert c[i + 1] in c;
    NotRemarkedIsLinked(w, f, c[i + 1]);
  }

  lemma FamilyIsPath(s: Store, parent: map<TokenId, TokenId>, f: FamilyId, i: nat)
    requires FamilyInv(s, parent, f) && 0 < i < |FamilyOf(s, f)|
    requires var c := FamilyOf(s, f);
             forall a, b :: a in c && b in c && a in parent && b in parent && parent[a] == parent[b] ==> a == b
    ensures FamilyOf(s, f)[i] in parent && parent[FamilyOf(s, f)[i]] == FamilyOf(s, f)[i - 1]
  {
    ListIsPath(FamilyOf(s, f), parent, i);
  }

  lemma NotRemarkedIsChain(w: World, f: FamilyId)
    requires RaceInv(w) && Settled(w, f) && !Remarked(w, f)
    ensures ChainInv(w.store, f)
  {
    var c := FamilyOf(w.store, f);
    forall i | 0 <= i < |c| - 1 ensures c[i] in w.store.tokens && w.store.tokens[c[i]].revoked && w.store.tokens[c[i]].replacedBy == Some(c[i + 1]) {
      LinkAt(w, f, i);
    }
    if c != [] {
      LastHasNoLink(w, f);
    }
    ListedTokens(w, f);
  }

  lemma ListedTokens(w: World, f: FamilyId)
    requires RaceInv(w)
    ensures var c := FamilyOf(w.store, f);
            && DistinctIds(c)
            && (forall i :: 0 <= i < |c| ==> c[i] in w.store.tokens && w.store.tokens[c[i]].family == f)
            && (forall id :: id in w.store.tokens && w.store.tokens[id].family == f ==> id in c)
  {
    var c := FamilyOf(w.store, f);
    assert FamilyInv(w.store, w.parent, f);
    forall i | 0 <= i < |c| ensures c[i] in w.store.tokens && w.store.tokens[c[i]].family == f {
      assert c[i] in c;
    }
  }

  // Whatever the marks, a link leads from a token to one issued for it, so never from the last.
  lemma LinkIsToChild(w: World, t: TokenId)
    requires RaceInv(w) && t in w.store.tokens && w.store.tokens[t].replacedBy.Some?
    ensures var n := w.store.tokens[t].replacedBy.value;
            n in w.parent && w.parent[n] == t && n in w.store.tokens
  {
    var i := LastMarkFound(w.marks, t);
  }

  lemma LastHasNoLink(w: World, f: FamilyId)
    requires RaceInv(w) && FamilyOf(w.store, f) != []
    ensures var c := FamilyOf(w.store, f);
            c[|c| - 1] in w.store.tokens && w.store.tokens[c[|c| - 1]].replacedBy == None
  {
    var c := FamilyOf(w.store, f);
    var last := c[|c| - 1];
    assert FamilyInv(w.store, w.parent, f);
    assert last in c;
    if w.store.tokens[last].replacedBy.Some? {
      var n := w.store.tokens[last].replacedBy.value;
      LinkIsToChild(w, last);
      ChildInFamily(w, n);
      LastIsBeforeNone(c, n);
    }
  }

  lemma LastIsBeforeNone(c: seq<TokenId>, n: TokenId)
    requires c != [] && DistinctIds(c)
    ensures !Before(c, c[|c| - 1], n)
  {
  }

  lemma ChildInFamily(w: World, n: TokenId)
    requires RaceInv(w) && n in w.parent
    ensures n in w.store.tokens && w.parent[n] in w.store.tokens
    ensures w.store.tokens[w.parent[n]].family == w.store.tokens[n].family
    ensures Before(FamilyOf(w.store, w.store.tokens[n].family), w.parent[n], n)
  {
    var f := w.store.tokens[n].family;
    assert FamilyInv(w.store, w.parent, f);
    assert n in FamilyOf(w.store, f);
    var i, j :| 0 <= i < j < |FamilyOf(w.store, f)| && FamilyOf(w.store, f)[i] == w.parent[n] && FamilyOf(w.store, f)[j] == n;
    assert w.parent[n] in FamilyOf(w.store, f);
  }

  // In a chain every issued token is what the last mark on its parent names.
  lemma ChainLinksChild(w: World, f: FamilyId, n: TokenId)
    requires RaceInv(w) && ChainInv(w.store, f) && n in w.parent && w.parent[n] in w.store.tokens && w.store.tokens[w.parent[n]].family == f
    ensures LastMark(w.marks, w.parent[n]) == Some(n)
  {
    ChildInFamily(w, n);
    var c := FamilyOf(w.store, f);
    var k, m :| 0 <= k < m < |c| && c[k] == w.parent[n] && c[m] == n;
    LinkIsToChild(w, c[m - 1]);
  }

  lemma RemarkedIsNoChain(w: World, f: FamilyId)
    requires RaceInv(w) && Remarked(w, f)
    ensures !ChainInv(w.store, f)
  {
    var i, j :| 0 <= i < j < |w.marks| && w.marks[i].token == w.marks[j].token && w.marks[i].replacedBy.Some?
                && w.marks[i].token in w.store.tokens && w.store.tokens[w.marks[i].token].family == f;
    if ChainInv(w.store, f) {
      ChainLinksChild(w, f, w.marks[i].replacedBy.value);
      var l := LastMarkFound(w.marks, w.marks[i].token);
    }
  }

  // Any number of calls, interleaved in any way: whenever none of a family's refreshes is between
  // its two writes, the family is a single chain if and only if no token of it was marked again
  // after a refresh had marked it.
  lemma ChainsExactly(steps: seq<RaceStep>, f: FamilyId)
    requires Settled(RaceRun(NO_SESSIONS, steps), f)
    ensures var w := RaceRun(NO_SESSIONS, steps);
            RaceInv(w) && (ChainInv(w.store, f) <==> !Remarked(w, f))
  {
    RaceInvAlways(steps);
    var w := RaceRun(NO_SESSIONS, steps);
    if Remarked(w, f) { RemarkedIsNoChain(w, f); } else { NotRemarkedIsChain(w, f); }
  }

  // So when exactly two calls mark in a family, both the same token, the family is a chain if and
  // only if the first of the two is not a refresh: not two refreshes, and no logout or session
  // revocation that writes after the refresh.
  lemma TwoMarksChainExactly(steps: seq<RaceStep>, f: FamilyId, i: nat, j: nat)
    requires var w := RaceRun(NO_SESSIONS, steps);
             && Settled(w, f) && i < j < |w.marks| && w.marks[i].token == w.marks[j].token
             && w.marks[i].token in w.store.tokens && w.store.tokens[w.marks[i].token].family == f
             && (forall k :: 0 <= k < |w.marks| && w.marks[k].token in w.store.tokens && w.store.tokens[w.marks[k].token].family == f ==> k in {i, j})
    ensures var w := RaceRun(NO_SESSIONS, steps);
            ChainInv(w.store, f) <==> w.marks[i].replacedBy.None?
  {
    ChainsExactly(steps, f);
  }

  // Two refreshes of one token always are such a second mark, in whatever order they write.
  lemma RefreshedTwiceIsRemarked(steps: seq<RaceStep>, a: TokenId, b: TokenId)
    requires var w := RaceRun(NO_SESSIONS, steps);
             a in w.parent && b in w.parent && a != b && w.parent[a] == w.parent[b]
             && a in w.store.tokens && Settled(w, w.store.tokens[a].family)
    ensures var w := RaceRun(NO_SESSIONS, steps);
            Remarked(w, w.store.tokens[a].family) && !ChainInv(w.store, w.store.tokens[a].family)
  {
    RaceInvAlways(steps);
    var w := RaceRun(NO_SESSIONS, steps);
    MarkedForTwo(w, a, b);
    RemarkedIsNoChain(w, w.store.tokens[a].family);
  }

  lemma MarkedForTwo(w: World, a: TokenId, b: TokenId)
    requires RaceInv(w) && a in w.parent && b in w.parent && a != b && w.parent[a] == w.parent[b]
    requires a in w.store.tokens && Settled(w, w.store.tokens[a].family)
    ensures Remarked(w, w.store.tokens[a].family)
  {
    ChildInFamily(w, a);
    ChildInFamily(w, b);
    var i := MarkOfSettled(w, a);
    var j := MarkOfSettled(w, b);
    assert i < j || j < i;
  }

  lemma MarkOfSettled(w: World, n: TokenId) returns (i: nat)
    requires RaceInv(w) && n in w.parent && n in w.store.tokens && Settled(w, w.store.tokens[n].family)
    ensures i < |w.marks| && w.marks[i] == Mark(w.parent[n], Some(n))
  {
    ChildInFamily(w, n);
    SettledIsMarked(w, w.store.tokens[n].family, n);
    i :| 0 <= i < |w.marks| && w.marks[i] == Mark(w.parent[n], Some(n));
  }

  // A logout that read a token before its refresh, and writes after it, erases the link.
  lemma LateLogoutErasesLink() returns (steps: seq<RaceStep>)
    ensures var w := RaceRun(NO_SESSIONS, steps);
            && Settled(w, 0) && !ChainInv(w.store, 0) && FamilyOf(w.store, 0) == [1, 2]
            && w.store.tokens == map[1 := Token(0, 0, 0, true, None), 2 := Token(0, 0, 0, false, None)]
  {
    steps := LateLogoutRun();
    var w := RaceRun(NO_SESSIONS, steps);
    assert w.marks[0] == Mark(1, Some(2)) && w.marks[1] == Mark(1, None);
    FamilyOfTwo(w.store.tokens);
    ChainsExactly(steps, 0);
  }

  const OPEN_TOKEN: Token := Token(0, 0, 0, false, None)

  // One token, read by a logout and by a refresh.
  const BOTH_HAVE_READ: World := World(Store(map[1 := OPEN_TOKEN], [1]), map[0 := Ending(1), 1 := Refreshing(1)], map[], [])

  lemma LateLogoutRun() returns (steps: seq<RaceStep>)
    ensures RaceRun(NO_SESSIONS, steps)
         == World(Store(map[1 := OPEN_TOKEN.(revoked := true), 2 := OPEN_TOKEN], [1, 2]),
                  map[0 := Over, 1 := Over], map[2 := 1], [Mark(1, Some(2)), Mark(1, None)])
  {
    var w4 := World(Store(map[1 := OPEN_TOKEN, 2 := OPEN_TOKEN], [1, 2]), map[0 := Ending(1), 1 := Marking(1, 2)], map[2 := 1], []);
    var w5 := World(Store(map[1 := OPEN_TOKEN.(revoked := true, replacedBy := Some(2)), 2 := OPEN_TOKEN], [1, 2]),
                    map[0 := Ending(1), 1 := Over], map[2 := 1], [Mark(1, Some(2))]);
    steps := BothReadRun();
    steps := StepTo(steps, BOTH_HAVE_READ, IssueNew(1, 2, 0), w4);
    steps := StepTo(steps, w4, MarkOld(1), w5);
    steps := StepTo(steps, w5, MarkOld(0),
                    World(Store(map[1 := OPEN_TOKEN.(revoked := true), 2 := OPEN_TOKEN], [1, 2]),
                          map[0 := Over, 1 := Over], map[2 := 1], [Mark(1, Some(2)), Mark(1, None)]));
  }

  lemma BothReadRun() returns (steps: seq<RaceStep>)
    ensures RaceRun(NO_SESSIONS, steps) == BOTH_HAVE_READ
  {
    var w1 := World(Store(map[1 := OPEN_TOKEN], [1]), map[], map[], []);
    steps := StepTo([], NO_SESSIONS, LogIn(0, 0, 1, 0), w1);
    steps := StepTo(steps, w1, ReadForEnd(0, 1), w1.(calls := map[0 := Ending(1)]));
    steps := StepTo(steps, w1.(calls := map[0 := Ending(1)]), ReadForRefresh(1, 1), BOTH_HAVE_READ);
  }

  lemma StepTo(steps: seq<RaceStep>, w: World, step: RaceStep, next: World) returns (longer: seq<RaceStep>)
    requires RaceRun(NO_SESSIONS, steps) == w && RaceNext(w, step) == next
    ensures RaceRun(NO_SESSIONS, longer) == next
  {
    longer := steps + [step];
    assert longer[..|steps|] == steps;
  }

  lemma FamilyOfTwo(tokens: map<TokenId, Token>)
    requires 1 in tokens && 2 in tokens && tokens[1].family == tokens[2].family == 0
    ensures FamilyOf(Store(tokens, [1, 2]), 0) == [1, 2]
  {
    assert [1, 2][..1] == [1] && [1][..0] == [];
    assert Members(tokens, [1], 0) == [1];
  }

  // ---------------------------------------------------------------- when a reused family stays dead

  // A refresh has read a token of the family unrevoked and has yet to issue.
  ghost predicate PendingRefresh(w: World, f: FamilyId) {
    exists c :: c in w.calls && w.calls[c].Refreshing? && w.calls[c].t in w.store.tokens && w.store.tokens[w.calls[c].t].family == f
  }

  lemma KillRevokes(w: World, c: CallId)
    requires RaceInv(w) && c in w.calls && w.calls[c].Killing?
    ensures FamilyDead(RaceNext(w, Kill(c)).store, w.calls[c].family)
  {
    var f := w.calls[c].family;
    assert CallInv(w, w.calls[c]);
    assert FamilyInv(w.store, w.parent, f);
    RelinkKeepsFamily(w.store, RevokeFamily(w.store, f), w.parent, f);
  }

  lemma IssueLeavesDead(s: Store, id: TokenId, user: UserId, family: FamilyId, expiresAt: int, f: FamilyId)
    requires FamilyDead(s, f) && AllStored(s) && id !in s.tokens && family != f
    ensures FamilyDead(Issue(s, id, user, family, expiresAt), f)
  {
    FamilyAfterIssue(s, id, user, family, expiresAt, f);
  }

  lemma DeadStaysDeadInRaces(w: World, step: RaceStep, f: FamilyId)
    requires RaceInv(w) && FamilyDead(w.store, f) && !PendingRefresh(w, f)
    ensures FamilyDead(RaceNext(w, step).store, f)
  {
    if RaceNext(w, step).store != w.store {
      match step
      case LogIn(user, family, id, expiresAt) =>
        IssueLeavesDead(w.store, id, user, family, expiresAt, f);
      case IssueNew(c, n, expiresAt) =>
        var token := w.store.tokens[w.calls[c].t];
        IssueLeavesDead(w.store, n, token.user, token.family, expiresAt, f);
      case MarkOld(c) => RelinkKeepsFamilies(w.store, RaceNext(w, step).store, w.parent);
      case Kill(c) => RelinkKeepsFamilies(w.store, RaceNext(w, step).store, w.parent);
      case _ =>
    }
  }

  // Nobody can read a token of a dead family unrevoked.
  lemma DeadStaysUnread(w: World, step: RaceStep, f: FamilyId)
    requires RaceInv(w) && FamilyDead(w.store, f) && !PendingRefresh(w, f)
    ensures !PendingRefresh(RaceNext(w, step), f)
  {
    var w' := RaceNext(w, step);
    forall c | c in w'.calls && w'.calls[c].Refreshing? && w'.calls[c].t in w'.store.tokens
      ensures w'.store.tokens[w'.calls[c].t].family != f
    {
      if c in w.calls { assert CallInv(w, w.calls[c]); }
    }
  }

  lemma {:induction false} DeadForGood(w: World, later: seq<RaceStep>, f: FamilyId)
    requires RaceInv(w) && FamilyDead(w.store, f) && !PendingRefresh(w, f)
    ensures FamilyDead(RaceRun(w, later).store, f) && !PendingRefresh(RaceRun(w, later), f) && RaceInv(RaceRun(w, later))
    decreases |later|
  {
    if later != [] {
      DeadForGood(w, later[..|later| - 1], f);
      DeadStaysDeadInRaces(RaceRun(w, later[..|later| - 1]), later[|later| - 1], f);
      DeadStaysUnread(RaceRun(w, later[..|later| - 1]), later[|later| - 1], f);
      RaceStepKeepsInv(RaceRun(w, later[..|later| - 1]), later[|later| - 1]);
    }
  }

  lemma {:induction false} UnusedId(ids: set<TokenId>) returns (n: TokenId)
    ensures forall id :: id in ids ==> id < n
    decreases |ids|
  {
    n := 0;
    if ids != {} {
      var some :| some in ids;
      var m := UnusedId(ids - {some});
      n := if some < m then m else some + 1;
      forall id | id in ids ensures id < n {
        if id != some { assert id in ids - {some}; }
      }
    }
  }

  // The reuse of a revoked token kills its family for every continuation if and only if no
  // refresh that had read a token of it unrevoked is still to issue.
  lemma ReuseIsFinalExactly(steps: seq<RaceStep>, c: CallId, f: FamilyId)
    requires var w := RaceRun(NO_SESSIONS, steps);
             c in w.calls && w.calls[c] == Killing(f)
    ensures var w := RaceNext(RaceRun(NO_SESSIONS, steps), Kill(c));
            && FamilyDead(w.store, f)
            && ((forall later :: FamilyDead(RaceRun(w, later).store, f)) <==> !PendingRefresh(w, f))
  {
    var w0 := RaceRun(NO_SESSIONS, steps);
    var w := RaceNext(w0, Kill(c));
    RaceInvAlways(steps);
    KillRevokes(w0, c);
    RaceStepKeepsInv(w0, Kill(c));
    if PendingRefresh(w, f) {
      var revival := Revival(w, f);
      assert !FamilyDead(RaceRun(w, revival).store, f);
    } else {
      forall later ensures FamilyDead(RaceRun(w, later).store, f) {
        DeadForGood(w, later, f);
      }
    }
  }

  lemma Revival(w: World, f: FamilyId) returns (later: seq<RaceStep>)
    requires RaceInv(w) && PendingRefresh(w, f)
    ensures !FamilyDead(RaceRun(w, later).store, f)
  {
    var d :| d in w.calls && w.calls[d].Refreshing? && w.calls[d].t in w.store.tokens && w.store.tokens[w.calls[d].t].family == f;
    var n := UnusedId(w.store.tokens.Keys);
    assert n !in w.store.tokens.Keys;
    later := [IssueNew(d, n, 0)];
    assert later[..0] == [];
    assert RaceRun(w, later) == RaceNext(w, IssueNew(d, n, 0));
    assert n in RaceRun(w, later).store.tokens && !RaceRun(w, later).store.tokens[n].revoked;
  }

  // ---------------------------------------------------------------- calls left alone

  // A call whose steps nobody interrupts is the atomic call.
  lemma SoloRefresh(w: World, c: CallId, presented: TokenId, now: int, newId: TokenId, expiresAt: int)
    requires c !in w.calls && newId !in w.store.tokens
    requires presented in w.store.tokens && (w.store.tokens[presented].revoked || w.store.tokens[presented].expiresAt >= now)
    ensures var read := RaceNext(w, ReadForRefresh(c, presented));
            var done := if w.store.tokens[presented].revoked then RaceNext(read, Kill(c))
                        else RaceNext(RaceNext(read, IssueNew(c, newId, expiresAt)), MarkOld(c));
            done.store == AfterCall(w.store, Call.Refresh(presented, now, true, newId, expiresAt)) && done.calls == w.calls[c := Over]
  {
  }

  lemma SoloEnd(w: World, c: CallId, t: TokenId)
    requires c !in w.calls
    ensures RaceNext(RaceNext(w, ReadForEnd(c, t)), MarkOld(c)).store == AfterCall(w.store, Call.Logout(t))
  {
  }
}
