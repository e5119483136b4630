/** What ends a grant or a request, exactly, and how many of each there can be (src/http/oauth.ts). */
module OAuthEndings {
  import opened Basics
  import opened OAuthModel
  import opened OAuthInvariants
  import opened OAuthRuns
  import opened OAuthLasting
  import opened OAuthReplay
  import opened OAuthTables
  import opened OAuthFlow
  import opened OAuthOrigins

  // ---------- Grants ----------

  /** The operation withdraws grant `g`: the owner does, its client revokes a token of it, or its client presents
      something spent. */
  ghost predicate Withdraws(c: Config, w: World, t: Timed, g: Id) {
    || (t.op.OpRevokeGrant? && t.op.id == g)
    || t.op.OpRevokeAll?
    || (t.op.OpRevokeToken? && t.op.presented.Access? && t.op.presented.token in w.mem.tokens
        && w.mem.tokens[t.op.presented.token].grantId == g && w.mem.tokens[t.op.presented.token].clientId == t.op.clientId)
    || (t.op.OpRevokeToken? && t.op.presented.Refreshing? && t.op.presented.refresh.Signed? && t.op.presented.refresh.id == g
        && Readable(w.mem, t.op.presented.refresh) && g in w.mem.grants && w.mem.grants[g].clientId == t.op.clientId)
    || RefreshReplayed(c, w, t, g)
    || CodeReplayed(c, w, t, g)
  }

  /** A grant ends when it is withdrawn, or has expired: nothing else ends it, and a withdrawal leaves nothing of it. */
  lemma GrantEndsExactly(c: Config, w: World, t: Timed, g: Id)
    requires Inv(c, w) && g in w.mem.grants && !t.op.OpRestart?
    ensures var r := Step(c, w, t).0;
            && (Withdraws(c, w, t, g) ==> NothingOf(r.mem, g) && r.disk == if t.ok then r.mem else w.disk)
            && (g !in r.mem.grants ==> Withdraws(c, w, t, g) || w.mem.grants[g].expiresAt <= t.at)
  {
    hide Step, Withdraws, NothingOf;
    if Withdraws(c, w, t, g) {
      WithdrawnNow(c, w, t, g);
    } else {
      match t.op {
        case OpExchangeCode(_, _, _, _) => ExchangeSpares(c, w, t, g);
        case OpExchangeRefresh(_, _, _, _) => ExchangeSpares(c, w, t, g);
        case OpRegister(_) => RegisterSpares(c, w, t, g);
        case OpAuthorize(_, _, _, _, _, _) => AuthorizeSpares(c, w, t, g);
        case OpApprove(_, _, _) => ApproveSpares(c, w, t, g);
        case _ => OtherSpares(c, w, t, g);
      }
    }
  }

  /** The grant is there, or has expired. */
  predicate Spared(s: Store, r: Store, now: int, g: Id) {
    g in s.grants && s.grants[g].expiresAt > now ==> g in r.grants
  }

  lemma PruneSpares(s: Store, now: int, g: Id)
    ensures Spared(s, Prune(s, now), now, g)
  {
  }

  lemma IssueSpares(w: World, now: int, ok: bool, h: Id, clientId: Id, scopes: set<Scope>, code: Option<Id>, g: Id)
    ensures Spared(w.mem, Issue(w, now, ok, h, clientId, scopes, code).0.mem, now, g)
  {
    hide Prune;
    PruneSpares(w.mem, now, g);
  }

  lemma RevokeSpares(w: World, now: int, ok: bool, h: Id, next: Answer, g: Id)
    requires h != g
    ensures Spared(w.mem, Revoke(w, ok, h, next).0.mem, now, g)
  {
  }

  lemma ExchangeSpares(c: Config, w: World, t: Timed, g: Id)
    requires (t.op.OpExchangeCode? || t.op.OpExchangeRefresh?) && !Withdraws(c, w, t, g)
    ensures Spared(w.mem, Step(c, w, t).0.mem, t.at, g)
  {
    hide Issue, Revoke;
    match t.op
    case OpExchangeCode(_, code, _, _) =>
      if code in w.mem.codes {
        var h := w.mem.codes[code].grantId;
        if h != g {
          RevokeSpares(w, t.at, t.ok, h, Failed(InvalidGrant), g);
        }
        if h in w.mem.grants {
          IssueSpares(w, t.at, t.ok, h, w.mem.grants[h].clientId, w.mem.grants[h].scopes, Some(code), g);
        }
      }
    case OpExchangeRefresh(client, token, scopes, _) =>
      if token.Signed? && token.id in w.mem.refresh {
        if token.id != g {
          RevokeSpares(w, t.at, t.ok, token.id, Failed(InvalidGrant), g);
        }
        IssueSpares(w, t.at, t.ok, token.id, client, if scopes.Some? then scopes.value else w.mem.refresh[token.id].scopes, None, g);
      }
  }

  lemma RegisterSpares(c: Config, w: World, t: Timed, g: Id)
    requires t.op.OpRegister?
    ensures Spared(w.mem, Step(c, w, t).0.mem, t.at, g)
  {
    hide Prune, DropStale, OldestIdle, InUse;
    PruneSpares(w.mem, t.at, g);
  }

  lemma AuthorizeSpares(c: Config, w: World, t: Timed, g: Id)
    requires t.op.OpAuthorize?
    ensures Spared(w.mem, Step(c, w, t).0.mem, t.at, g)
  {
    hide Prune, MakeRoom;
    PruneSpares(w.mem, t.at, g);
  }

  lemma ApproveSpares(c: Config, w: World, t: Timed, g: Id)
    requires t.op.OpApprove?
    ensures Spared(w.mem, Step(c, w, t).0.mem, t.at, g)
  {
    hide Prune, PendingRequest, WithoutPending;
    PruneSpares(w.mem, t.at, g);
  }

  lemma OtherSpares(c: Config, w: World, t: Timed, g: Id)
    requires t.op.OpDeny? || t.op.OpChallenge? || t.op.OpVerify? || t.op.OpRevokeToken? || t.op.OpRevokeGrant?
             || t.op.OpRevokeAll? || t.op.OpListGrants?
    requires !Withdraws(c, w, t, g)
    ensures Spared(w.mem, Step(c, w, t).0.mem, t.at, g)
  {
    hide Prune, PendingRequest, WithoutPending;
    PruneSpares(w.mem, t.at, g);
  }

  lemma WithdrawnNow(c: Config, w: World, t: Timed, g: Id)
    requires Inv(c, w) && g in w.mem.grants && Withdraws(c, w, t, g)
    ensures var r := Step(c, w, t).0; NothingOf(r.mem, g) && r.disk == if t.ok then r.mem else w.disk
  {
    hide Inv, RefreshReplayed, CodeReplayed;
    if RefreshReplayed(c, w, t, g) || CodeReplayed(c, w, t, g) {
      ReplayWithdraws(c, w, t, g);
    }
  }

  // ---------- Requests ----------

  /** A denied request is gone, alone; one that is not there or has expired is refused, and nothing changes. */
  lemma DenyExactly(c: Config, w: World, t: Timed, p: Pending)
    requires t.op.OpDeny? && t.op.id == p.id && p in w.mem.pending && InOrder(w.mem.pending)
    ensures var (r, a) := Step(c, w, t);
            if t.at >= p.expiresAt then a == Failed(InvalidGrant) && r == w
            else
              && a == (if t.ok then Done else Failed(WriteFailed)) && r.disk == (if t.ok then r.mem else w.disk)
              && r.mem == w.mem.(pending := r.mem.pending)
              && (forall q :: q in r.mem.pending <==> q in w.mem.pending && q.id != p.id)
  {
    hide WithoutPending;
    OrderedOnce(w.mem.pending, p);
    ListedFound(w.mem.pending, p);
    WithoutIs(w.mem.pending, p);
  }

  lemma OrderedOnce(ps: seq<Pending>, p: Pending)
    requires p in ps && InOrder(ps)
    ensures Listed(ps, p)
  {
  }

  lemma WithoutIs(ps: seq<Pending>, p: Pending)
    requires p in ps && InOrder(ps)
    ensures forall q :: q in WithoutPending(ps, p.id) <==> q in ps && q.id != p.id
  {
    OrderedOnce(ps, p);
    ListedFound(ps, p);
    WithoutPendingSubset(ps, p.id);
    var i := FindPending(ps, p.id);
    forall q | q in ps && q.id != p.id ensures q in WithoutPending(ps, p.id) {
      RemovedOnly(ps, i, q);
    }
    assert forall j :: 0 <= j < |ps| && j != i ==> ps[j].id != ps[i].id;
  }

  // ---------- In order of arrival ----------

  /** Requests stand in the order in which they were made. */
  ghost predicate InOrder(ps: seq<Pending>) {
    forall i, j :: 0 <= i < j < |ps| ==> ps[i].id < ps[j].id
  }

  ghost predicate Ordered(w: World) {
    && InOrder(w.mem.pending) && InOrder(w.disk.pending)
  }

  lemma {:induction false} UnexpiredInOrder(ps: seq<Pending>, now: int)
    requires InOrder(ps)
    ensures InOrder(Unexpired(ps, now))
  {
    if ps != [] {
      var init := ps[..|ps| - 1];
      UnexpiredInOrder(init, now);
      UnexpiredSubset(init, now);
      var rest := Unexpired(init, now);
      assert forall i :: 0 <= i < |rest| ==> rest[i] in init;
    }
  }

  lemma RemovedInOrder(ps: seq<Pending>, i: nat)
    requires InOrder(ps) && i < |ps|
    ensures InOrder(RemoveAt(ps, i))
  {
    assert forall j :: 0 <= j < |ps| - 1 ==> RemoveAt(ps, i)[j] == ps[if j < i then j else j + 1];
  }

  lemma RoomInOrder(c: Config, ps: seq<Pending>, requester: nat, p: Pending)
    requires InOrder(ps) && forall q :: q in ps ==> q.id < p.id
    ensures InOrder(MakeRoom(c.limits, ps, requester) + [p])
  {
    var i := Evicted(c.limits, ps, requester);
    if i < |ps| {
      RemovedInOrder(ps, i);
    }
    MakeRoomSubset(c.limits, ps, requester);
    var room := MakeRoom(c.limits, ps, requester);
    assert forall j :: 0 <= j < |room| ==> room[j] in room;
  }

  lemma WithoutInOrder(ps: seq<Pending>, id: Id)
    requires InOrder(ps)
    ensures InOrder(WithoutPending(ps, id))
  {
    var i := FindPending(ps, id);
    if i < |ps| {
      RemovedInOrder(ps, i);
    }
  }

  lemma AuthorizeOrdered(c: Config, w: World, t: Timed)
    requires Inv(c, w) && InOrder(w.mem.pending) && t.op.OpAuthorize?
    ensures InOrder(Step(c, w, t).0.mem.pending)
  {
    hide InOrder, Prune, MakeRoom, Agree, Evolves, Linked;
    UnexpiredInOrder(w.mem.pending, t.at);
    PrunedPending(w.mem, t.at);
    PruneKeeps(c, w.mem, t.at, w.supply);
    var s := Prune(w.mem, t.at);
    if t.op.challenge.Some? {
      assert forall q :: q in s.pending ==> q.id < w.supply;
      RoomInOrder(c, s.pending, t.op.requester, Requested(c, w, t));
    }
  }

  lemma StepOrdered(c: Config, w: World, t: Timed)
    requires Inv(c, w) && Ordered(w)
    ensures Ordered(Step(c, w, t).0)
  {
    hide InOrder, Prune, MakeRoom, WithoutPending, PendingRequest, Inv, Authorize;
    UnexpiredInOrder(w.mem.pending, t.at);
    PrunedPending(w.mem, t.at);
    DiskIs(c, w, t);
    match t.op
    case OpAuthorize(_, _, _, _, _, _) => AuthorizeOrdered(c, w, t);
    case OpApprove(id, _, _) => WithoutInOrder(Prune(w.mem, t.at).pending, id);
    case OpDeny(id) => WithoutInOrder(w.mem.pending, id);
    case OpRestart =>
    case OpRevokeAll => NothingInOrder();
    case _ => OtherPending(c, w, t);
  }

  lemma NothingInOrder()
    ensures InOrder([])
  {
  }

  /** Over every run the requests stand in order of arrival, each id once: the first of a caller's is its oldest. */
  lemma {:induction false} RunOrdered(c: Config, w: World, run: seq<Timed>)
    requires Inv(c, w) && Ordered(w)
    ensures Ordered(After(c, w, run))
    ensures forall p :: p in After(c, w, run).mem.pending ==> Listed(After(c, w, run).mem.pending, p)
    decreases |run|
  {
    hide Inv, Step, Ordered;
    if run != [] {
      var n := |run| - 1;
      RunOrdered(c, w, run[..n]);
      RunInv(c, w, run[..n]);
      StepOrdered(c, After(c, w, run[..n]), run[n]);
    }
    OrderedListed(After(c, w, run));
  }

  lemma OrderedListed(w: World)
    requires Ordered(w)
    ensures forall p :: p in w.mem.pending ==> Listed(w.mem.pending, p)
  {
  }

  // ---------- How many ----------

  ghost predicate Sized(s: Store) {
    |s.grants| <= 64 && |s.tokens| <= 8192
  }

  lemma {:induction false} FewerKeys(a: set<Id>, b: set<Id>)
    requires a <= b
    ensures |a| <= |b|
  {
    if a != {} {
      var x :| x in a;
      FewerKeys(a - {x}, b - {x});
    }
  }

  lemma NoneNewSized(s: Store, r: Store, a: Answer)
    requires Sized(s) && NoneNew(s, r, a) && !a.Issued?
    ensures Sized(r)
  {
    FewerKeys(r.grants.Keys, s.grants.Keys);
    FewerKeys(r.tokens.Keys, s.tokens.Keys);
  }

  lemma PruneSized(s: Store, now: int)
    requires Sized(s)
    ensures Sized(Prune(s, now))
  {
    hide Prune;
    PruneNoneNew(s, now, Done);
    NoneNewSized(s, Prune(s, now), Done);
  }

  lemma ApproveSized(c: Config, w: World, t: Timed)
    requires Sized(w.mem) && t.op.OpApprove?
    ensures Sized(Step(c, w, t).0.mem)
  {
    hide Prune, PendingRequest, WithoutPending;
    PruneSized(w.mem, t.at);
  }

  lemma IssueSized(w: World, now: int, ok: bool, g: Id, clientId: Id, scopes: set<Scope>, code: Option<Id>)
    requires Sized(w.mem)
    ensures Sized(Issue(w, now, ok, g, clientId, scopes, code).0.mem)
  {
    hide Prune;
    PruneSized(w.mem, now);
  }

  lemma IssuedSized(c: Config, w: World, t: Timed)
    requires Sized(w.mem) && Step(c, w, t).1.Issued? && (t.op.OpExchangeCode? || t.op.OpExchangeRefresh?)
    ensures Sized(Step(c, w, t).0.mem)
  {
    hide Issue, Sized;
    forall g, client, scopes, code {
      IssueSized(w, t.at, t.ok, g, client, scopes, code);
    }
  }

  lemma StepSized(c: Config, w: World, t: Timed)
    requires Inv(c, w) && Sized(w.mem) && Sized(w.disk)
    ensures Sized(Step(c, w, t).0.mem) && Sized(Step(c, w, t).0.disk)
  {
    hide Inv, Step, Sized, NoneNew;
    DiskIs(c, w, t);
    if t.op.OpRestart? {
      RestartIs(c, w, t);
    } else if t.op.OpApprove? {
      ApproveSized(c, w, t);
    } else if Step(c, w, t).1.Issued? {
      IssueAdds(c, w, t);
      IssuedSized(c, w, t);
    } else {
      OthersNoneNew(c, w, t);
      NoneNewSized(w.mem, Step(c, w, t).0.mem, Step(c, w, t).1);
    }
  }

  /** Over every run there are never more than 64 grants and 8192 access tokens. */
  lemma {:induction false} RunSized(c: Config, w: World, run: seq<Timed>)
    requires Inv(c, w) && Sized(w.mem) && Sized(w.disk)
    ensures Sized(After(c, w, run).mem) && Sized(After(c, w, run).disk)
    decreases |run|
  {
    hide Inv, Step, Sized;
    if run != [] {
      var n := |run| - 1;
      RunSized(c, w, run[..n]);
      RunInv(c, w, run[..n]);
      StepSized(c, After(c, w, run[..n]), run[n]);
    }
  }

  lemma StartOrderedAndSized()
    ensures Ordered(Start()) && Sized(Start().mem) && Sized(Start().disk)
  {
  }
}
