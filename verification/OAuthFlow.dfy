/**
 * What the server hands out works, and keeps working while other operations and restarts come in between: a
 * consent can be approved, its code exchanged, a new pair used and renewed (src/http/oauth.ts). With OAuthRuns
 * this makes each code and refresh token good for exactly one exchange.
 */
module OAuthFlow {
  import opened Basics
  import opened OAuthModel
  import opened OAuthInvariants
  import opened OAuthRuns
  import opened OAuthLasting
  import opened OAuthTables
  import opened OAuthConsent

  // ---------- A consent request ----------

  /** The request is listed, and nothing else under its id. */
  ghost predicate Listed(ps: seq<Pending>, p: Pending) {
    p in ps && forall q :: q in ps && q.id == p.id ==> q == p
  }

  ghost predicate ListedBy(w: World, p: Pending) {
    p.id < w.supply && Listed(w.mem.pending, p) && Listed(w.disk.pending, p)
  }

  /** Before the request expires, and unless the operation decides it, evicts it or clears everything. */
  predicate Leaves(c: Config, w: World, t: Timed, p: Pending) {
    && t.at < p.expiresAt
    && !(t.op.OpApprove? && t.op.id == p.id) && !(t.op.OpDeny? && t.op.id == p.id) && !t.op.OpRevokeAll?
    && (t.op.OpAuthorize? ==> p in MakeRoom(c.limits, Prune(w.mem, t.at).pending, t.op.requester))
  }

  lemma {:induction false} UnexpiredListed(ps: seq<Pending>, p: Pending, now: int)
    requires Listed(ps, p) && p.expiresAt > now
    ensures Listed(Unexpired(ps, now), p)
  {
    UnexpiredSubset(ps, now);
    var init, last := ps[..|ps| - 1], ps[|ps| - 1];
    if p in init {
      UnexpiredListed(init, p, now);
    }
  }

  lemma FewerListed(ps: seq<Pending>, rest: seq<Pending>, p: Pending)
    requires Listed(ps, p) && p in rest && forall q :: q in rest ==> q in ps
    ensures Listed(rest, p)
  {
  }

  lemma WithoutListed(ps: seq<Pending>, id: Id, p: Pending)
    requires Listed(ps, p) && id != p.id
    ensures Listed(WithoutPending(ps, id), p)
  {
    WithoutPendingSubset(ps, id);
    var i := FindPending(ps, id);
    if i < |ps| {
      RemovedOnly(ps, i, p);
    }
    FewerListed(ps, WithoutPending(ps, id), p);
  }

  lemma {:induction false} ListedFound(ps: seq<Pending>, p: Pending)
    requires Listed(ps, p)
    ensures FindPending(ps, p.id) < |ps| && ps[FindPending(ps, p.id)] == p
  {
    if ps[0] != p {
      ListedFound(ps[1..], p);
    }
  }

  lemma PrunedListed(s: Store, p: Pending, now: int)
    requires Listed(s.pending, p) && p.expiresAt > now
    ensures Listed(Prune(s, now).pending, p)
  {
    UnexpiredListed(s.pending, p, now);
  }

  lemma RoomListed(c: Config, ps: seq<Pending>, requester: nat, p: Pending, next: Pending)
    requires Listed(ps, p) && p in MakeRoom(c.limits, ps, requester) && next.id > p.id
    ensures Listed(MakeRoom(c.limits, ps, requester) + [next], p)
  {
    hide MakeRoom;
    MakeRoomSubset(c.limits, ps, requester);
  }

  /** Neither adds nor removes a request, unless it has expired. */
  ghost predicate LeavesPending(w: World, now: int, r: World) {
    && (r.mem.pending == w.mem.pending || r.mem.pending == Prune(w.mem, now).pending)
    && (r.disk == w.disk || r.disk == r.mem) && r.supply >= w.supply
  }

  lemma IssuePending(w: World, now: int, ok: bool, g: Id, clientId: Id, scopes: set<Scope>, code: Option<Id>)
    ensures LeavesPending(w, now, Issue(w, now, ok, g, clientId, scopes, code).0)
  {
    hide Prune;
  }

  lemma RevokePending(w: World, now: int, ok: bool, g: Id, next: Answer)
    ensures LeavesPending(w, now, Revoke(w, ok, g, next).0)
  {
    hide Prune;
  }

  lemma RegisterPending(c: Config, w: World, t: Timed)
    requires t.op.OpRegister?
    ensures LeavesPending(w, t.at, Step(c, w, t).0)
  {
    hide Prune, DropStale, OldestIdle, InUse;
  }

  lemma ExchangePending(c: Config, w: World, t: Timed)
    requires t.op.OpExchangeCode? || t.op.OpExchangeRefresh?
    ensures LeavesPending(w, t.at, Step(c, w, t).0)
  {
    hide Prune, Issue, Revoke, LeavesPending;
    SameLeaves(w, t.at);
    match t.op
    case OpExchangeCode(_, code, _, _) =>
      if code in w.mem.codes {
        var g := w.mem.codes[code].grantId;
        RevokePending(w, t.at, t.ok, g, Failed(InvalidGrant));
        if g in w.mem.grants {
          IssuePending(w, t.at, t.ok, g, w.mem.grants[g].clientId, w.mem.grants[g].scopes, Some(code));
        }
      }
    case OpExchangeRefresh(client, token, scopes, _) =>
      if token.Signed? && token.id in w.mem.refresh {
        RevokePending(w, t.at, t.ok, token.id, Failed(InvalidGrant));
        var selected := if scopes.Some? then scopes.value else w.mem.refresh[token.id].scopes;
        IssuePending(w, t.at, t.ok, token.id, client, selected, None);
      }
  }

  lemma SameLeaves(w: World, now: int)
    ensures LeavesPending(w, now, w)
  {
  }

  lemma OtherPending(c: Config, w: World, t: Timed)
    requires !t.op.OpAuthorize? && !t.op.OpApprove? && !t.op.OpDeny? && !t.op.OpRevokeAll? && !t.op.OpRestart?
    ensures LeavesPending(w, t.at, Step(c, w, t).0)
  {
    match t.op
    case OpRegister(_) => RegisterPending(c, w, t);
    case OpExchangeCode(_, _, _, _) => ExchangePending(c, w, t);
    case OpExchangeRefresh(_, _, _, _) => ExchangePending(c, w, t);
    case OpListGrants =>
    case _ =>
      hide Prune, LiveGrant, Revoke, LeavesPending;
      forall g, next {
        RevokePending(w, t.at, t.ok, g, next);
      }
      SameLeaves(w, t.at);
  }

  lemma StepListed(c: Config, w: World, t: Timed, p: Pending)
    requires ListedBy(w, p) && Leaves(c, w, t, p)
    ensures ListedBy(Step(c, w, t).0, p)
  {
    hide Prune, MakeRoom, WithoutPending, Listed, PendingRequest;
    PrunedListed(w.mem, p, t.at);
    var s := Prune(w.mem, t.at);
    match t.op
    case OpAuthorize(client, _, uri, challenge, scopes, requester) =>
      if challenge.Some? {
        var asked := if scopes.Some? then scopes.value else c.scopes;
        var next := Pending(w.supply, client.id, asked, uri, challenge.value, t.at + 10 * 60_000, requester);
        RoomListed(c, s.pending, requester, p, next);
      }
    case OpApprove(id, _, _) => WithoutListed(s.pending, id, p);
    case OpDeny(id) => WithoutListed(w.mem.pending, id, p);
    case OpRestart =>
    case _ => OtherPending(c, w, t);
  }

  lemma {:induction false} RunListed(c: Config, w: World, run: seq<Timed>, p: Pending)
    requires ListedBy(w, p)
    requires forall i :: 0 <= i < |run| ==> Leaves(c, After(c, w, run[..i]), run[i], p)
    ensures ListedBy(After(c, w, run), p)
    decreases |run|
  {
    hide Step, ListedBy, Leaves;
    if run != [] {
      var n := |run| - 1;
      forall i | 0 <= i < n ensures Leaves(c, After(c, w, run[..n][..i]), run[..n][i], p) {
        assert run[..n][..i] == run[..i];
      }
      RunListed(c, w, run[..n], p);
      StepListed(c, After(c, w, run[..n]), run[n], p);
    }
  }

  lemma RoomBelow(c: Config, s: Store, requester: nat, n: nat)
    requires Sound(c, s, n)
    ensures forall i :: 0 <= i < |MakeRoom(c.limits, s.pending, requester)| ==>
              MakeRoom(c.limits, s.pending, requester)[i].id < n
  {
    hide MakeRoom, Linked;
    MakeRoomSubset(c.limits, s.pending, requester);
    var room := MakeRoom(c.limits, s.pending, requester);
    forall i | 0 <= i < |room| ensures room[i].id < n {
      assert room[i] in s.pending;
    }
  }

  /** The request an authorization adds. */
  function Requested(c: Config, w: World, t: Timed): Pending
    requires t.op.OpAuthorize? && t.op.challenge.Some?
  {
    Pending(w.supply, t.op.client.id, if t.op.scopes.Some? then t.op.scopes.value else c.scopes, t.op.redirectUri,
            t.op.challenge.value, t.at + 10 * 60_000, t.op.requester)
  }

  lemma AuthorizedIsListed(c: Config, w: World, t: Timed)
    requires Inv(c, w) && t.op.OpAuthorize? && Step(c, w, t).1.Consent?
    ensures t.op.challenge.Some? && Requested(c, w, t).scopes != {}
    ensures Step(c, w, t).1.id == w.supply && ListedBy(Step(c, w, t).0, Requested(c, w, t))
  {
    hide Sound, Prune, MakeRoom, Agree, Evolves;
    var s := Prune(w.mem, t.at);
    PruneKeeps(c, w.mem, t.at, w.supply);
    RoomBelow(c, s, t.op.requester, w.supply);
    var room := MakeRoom(c.limits, s.pending, t.op.requester);
    assert forall q :: q in room ==> q.id < w.supply;
  }

  /** A consent request is found for ten minutes, as it was made, until it is decided or makes room for another. */
  lemma ConsentIsPending(c: Config, w: World, t: Timed, run: seq<Timed>, now: int)
    requires Inv(c, w) && t.op.OpAuthorize? && Step(c, w, t).1.Consent? && now < t.at + 10 * 60_000
    requires t.op.challenge.Some?
    requires forall i :: 0 <= i < |run| ==> Leaves(c, After(c, Step(c, w, t).0, run[..i]), run[i], Requested(c, w, t))
    ensures PendingRequest(After(c, Step(c, w, t).0, run).mem, now, Step(c, w, t).1.id) == Some(Requested(c, w, t))
  {
    hide Inv, Step, Leaves;
    AuthorizedIsListed(c, w, t);
    var p, r := Requested(c, w, t), Step(c, w, t).0;
    RunListed(c, r, run, p);
    ListedFound(After(c, r, run).mem.pending, p);
  }

  /** And it can be approved as a whole, for any children, once the write succeeds and there is room for a grant. */
  lemma ConsentWorks(c: Config, w: World, t: Timed, run: seq<Timed>, next: Timed)
    requires Inv(c, w) && t.op.OpAuthorize? && Step(c, w, t).1.Consent? && t.op.challenge.Some?
    requires forall i :: 0 <= i < |run| ==> Leaves(c, After(c, Step(c, w, t).0, run[..i]), run[i], Requested(c, w, t))
    requires next.op.OpApprove? && next.op.id == Step(c, w, t).1.id && next.op.scopes.None? && next.op.childIds != {}
    requires forall child :: child in next.op.childIds ==> 0 < child <= MAX_SAFE_INTEGER
    requires next.ok && next.at < t.at + 10 * 60_000
    requires |Prune(After(c, Step(c, w, t).0, run).mem, next.at).grants| < MAX_GRANTS
    ensures Step(c, After(c, Step(c, w, t).0, run), next).1.Redirected?
  {
    hide Inv, Step, PendingRequest, Leaves;
    ConsentIsPending(c, w, t, run, next.at);
    AuthorizedIsListed(c, w, t);
    ApprovedAsAWhole(c, After(c, Step(c, w, t).0, run), next);
  }

  lemma ApprovedAsAWhole(c: Config, w: World, t: Timed)
    requires t.op.OpApprove? && t.op.scopes.None? && t.op.childIds != {} && t.ok
    requires forall child :: child in t.op.childIds ==> 0 < child <= MAX_SAFE_INTEGER
    requires PendingRequest(w.mem, t.at, t.op.id).Some? && PendingRequest(w.mem, t.at, t.op.id).value.scopes != {}
    requires |Prune(w.mem, t.at).grants| < MAX_GRANTS
    ensures Step(c, w, t).1.Redirected?
  {
    hide Prune, PendingRequest, Granted;
  }

  // ---------- An authorization code ----------

  lemma ApproveDates(c: Config, w: World, t: Timed)
    requires t.op.OpApprove? && Step(c, w, t).1.Redirected?
    ensures var r := Step(c, w, t).0;
            w.supply in r.mem.grants && r.mem.grants[w.supply].resourceUrl == c.resourceUrl
            && r.mem.grants[w.supply].expiresAt == t.at + 30 * DAY
            && Step(c, w, t).1.code in r.mem.codes && r.mem.codes[Step(c, w, t).1.code].grantId == w.supply
  {
    hide Prune, PendingRequest, WithoutPending;
  }

  lemma FreshCodeIssues(c: Config, w: World, t: Timed, entry: Code)
    requires t.op.OpExchangeCode? && t.op.code in w.mem.codes && w.mem.codes[t.op.code] == entry && !entry.used
    requires LiveGrant(c, w.mem, t.at, entry.grantId) && t.at < entry.expiresAt && t.op.resource == c.resourceUrl
    requires t.ok && |Prune(w.mem, t.at).tokens| < MAX_TOKENS
    ensures t.op.clientId == entry.clientId && t.op.sentTo == Some(entry.redirectUri) ==>
              Step(c, w, t).1.Issued? && Step(c, w, t).1.scopes == w.mem.grants[entry.grantId].scopes
  {
    hide Prune, WithTokens;
  }

  /** The code of an approval is exchanged for the grant's scopes by the request's client within a minute, unless
      that client has exchanged it already or the grant is gone, once the write succeeds and the token table has
      room. */
  lemma CodeWorks(c: Config, w: World, t: Timed, run: seq<Timed>, next: Timed)
    requires Inv(c, w) && t.op.OpApprove? && Step(c, w, t).1.Redirected?
    requires Step(c, w, t).1.code in Step(c, w, t).0.mem.codes
    requires var r, code := Step(c, w, t).0, Step(c, w, t).1.code;
             forall i :: 0 <= i < |run| ==> Spares(run[i], code, r.mem.codes[code])
    requires next.op.OpExchangeCode? && next.op.code == Step(c, w, t).1.code && next.op.resource == c.resourceUrl
    requires next.ok && next.at < t.at + 60_000 && |Prune(After(c, Step(c, w, t).0, run).mem, next.at).tokens| < MAX_TOKENS
    ensures PendingRequest(w.mem, t.at, t.op.id).Some?
    ensures var r, request := Step(c, w, t).0, PendingRequest(w.mem, t.at, t.op.id).value;
            var y, g := After(c, r, run), r.mem.codes[Step(c, w, t).1.code].grantId;
            g in r.mem.grants
            && (g in y.mem.grants && next.op.clientId == request.clientId && next.op.sentTo == Some(request.redirectUri) ==>
                  && Step(c, y, next).1.Issued? && Step(c, y, next).1.scopes == r.mem.grants[g].scopes)
  {
    hide Inv, Prune, PendingRequest, Step, WithoutPending, RememberedBy, GrantBy, Spares;
    var g := ApproveNarrows(c, w, t);
    ApproveDates(c, w, t);
    StepInv(c, w, t);
    var r, code := Step(c, w, t).0, Step(c, w, t).1.code;
    var entry := r.mem.codes[code];
    RememberedOf(c, r, code);
    RunRemembers(c, r, run, code, entry);
    GrantOf(c, r, g);
    RunGrantIs(c, r, run, g, r.mem.grants[g]);
    var y := After(c, r, run);
    if g in y.mem.grants {
      RememberedByMem(y, code, entry);
      GrantByMem(y, g, r.mem.grants[g]);
      FreshCodeIssues(c, y, next, entry);
    }
  }

  // ---------- A pair of tokens ----------

  lemma IssuedKeepsGrants(c: Config, w: World, t: Timed, ch: Change)
    requires IssuedBy(c, w, t, Step(c, w, t).0, ch)
    ensures ch.grantId in Step(c, w, t).0.mem.grants && Step(c, w, t).0.mem.grants[ch.grantId].clientId == ch.clientId
    ensures var access := w.supply + 1;
            access in Step(c, w, t).0.mem.tokens
            && Step(c, w, t).0.mem.tokens[access] == Token(ch.clientId, ch.grantId, ch.scopes, t.at + 5 * 60_000)
            && Step(c, w, t).0.supply == w.supply + 2
  {
    hide Step, Prune;
    PruneAt(w, t.at);
  }

  lemma TokenIssued(c: Config, w: World, t: Timed, ch: Change)
    requires Inv(c, Step(c, w, t).0) && IssuedBy(c, w, t, Step(c, w, t).0, ch)
    ensures TokenBy(Step(c, w, t).0, w.supply + 1, Token(ch.clientId, ch.grantId, ch.scopes, t.at + 5 * 60_000))
  {
    hide Step, Prune, Linked;
    IssuedKeepsGrants(c, w, t, ch);
  }

  /** An access token is accepted for five minutes while its grant lives, for its client and scopes, whatever
      else happens. */
  lemma NewAccessWorks(c: Config, w: World, t: Timed, run: seq<Timed>, now: int)
    requires Inv(c, w) && Step(c, w, t).1.Issued? && now < t.at + 5 * 60_000
    requires forall i :: 0 <= i < |run| ==> run[i].at < t.at + 5 * 60_000
    ensures Step(c, w, t).1.refresh.Signed?
    ensures var (y, a) := (After(c, Step(c, w, t).0, run), Step(c, w, t).1);
            LiveGrant(c, y.mem, now, a.refresh.id) ==>
              Verify(c, y, now, a.access).1 == Verified(y.mem.grants[a.refresh.id].clientId, a.refresh.id, a.scopes)
  {
    hide Inv, Step, Prune, Linked, GrantBy, TokenBy;
    var ch := StepChanges(c, w, t);
    IssuedKeepsGrants(c, w, t, ch);
    StepInv(c, w, t);
    var r, a := Step(c, w, t).0, Step(c, w, t).1;
    var token := Token(ch.clientId, ch.grantId, ch.scopes, t.at + 5 * 60_000);
    GrantOf(c, r, ch.grantId);
    assert TokenBy(r, a.access, token) by {
      TokenIssued(c, w, t, ch);
    }
    RunHolds(c, r, run, a.access, token);
    RunGrantIs(c, r, run, ch.grantId, r.mem.grants[ch.grantId]);
    var y := After(c, r, run);
    if ch.grantId in y.mem.grants {
      TokenByMem(y, a.access, token);
      GrantByMem(y, ch.grantId, r.mem.grants[ch.grantId]);
    }
  }

  lemma IssueHandsReadable(c: Config, w: World, t: Timed, ch: Change)
    requires IssuedBy(c, w, t, Step(c, w, t).0, ch) && Hands(Step(c, w, t).1, Step(c, w, t).0, ch)
    ensures var (r, a) := Step(c, w, t);
            && a.refresh.Signed? && a.refresh.id in r.mem.refresh
            && r.mem.refresh[a.refresh.id].counter == a.refresh.counter >= 1 && r.mem.refresh[a.refresh.id].scopes == a.scopes
            && a.refresh.mac == Mac(a.refresh.id, a.refresh.counter, r.mem.refresh[a.refresh.id].key)
  {
    hide Step, Prune;
  }

  lemma GrantScopes(c: Config, w: World)
    requires Inv(c, w)
    ensures forall g :: g in w.mem.grants ==> w.mem.grants[g].scopes != {}
  {
  }

  lemma IssuedScopes(c: Config, w: World, t: Timed)
    requires Inv(c, w) && Step(c, w, t).1.Issued?
    ensures Step(c, w, t).1.scopes != {}
  {
    hide Inv, Prune, WithTokens, Register, Authorize, Approve, Deny, Challenge, Verify, RevokeToken, RevokeAll, IssuedBy, Hands;
    var ch := StepChanges(c, w, t);
    GrantScopes(c, w);
  }

  /** A refresh token redeems while its grant lives, for the same scopes, until its client presents one. */
  lemma NewRefreshWorks(c: Config, w: World, t: Timed, run: seq<Timed>, next: Timed)
    requires Inv(c, w) && Step(c, w, t).1.Issued? && Step(c, w, t).1.refresh.Signed?
    requires NotPresented(c, Step(c, w, t).0, run, Step(c, w, t).1.refresh.id)
    requires next.op.OpExchangeRefresh? && next.op.token == Step(c, w, t).1.refresh && next.op.scopes.None?
    requires next.op.resource == c.resourceUrl && next.ok
    requires |Prune(After(c, Step(c, w, t).0, run).mem, next.at).tokens| < MAX_TOKENS
    ensures var (y, a) := (After(c, Step(c, w, t).0, run), Step(c, w, t).1);
            LiveGrant(c, y.mem, next.at, a.refresh.id) && y.mem.grants[a.refresh.id].clientId == next.op.clientId
            && a.refresh.counter <= MAX_SAFE_INTEGER ==>
              Step(c, y, next).1.Issued? && Step(c, y, next).1.scopes == a.scopes
  {
    hide Inv, Prune, RotationBy, NotPresented, ExchangeCode, Register, Authorize, Approve, Deny, Challenge, Verify,
         RevokeToken, RevokeAll;
    var ch := StepChanges(c, w, t);
    IssueHandsReadable(c, w, t, ch);
    IssuedScopes(c, w, t);
    StepInv(c, w, t);
    var r, g := Step(c, w, t).0, Step(c, w, t).1.refresh.id;
    RotationOf(c, r, g);
    RunRotation(c, r, run, g, r.mem.refresh[g]);
    var y := After(c, r, run);
    if g in y.mem.grants {
      RotationByMem(y, g, r.mem.refresh[g]);
    }
  }
}
