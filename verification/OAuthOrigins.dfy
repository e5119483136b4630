/**
 * Where everything the server holds or accepts comes from, over every run from an empty server, failing writes and
 * restarts included: each client from a registration, each request from an authorization, each grant and code from a
 * consent, each token from an issue (src/http/oauth.ts).
 */
module OAuthOrigins {
  import opened Basics
  import opened OAuthModel
  import opened OAuthInvariants
  import opened OAuthRuns
  import opened OAuthLasting
  import opened OAuthFlow

  // ---------- The operations things come from ----------

  /** The registration that leaves client `x`. */
  predicate Registers(c: Config, w: World, t: Timed, x: Client) {
    && t.op.OpRegister? && x == Client(w.supply, t.op.redirectUris, t.at / 1000) && {} < x.redirectUris <= c.callbacks
    && Step(c, w, t).0.supply == w.supply + 1
  }

  /** The authorization that leaves request `p`. */
  predicate Asks(c: Config, w: World, t: Timed, p: Pending) {
    && t.op.OpAuthorize? && t.op.resource == c.resourceUrl
    && t.op.redirectUri in t.op.client.redirectUris && t.op.redirectUri in c.callbacks && t.op.challenge == Some(p.challenge)
    && p.scopes == (if t.op.scopes.Some? then t.op.scopes.value else c.scopes) && {} < p.scopes <= c.scopes
    && p.id == w.supply && p.clientId == t.op.client.id && p.redirectUri == t.op.redirectUri && p.requester == t.op.requester
    && p.expiresAt == t.at + 10 * 60 * 1000 && Step(c, w, t).0.supply == w.supply + 1
  }

  /** The consent to request `p` that leaves grant `g`, within ten minutes of the request. */
  predicate Consents(c: Config, w: World, t: Timed, p: Pending, g: Id, grant: Grant) {
    && t.op.OpApprove? && t.op.id == p.id && p in w.mem.pending && t.at < p.expiresAt
    && g == w.supply && grant.resourceUrl == c.resourceUrl && grant.clientId == p.clientId
    && grant.scopes == (if t.op.scopes.Some? then t.op.scopes.value else p.scopes) && {} < grant.scopes <= p.scopes
    && grant.childIds == t.op.childIds != {} && (forall child :: child in grant.childIds ==> 0 < child <= MAX_SAFE_INTEGER)
    && grant.createdAt == t.at && grant.expiresAt == t.at + 30 * 24 * 60 * 60 * 1000
    && Step(c, w, t).0.supply == w.supply + 2
  }

  /** And its code, good for a minute. */
  predicate Codes(w: World, t: Timed, p: Pending, g: Id, code: Id, entry: Code) {
    && code == g + 1 && entry.grantId == g && entry.clientId == p.clientId && entry.redirectUri == p.redirectUri
    && entry.challenge == p.challenge && entry.expiresAt == t.at + 60 * 1000
  }

  /** The issue that hands out access token `access`, good for five minutes. */
  predicate Gives(c: Config, w: World, t: Timed, access: Id, token: Token) {
    var a := Step(c, w, t).1;
    && a.Issued? && a.access == access && a.refresh.Signed? && a.refresh.id == token.grantId && a.scopes == token.scopes
    && token.expiresAt == t.at + 5 * 60 * 1000
    && token.grantId in w.mem.grants && w.mem.grants[token.grantId].clientId == token.clientId
  }

  /** The issue that hands out the refresh token of rotation `r`. */
  predicate Rotates(c: Config, w: World, t: Timed, g: Id, r: Rotation) {
    var a := Step(c, w, t).1;
    a.Issued? && a.refresh == Signed(g, r.counter, Mac(g, r.counter, r.key)) && a.scopes == r.scopes
  }

  // ---------- What one operation adds ----------

  lemma NewClient(c: Config, w: World, t: Timed, x: Client)
    requires x in Step(c, w, t).0.mem.clients
    ensures x in w.mem.clients || (t.op.OpRestart? && x in w.disk.clients) || Registers(c, w, t, x)
  {
    hide Step;
    match t.op
    case OpRegister(_) => RegisteredClient(c, w, t, x);
    case OpRestart => RestartIs(c, w, t);
    case _ => SameClients(c, w, t);
  }

  lemma RegisteredClient(c: Config, w: World, t: Timed, x: Client)
    requires t.op.OpRegister? && x in Step(c, w, t).0.mem.clients
    ensures x in w.mem.clients || Registers(c, w, t, x)
  {
    hide Unexpired, OldestIdle, InUse, DropStale, RemoveAt;
    var p := Prune(w.mem, t.at);
    DropStaleSubset(p, p.clients, t.at);
    var live := DropStale(p, p.clients, t.at);
    var idle := OldestIdle(p.(clients := live), live);
    if idle >= 0 {
      RemoveAtSubset(live, idle);
    }
  }

  lemma IssueClients(w: World, now: int, ok: bool, g: Id, clientId: Id, scopes: set<Scope>, code: Option<Id>)
    ensures Issue(w, now, ok, g, clientId, scopes, code).0.mem.clients == w.mem.clients
  {
    hide Unexpired;
  }

  lemma RevokeClients(w: World, ok: bool, g: Id, next: Answer)
    ensures Revoke(w, ok, g, next).0.mem.clients == w.mem.clients
  {
  }

  lemma ExchangeClients(c: Config, w: World, t: Timed)
    requires t.op.OpExchangeCode? || t.op.OpExchangeRefresh?
    ensures Step(c, w, t).0.mem.clients == w.mem.clients
  {
    hide Issue, Revoke;
    match t.op
    case OpExchangeCode(_, code, _, _) =>
      if code in w.mem.codes {
        var g := w.mem.codes[code].grantId;
        RevokeClients(w, t.ok, g, Failed(InvalidGrant));
        if g in w.mem.grants {
          IssueClients(w, t.at, t.ok, g, w.mem.grants[g].clientId, w.mem.grants[g].scopes, Some(code));
        }
      }
    case OpExchangeRefresh(client, token, scopes, _) =>
      if token.Signed? && token.id in w.mem.refresh {
        RevokeClients(w, t.ok, token.id, Failed(InvalidGrant));
        IssueClients(w, t.at, t.ok, token.id, client, if scopes.Some? then scopes.value else w.mem.refresh[token.id].scopes, None);
      }
  }

  /** Registrations change only by registering. */
  lemma SameClients(c: Config, w: World, t: Timed)
    requires !t.op.OpRegister? && !t.op.OpRestart?
    ensures Step(c, w, t).0.mem.clients == w.mem.clients
  {
    if t.op.OpExchangeCode? || t.op.OpExchangeRefresh? {
      ExchangeClients(c, w, t);
    } else {
      hide Unexpired, MakeRoom, WithoutPending, PendingRequest, ExchangeCode, ExchangeRefresh, Register, Readable;
    }
  }

  lemma NewPending(c: Config, w: World, t: Timed, p: Pending)
    requires p in Step(c, w, t).0.mem.pending
    ensures p in w.mem.pending || (t.op.OpRestart? && p in w.disk.pending) || Asks(c, w, t, p)
  {
    hide Prune, MakeRoom, WithoutPending, PendingRequest, Step;
    UnexpiredSubset(w.mem.pending, t.at);
    PrunedPending(w.mem, t.at);
    match t.op
    case OpAuthorize(_, _, _, _, _, _) => AuthorizedPending(c, w, t, p);
    case OpApprove(_, _, _) => DecidedPending(c, w, t, p);
    case OpDeny(_) => DecidedPending(c, w, t, p);
    case OpRestart => RestartIs(c, w, t);
    case OpRevokeAll => RevokedAll(c, w, t);
    case _ => OtherPending(c, w, t);
  }

  lemma PrunedPending(s: Store, now: int)
    ensures Prune(s, now).pending == Unexpired(s.pending, now)
  {
  }

  lemma RevokedAll(c: Config, w: World, t: Timed)
    requires t.op.OpRevokeAll?
    ensures Step(c, w, t).0.mem == EMPTY.(clients := w.mem.clients)
  {
  }

  lemma AuthorizedPending(c: Config, w: World, t: Timed, p: Pending)
    requires t.op.OpAuthorize? && p in Step(c, w, t).0.mem.pending
    ensures p in w.mem.pending || Asks(c, w, t, p)
  {
    hide Unexpired, MakeRoom;
    UnexpiredSubset(w.mem.pending, t.at);
    MakeRoomSubset(c.limits, Prune(w.mem, t.at).pending, t.op.requester);
  }

  lemma DecidedPending(c: Config, w: World, t: Timed, p: Pending)
    requires (t.op.OpApprove? || t.op.OpDeny?) && p in Step(c, w, t).0.mem.pending
    ensures p in w.mem.pending
  {
    hide Unexpired, WithoutPending, PendingRequest;
    UnexpiredSubset(w.mem.pending, t.at);
    WithoutPendingSubset(Prune(w.mem, t.at).pending, t.op.id);
    WithoutPendingSubset(w.mem.pending, t.op.id);
  }

  /** No grant, code or token but those that were there, the codes at most marked as used; new tokens only when some
      are issued. */
  ghost predicate NoneNew(s: Store, r: Store, a: Answer) {
    && (forall g :: g in r.grants ==> g in s.grants && r.grants[g] == s.grants[g])
    && (forall k :: k in r.codes ==> k in s.codes && r.codes[k].(used := true) == s.codes[k].(used := true))
    && (!a.Issued? ==> forall k :: k in r.tokens ==> k in s.tokens && r.tokens[k] == s.tokens[k])
  }

  lemma PruneNoneNew(s: Store, now: int, a: Answer)
    ensures NoneNew(s, Prune(s, now), a)
  {
  }

  lemma SameNoneNew(s: Store, a: Answer)
    ensures NoneNew(s, s, a)
  {
  }

  lemma IssuesNoneNew(w: World, now: int, ok: bool, g: Id, clientId: Id, scopes: set<Scope>, code: Option<Id>)
    ensures var (r, a) := Issue(w, now, ok, g, clientId, scopes, code); NoneNew(w.mem, r.mem, a)
  {
    hide Prune;
    PruneNoneNew(w.mem, now, Done);
  }

  lemma RevokesNoneNew(w: World, ok: bool, g: Id, next: Answer)
    ensures var (r, a) := Revoke(w, ok, g, next); NoneNew(w.mem, r.mem, a)
  {
  }

  lemma ExchangesNoneNew(c: Config, w: World, t: Timed)
    requires t.op.OpExchangeCode? || t.op.OpExchangeRefresh?
    ensures var (r, a) := Step(c, w, t); NoneNew(w.mem, r.mem, a)
  {
    hide Prune, Issue, Revoke, NoneNew;
    SameNoneNew(w.mem, Step(c, w, t).1);
    match t.op
    case OpExchangeCode(_, code, _, _) =>
      if code in w.mem.codes {
        var g := w.mem.codes[code].grantId;
        RevokesNoneNew(w, t.ok, g, Failed(InvalidGrant));
        if g in w.mem.grants {
          IssuesNoneNew(w, t.at, t.ok, g, w.mem.grants[g].clientId, w.mem.grants[g].scopes, Some(code));
        }
      }
    case OpExchangeRefresh(client, token, scopes, _) =>
      if token.Signed? && token.id in w.mem.refresh {
        RevokesNoneNew(w, t.ok, token.id, Failed(InvalidGrant));
        var selected := if scopes.Some? then scopes.value else w.mem.refresh[token.id].scopes;
        IssuesNoneNew(w, t.at, t.ok, token.id, client, selected, None);
      }
  }

  lemma WithdrawsNoneNew(c: Config, w: World, t: Timed)
    requires t.op.OpChallenge? || t.op.OpVerify? || t.op.OpRevokeToken? || t.op.OpRevokeGrant?
    ensures var (r, a) := Step(c, w, t); NoneNew(w.mem, r.mem, a)
  {
    hide Revoke, NoneNew;
    SameNoneNew(w.mem, Step(c, w, t).1);
    match t.op
    case OpChallenge(_, code) =>
      if code in w.mem.codes {
        RevokesNoneNew(w, t.ok, w.mem.codes[code].grantId, Failed(InvalidGrant));
      }
    case OpRevokeToken(_, presented) =>
      match presented {
        case Access(a) =>
          if a in w.mem.tokens {
            RevokesNoneNew(w, t.ok, w.mem.tokens[a].grantId, Done);
          }
        case Refreshing(r) =>
          if r.Signed? {
            RevokesNoneNew(w, t.ok, r.id, Done);
          }
      }
    case OpRevokeGrant(id) => RevokesNoneNew(w, t.ok, id, Done);
    case _ =>
  }

  lemma RegisterNoneNew(c: Config, w: World, t: Timed)
    requires t.op.OpRegister?
    ensures var (r, a) := Step(c, w, t); NoneNew(w.mem, r.mem, a)
  {
    hide Prune, DropStale, OldestIdle, InUse;
    PruneNoneNew(w.mem, t.at, Done);
  }

  lemma AsksNoneNew(c: Config, w: World, t: Timed)
    requires t.op.OpAuthorize? || t.op.OpDeny? || t.op.OpListGrants?
    ensures var (r, a) := Step(c, w, t); NoneNew(w.mem, r.mem, a)
  {
    hide Prune, MakeRoom, WithoutPending, PendingRequest;
    PruneNoneNew(w.mem, t.at, Done);
  }

  lemma OthersNoneNew(c: Config, w: World, t: Timed)
    requires !t.op.OpApprove? && !t.op.OpRestart?
    ensures var (r, a) := Step(c, w, t); NoneNew(w.mem, r.mem, a)
  {
    hide Step, NoneNew;
    match t.op
    case OpExchangeCode(_, _, _, _) => ExchangesNoneNew(c, w, t);
    case OpExchangeRefresh(_, _, _, _) => ExchangesNoneNew(c, w, t);
    case OpRegister(_) => RegisterNoneNew(c, w, t);
    case OpAuthorize(_, _, _, _, _, _) => AsksNoneNew(c, w, t);
    case OpDeny(_) => AsksNoneNew(c, w, t);
    case OpListGrants => AsksNoneNew(c, w, t);
    case OpRevokeAll => EmptyNoneNew(c, w, t);
    case _ => WithdrawsNoneNew(c, w, t);
  }

  lemma EmptyNoneNew(c: Config, w: World, t: Timed)
    requires t.op.OpRevokeAll?
    ensures var (r, a) := Step(c, w, t); NoneNew(w.mem, r.mem, a)
  {
    RevokedAll(c, w, t);
  }

  function GrantOfConsent(c: Config, t: Timed, p: Pending): Grant
    requires t.op.OpApprove?
  {
    Grant(c.resourceUrl, p.clientId, if t.op.scopes.Some? then t.op.scopes.value else p.scopes, t.op.childIds, t.at, t.at + 30 * DAY)
  }

  function CodeOfConsent(t: Timed, p: Pending, g: Id): Code {
    Code(p.clientId, g, p.redirectUri, p.challenge, t.at + 60_000, false)
  }

  /** What an approval does to the store: nothing but pruning, or one consent. */
  lemma ApproveIs(c: Config, w: World, t: Timed) returns (p: Option<Pending>)
    requires t.op.OpApprove?
    ensures var r := Step(c, w, t).0.mem;
            if p.None? then r == w.mem || r == Prune(w.mem, t.at)
            else && Consents(c, w, t, p.value, w.supply, GrantOfConsent(c, t, p.value))
                 && r == Granted(Prune(w.mem, t.at), w.supply, GrantOfConsent(c, t, p.value), w.supply + 1,
                                 CodeOfConsent(t, p.value, w.supply), t.op.id)
  {
    hide Prune, Granted;
    p := None;
    var found := PendingRequest(w.mem, t.at, t.op.id);
    if found.Some? {
      var selected := if t.op.scopes.Some? then t.op.scopes.value else found.value.scopes;
      if {} < selected <= found.value.scopes && t.op.childIds != {}
         && (forall child :: child in t.op.childIds ==> 0 < child <= MAX_SAFE_INTEGER)
         && |Prune(w.mem, t.at).grants| < MAX_GRANTS {
        p := found;
      }
    }
  }

  /** What a consent adds. */
  lemma ApproveAdds(c: Config, w: World, t: Timed) returns (p: Option<Pending>)
    requires t.op.OpApprove?
    ensures p.Some? ==> Consents(c, w, t, p.value, w.supply, GrantOfConsent(c, t, p.value))
    ensures var r, n := Step(c, w, t).0.mem, w.supply;
            && (forall g :: g in r.grants ==>
                  (g in w.mem.grants && r.grants[g] == w.mem.grants[g])
                  || (p.Some? && g == n && r.grants[g] == GrantOfConsent(c, t, p.value)))
            && (forall k :: k in r.codes ==>
                  (k in w.mem.codes && r.codes[k] == w.mem.codes[k])
                  || (p.Some? && k == n + 1 && r.codes[k] == CodeOfConsent(t, p.value, n)))
            && (forall k :: k in r.tokens ==> k in w.mem.tokens && r.tokens[k] == w.mem.tokens[k])
  {
    hide Prune, WithoutPending, Step, Consents;
    PruneNoneNew(w.mem, t.at, Done);
    PrunedCodes(w.mem, t.at);
    p := ApproveIs(c, w, t);
  }

  lemma PrunedCodes(s: Store, now: int)
    ensures forall k :: k in Prune(s, now).codes ==> k in s.codes && Prune(s, now).codes[k] == s.codes[k]
  {
  }

  // ---------- Traces ----------

  predicate RegisteredAt(c: Config, run: seq<Timed>, i: nat, x: Client) {
    i < |run| && Registers(c, After(c, Start(), run[..i]), run[i], x)
  }

  predicate AskedAt(c: Config, run: seq<Timed>, i: nat, p: Pending) {
    i < |run| && Asks(c, After(c, Start(), run[..i]), run[i], p)
  }

  predicate ConsentedAt(c: Config, run: seq<Timed>, i: nat, p: Pending, g: Id, grant: Grant) {
    i < |run| && Consents(c, After(c, Start(), run[..i]), run[i], p, g, grant)
  }

  predicate CodedAt(c: Config, run: seq<Timed>, i: nat, p: Pending, g: Id, grant: Grant, code: Id, entry: Code) {
    ConsentedAt(c, run, i, p, g, grant) && Codes(After(c, Start(), run[..i]), run[i], p, g, code, entry)
  }

  predicate GivenAt(c: Config, run: seq<Timed>, i: nat, access: Id, token: Token) {
    i < |run| && Gives(c, After(c, Start(), run[..i]), run[i], access, token)
  }

  predicate RotatedAt(c: Config, run: seq<Timed>, i: nat, g: Id, r: Rotation) {
    i < |run| && Rotates(c, After(c, Start(), run[..i]), run[i], g, r)
  }

  /** Everything in the store comes from an earlier operation of the run. */
  ghost predicate Traced(c: Config, run: seq<Timed>, s: Store) {
    && (forall x :: x in s.clients ==> exists i: nat :: RegisteredAt(c, run, i, x))
    && (forall p :: p in s.pending ==> exists i: nat :: AskedAt(c, run, i, p))
    && (forall g :: g in s.grants ==> exists i: nat, p :: ConsentedAt(c, run, i, p, g, s.grants[g]))
    && (forall k :: k in s.codes ==> exists i: nat, p, g, grant :: CodedAt(c, run, i, p, g, grant, k, s.codes[k]))
    && (forall a :: a in s.tokens ==> exists i: nat :: GivenAt(c, run, i, a, s.tokens[a]))
    && (forall g :: g in s.refresh ==> exists i: nat :: RotatedAt(c, run, i, g, s.refresh[g]))
  }

  lemma Later(c: Config, run: seq<Timed>, t: Timed)
    ensures forall i: nat, x :: RegisteredAt(c, run, i, x) ==> RegisteredAt(c, run + [t], i, x)
    ensures forall i: nat, p :: AskedAt(c, run, i, p) ==> AskedAt(c, run + [t], i, p)
    ensures forall i: nat, p, g, grant :: ConsentedAt(c, run, i, p, g, grant) ==> ConsentedAt(c, run + [t], i, p, g, grant)
    ensures forall i: nat, p, g, grant, k, entry :: CodedAt(c, run, i, p, g, grant, k, entry) ==> CodedAt(c, run + [t], i, p, g, grant, k, entry)
    ensures forall i: nat, a, token :: GivenAt(c, run, i, a, token) ==> GivenAt(c, run + [t], i, a, token)
    ensures forall i: nat, g, r :: RotatedAt(c, run, i, g, r) ==> RotatedAt(c, run + [t], i, g, r)
  {
    hide Registers, Asks, Consents, Codes, Gives, Rotates;
    assert forall i: nat :: i < |run| ==> (run + [t])[..i] == run[..i];
  }

  lemma TracedLater(c: Config, run: seq<Timed>, t: Timed, s: Store)
    requires Traced(c, run, s)
    ensures Traced(c, run + [t], s)
  {
    hide RegisteredAt, AskedAt, ConsentedAt, CodedAt, GivenAt, RotatedAt;
    Later(c, run, t);
  }

  lemma PendingTraced(c: Config, run: seq<Timed>, t: Timed)
    requires var w := After(c, Start(), run); Traced(c, run, w.mem) && Traced(c, run, w.disk)
    ensures var r := Step(c, After(c, Start(), run), t).0.mem;
            forall p :: p in r.pending ==> exists i: nat :: AskedAt(c, run + [t], i, p)
  {
    hide Step, RegisteredAt, AskedAt, ConsentedAt, CodedAt, GivenAt, RotatedAt, Asks;
    var w := After(c, Start(), run);
    Later(c, run, t);
    forall p | p in Step(c, w, t).0.mem.pending ensures exists i: nat :: AskedAt(c, run + [t], i, p) {
      NewPending(c, w, t, p);
      if Asks(c, w, t, p) {
        LastAsked(c, run, t, p);
      }
    }
  }

  lemma ClientsTraced(c: Config, run: seq<Timed>, t: Timed)
    requires var w := After(c, Start(), run); Traced(c, run, w.mem) && Traced(c, run, w.disk)
    ensures var r := Step(c, After(c, Start(), run), t).0.mem;
            forall x :: x in r.clients ==> exists i: nat :: RegisteredAt(c, run + [t], i, x)
  {
    hide Step, RegisteredAt, AskedAt, ConsentedAt, CodedAt, GivenAt, RotatedAt, Registers;
    var w := After(c, Start(), run);
    Later(c, run, t);
    forall x | x in Step(c, w, t).0.mem.clients ensures exists i: nat :: RegisteredAt(c, run + [t], i, x) {
      NewClient(c, w, t, x);
      if Registers(c, w, t, x) {
        LastRegistered(c, run, t, x);
      }
    }
  }

  lemma LastRegistered(c: Config, run: seq<Timed>, t: Timed, x: Client)
    requires Registers(c, After(c, Start(), run), t, x)
    ensures RegisteredAt(c, run + [t], |run|, x)
  {
    hide Registers;
    assert (run + [t])[..|run|] == run;
  }

  lemma LastAsked(c: Config, run: seq<Timed>, t: Timed, p: Pending)
    requires Asks(c, After(c, Start(), run), t, p)
    ensures AskedAt(c, run + [t], |run|, p)
  {
    hide Asks;
    assert (run + [t])[..|run|] == run;
  }

  lemma LastConsented(c: Config, run: seq<Timed>, t: Timed, p: Pending, g: Id, grant: Grant)
    requires Consents(c, After(c, Start(), run), t, p, g, grant)
    ensures ConsentedAt(c, run + [t], |run|, p, g, grant)
  {
    hide Consents;
    assert (run + [t])[..|run|] == run;
  }

  lemma LastCoded(c: Config, run: seq<Timed>, t: Timed, p: Pending, g: Id, grant: Grant, code: Id, entry: Code)
    requires Consents(c, After(c, Start(), run), t, p, g, grant) && Codes(After(c, Start(), run), t, p, g, code, entry)
    ensures CodedAt(c, run + [t], |run|, p, g, grant, code, entry)
  {
    hide Consents, Codes;
    assert (run + [t])[..|run|] == run;
  }

  lemma LastGiven(c: Config, run: seq<Timed>, t: Timed, access: Id, token: Token)
    requires Gives(c, After(c, Start(), run), t, access, token)
    ensures GivenAt(c, run + [t], |run|, access, token)
  {
    hide Gives;
    assert (run + [t])[..|run|] == run;
  }

  lemma LastRotated(c: Config, run: seq<Timed>, t: Timed, g: Id, r: Rotation)
    requires Rotates(c, After(c, Start(), run), t, g, r)
    ensures RotatedAt(c, run + [t], |run|, g, r)
  {
    hide Rotates;
    assert (run + [t])[..|run|] == run;
  }

  lemma UsedCoded(c: Config, run: seq<Timed>, i: nat, p: Pending, g: Id, grant: Grant, k: Id, entry: Code, other: Code)
    requires CodedAt(c, run, i, p, g, grant, k, entry) && entry.(used := true) == other.(used := true)
    ensures CodedAt(c, run, i, p, g, grant, k, other)
  {
    hide ConsentedAt;
  }

  lemma ApprovedTraced(c: Config, run: seq<Timed>, t: Timed)
    requires t.op.OpApprove?
    requires var w := After(c, Start(), run); Traced(c, run, w.mem) && Inv(c, w)
    ensures Traced(c, run + [t], Step(c, After(c, Start(), run), t).0.mem.(pending := [], clients := []))
  {
    hide Step, RegisteredAt, AskedAt, ConsentedAt, CodedAt, GivenAt, RotatedAt, Consents, Codes, Inv;
    var w := After(c, Start(), run);
    Later(c, run, t);
    var p := ApproveAdds(c, w, t);
    if p.Some? {
      var g, grant := w.supply, GrantOfConsent(c, t, p.value);
      LastConsented(c, run, t, p.value, g, grant);
      ConsentCodes(w, t, p.value);
      LastCoded(c, run, t, p.value, g, grant, g + 1, CodeOfConsent(t, p.value, g));
    }
    OtherAnswers(c, w, t);
    KeptRefresh(c, w, t);
  }

  lemma ConsentCodes(w: World, t: Timed, p: Pending)
    ensures Codes(w, t, p, w.supply, w.supply + 1, CodeOfConsent(t, p, w.supply))
  {
  }

  lemma KeptRefresh(c: Config, w: World, t: Timed)
    requires Inv(c, w) && !Step(c, w, t).1.Issued? && !t.op.OpRestart?
    ensures var r := Step(c, w, t).0.mem; forall g :: g in r.refresh ==> g in w.mem.refresh && r.refresh[g] == w.mem.refresh[g]
  {
    hide Inv, Step, Sound;
    var ch := StepChanges(c, w, t);
  }

  lemma UnissuedTraced(c: Config, run: seq<Timed>, t: Timed)
    requires !t.op.OpApprove? && !t.op.OpRestart? && !Step(c, After(c, Start(), run), t).1.Issued?
    requires var w := After(c, Start(), run); Traced(c, run, w.mem) && Inv(c, w)
    ensures Traced(c, run + [t], Step(c, After(c, Start(), run), t).0.mem.(pending := [], clients := []))
  {
    hide Step, RegisteredAt, AskedAt, ConsentedAt, CodedAt, GivenAt, RotatedAt, Consents, Codes, Inv;
    var w := After(c, Start(), run);
    Later(c, run, t);
    OthersNoneNew(c, w, t);
    KeptRefresh(c, w, t);
    CodesTraced(c, run, t);
  }

  lemma CodesTraced(c: Config, run: seq<Timed>, t: Timed)
    requires !t.op.OpApprove? && !t.op.OpRestart? && Traced(c, run, After(c, Start(), run).mem)
    ensures var r := Step(c, After(c, Start(), run), t).0.mem;
            forall k :: k in r.codes ==> exists i: nat, p, g, grant :: CodedAt(c, run + [t], i, p, g, grant, k, r.codes[k])
  {
    hide Step, RegisteredAt, AskedAt, ConsentedAt, CodedAt, GivenAt, RotatedAt, Consents, Codes;
    var w := After(c, Start(), run);
    var r := Step(c, w, t).0.mem;
    Later(c, run, t);
    OthersNoneNew(c, w, t);
    forall k | k in r.codes ensures exists i: nat, p, g, grant :: CodedAt(c, run + [t], i, p, g, grant, k, r.codes[k]) {
      var i: nat, p, g, grant :| CodedAt(c, run, i, p, g, grant, k, w.mem.codes[k]);
      UsedCoded(c, run + [t], i, p, g, grant, k, w.mem.codes[k], r.codes[k]);
    }
  }

  /** The new token and the new rotation are those of the answer; all others were there. */
  lemma IssueAdds(c: Config, w: World, t: Timed)
    requires Inv(c, w) && Step(c, w, t).1.Issued?
    ensures var (r, a) := Step(c, w, t);
            && (forall k :: k in r.mem.tokens ==> (k in w.mem.tokens && r.mem.tokens[k] == w.mem.tokens[k]) || Gives(c, w, t, k, r.mem.tokens[k]))
            && (forall g :: g in r.mem.refresh ==> (g in w.mem.refresh && r.mem.refresh[g] == w.mem.refresh[g]) || Rotates(c, w, t, g, r.mem.refresh[g]))
            && (t.op.OpExchangeCode? || t.op.OpExchangeRefresh?)
  {
    hide Inv, Step, Prune;
    var ch := StepChanges(c, w, t);
    PruneNoneNew(w.mem, t.at, Done);
    PruneRotations(w.mem, t.at);
    PruneAt(w, t.at);
  }

  lemma IssuedTraced(c: Config, run: seq<Timed>, t: Timed)
    requires Step(c, After(c, Start(), run), t).1.Issued?
    requires var w := After(c, Start(), run); Traced(c, run, w.mem) && Inv(c, w)
    ensures Traced(c, run + [t], Step(c, After(c, Start(), run), t).0.mem.(pending := [], clients := []))
  {
    hide Step, RegisteredAt, AskedAt, ConsentedAt, CodedAt, GivenAt, RotatedAt, Consents, Codes, Inv, Gives, Rotates;
    var w := After(c, Start(), run);
    var r := Step(c, w, t).0.mem;
    Later(c, run, t);
    IssueAdds(c, w, t);
    OthersNoneNew(c, w, t);
    CodesTraced(c, run, t);
    forall k | k in r.tokens ensures exists i: nat :: GivenAt(c, run + [t], i, k, r.tokens[k]) {
      if Gives(c, w, t, k, r.tokens[k]) {
        LastGiven(c, run, t, k, r.tokens[k]);
      }
    }
    forall g | g in r.refresh ensures exists i: nat :: RotatedAt(c, run + [t], i, g, r.refresh[g]) {
      if Rotates(c, w, t, g, r.refresh[g]) {
        LastRotated(c, run, t, g, r.refresh[g]);
      }
    }
  }

  lemma StepTraced(c: Config, run: seq<Timed>, t: Timed)
    requires var w := After(c, Start(), run); Traced(c, run, w.mem) && Traced(c, run, w.disk) && Inv(c, w)
    ensures var r := Step(c, After(c, Start(), run), t).0; Traced(c, run + [t], r.mem) && Traced(c, run + [t], r.disk)
  {
    hide Step, RegisteredAt, AskedAt, ConsentedAt, CodedAt, GivenAt, RotatedAt, Inv, After;
    var w := After(c, Start(), run);
    TracedLater(c, run, t, w.mem);
    TracedLater(c, run, t, w.disk);
    if t.op.OpRestart? {
      RestartIs(c, w, t);
    } else {
      ClientsTraced(c, run, t);
      PendingTraced(c, run, t);
      if Step(c, w, t).1.Issued? {
        IssuedTraced(c, run, t);
      } else if t.op.OpApprove? {
        ApprovedTraced(c, run, t);
      } else {
        UnissuedTraced(c, run, t);
      }
      DiskIs(c, w, t);
    }
  }

  lemma DiskIs(c: Config, w: World, t: Timed)
    requires Inv(c, w)
    ensures var r := Step(c, w, t).0; r.disk == w.disk || r.disk == r.mem
  {
    hide Inv, Step, Sound, Evolves;
    var ch := StepChanges(c, w, t);
    if ch.Restarted? {
      RestartIs(c, w, t);
    }
  }

  /** Over every run, in memory and repository: each client comes from a registration, each request from an
      authorization, each grant and each code from a consent, each access token and each rotation from an issue. */
  lemma {:induction false} RunTraced(c: Config, run: seq<Timed>)
    ensures var w := After(c, Start(), run); Traced(c, run, w.mem) && Traced(c, run, w.disk)
    decreases |run|
  {
    hide Step, Traced, After, Inv;
    if run == [] {
      NothingTraced(c);
    } else {
      var init, t := run[..|run| - 1], run[|run| - 1];
      RunTraced(c, init);
      StartInv(c);
      RunInv(c, Start(), init);
      StepTraced(c, init, t);
      RunLast(c, run);
      assert init + [t] == run;
    }
  }

  lemma RunLast(c: Config, run: seq<Timed>)
    requires run != []
    ensures After(c, Start(), run) == Step(c, After(c, Start(), run[..|run| - 1]), run[|run| - 1]).0
  {
    hide Step;
  }

  lemma NothingTraced(c: Config)
    ensures var w := After(c, Start(), []); Traced(c, [], w.mem) && Traced(c, [], w.disk)
  {
  }

  // ---------- What that means ----------

  lemma TracedBefore(c: Config, run: seq<Timed>, j: nat)
    requires j < |run|
    ensures var w := After(c, Start(), run[..j]); Traced(c, run[..j], w.mem) && Inv(c, w)
    ensures forall i :: 0 <= i <= j ==> run[..j][..i] == run[..i]
  {
    hide Step, After, Traced, Inv;
    RunTraced(c, run[..j]);
    StartInv(c);
    RunInv(c, Start(), run[..j]);
  }

  lemma WithinRun(c: Config, run: seq<Timed>, j: nat)
    requires j < |run|
    ensures forall i: nat, x :: RegisteredAt(c, run[..j], i, x) ==> i < j && RegisteredAt(c, run, i, x)
    ensures forall i: nat, p :: AskedAt(c, run[..j], i, p) ==> i < j && AskedAt(c, run, i, p)
    ensures forall i: nat, p, g, grant :: ConsentedAt(c, run[..j], i, p, g, grant) ==> i < j && ConsentedAt(c, run, i, p, g, grant)
    ensures forall i: nat, p, g, grant, k, entry :: CodedAt(c, run[..j], i, p, g, grant, k, entry) ==>
              i < j && CodedAt(c, run, i, p, g, grant, k, entry)
    ensures forall i: nat, a, token :: GivenAt(c, run[..j], i, a, token) ==> i < j && GivenAt(c, run, i, a, token)
    ensures forall i: nat, g, r :: RotatedAt(c, run[..j], i, g, r) ==> i < j && RotatedAt(c, run, i, g, r)
  {
    hide Registers, Asks, Consents, Codes, Gives, Rotates;
    assert forall i :: 0 <= i <= j ==> run[..j][..i] == run[..i];
  }

  /** Each consent is to a request that an earlier authorization of its client made, for that callback and challenge. */
  lemma ConsentFromRequest(c: Config, run: seq<Timed>, i: nat, p: Pending, g: Id, grant: Grant) returns (h: nat)
    requires ConsentedAt(c, run, i, p, g, grant)
    ensures h < i && AskedAt(c, run, h, p) && run[i].at < run[h].at + 10 * 60 * 1000
  {
    hide Step, After, Inv;
    TracedBefore(c, run, i);
    WithinRun(c, run, i);
    assert p in After(c, Start(), run[..i]).mem.pending;
    h :| AskedAt(c, run[..i], h, p);
  }

  lemma ExchangeNeeds(c: Config, w: World, t: Timed)
    requires t.op.OpExchangeCode? && Step(c, w, t).1.Issued?
    ensures var a, k := Step(c, w, t).1, t.op.code;
            && k in w.mem.codes && t.op.resource == c.resourceUrl
            && (var entry := w.mem.codes[k];
                && !entry.used && t.op.clientId == entry.clientId && t.op.sentTo == Some(entry.redirectUri) && t.at < entry.expiresAt
                && a.refresh.Signed? && a.refresh.id == entry.grantId
                && entry.grantId in w.mem.grants && a.scopes == w.mem.grants[entry.grantId].scopes)
  {
  }

  /** A code is exchanged only by the client whose request was consented to, with that request's callback, within a
      minute of the consent, and for exactly the scopes the parent chose. */
  lemma ExchangedFromConsent(c: Config, run: seq<Timed>, j: nat) returns (i: nat, p: Pending, g: Id, grant: Grant)
    requires j < |run| && run[j].op.OpExchangeCode? && AnswerAt(c, Start(), run, j).Issued?
    ensures i < j && ConsentedAt(c, run, i, p, g, grant) && run[j].op.code == g + 1
    ensures run[j].op.clientId == p.clientId && run[j].op.sentTo == Some(p.redirectUri) && run[j].op.resource == c.resourceUrl
    ensures run[j].at < run[i].at + 60 * 1000
    ensures var a := AnswerAt(c, Start(), run, j); a.scopes == grant.scopes && a.refresh.Signed? && a.refresh.id == g
  {
    hide Step, After, Inv, Consents;
    TracedBefore(c, run, j);
    WithinRun(c, run, j);
    var w, k := After(c, Start(), run[..j]), run[j].op.code;
    ExchangeNeeds(c, w, run[j]);
    i, p, g, grant :| CodedAt(c, run[..j], i, p, g, grant, k, w.mem.codes[k]);
    SameGrant(c, run, j, i, p, g, grant);
  }

  lemma StepSupply(c: Config, w: World, t: Timed)
    requires Inv(c, w)
    ensures w.supply <= Step(c, w, t).0.supply
  {
    hide Inv, Step, Sound, Evolves, Prune;
    var ch := StepChanges(c, w, t);
    if ch.Restarted? {
      RestartIs(c, w, t);
    }
  }

  lemma {:induction false} SupplyLater(c: Config, run: seq<Timed>, i: nat, j: nat)
    requires i <= j <= |run|
    ensures After(c, Start(), run[..i]).supply <= After(c, Start(), run[..j]).supply
    decreases j
  {
    hide Step, Inv, After;
    if i < j {
      SupplyLater(c, run, i, j - 1);
      TracedBefore(c, run, j - 1);
      StepSupply(c, After(c, Start(), run[..j - 1]), run[j - 1]);
      RunLast(c, run[..j]);
      assert run[..j][..j - 1] == run[..j - 1];
    }
  }

  /** Ids tell the operations that drew them apart. */
  lemma SameStep(c: Config, run: seq<Timed>, i: nat, j: nat)
    requires i < |run| && j < |run| && After(c, Start(), run[..i]).supply == After(c, Start(), run[..j]).supply
    requires Step(c, After(c, Start(), run[..i]), run[i]).0.supply > After(c, Start(), run[..i]).supply
    requires Step(c, After(c, Start(), run[..j]), run[j]).0.supply > After(c, Start(), run[..j]).supply
    ensures i == j
  {
    hide Step, After;
    var k := if i < j then i else j;
    RunLast(c, run[..k + 1]);
    assert run[..k + 1][..k] == run[..k];
    if i < j {
      SupplyLater(c, run, i + 1, j);
    } else if j < i {
      SupplyLater(c, run, j + 1, i);
    }
  }

  /** The consent that made a code made the grant it names, which is still as it was. */
  lemma SameGrant(c: Config, run: seq<Timed>, j: nat, i: nat, p: Pending, g: Id, grant: Grant)
    requires i < j < |run| && ConsentedAt(c, run, i, p, g, grant) && g in After(c, Start(), run[..j]).mem.grants
    ensures After(c, Start(), run[..j]).mem.grants[g] == grant
  {
    hide Step, After, Inv;
    TracedBefore(c, run, j);
    WithinRun(c, run, j);
    var i', p' :| ConsentedAt(c, run[..j], i', p', g, After(c, Start(), run[..j]).mem.grants[g]);
    SameStep(c, run, i, i');
    TracedBefore(c, run, i);
    SameRequest(c, run, i, p, p');
  }

  lemma SameRequest(c: Config, run: seq<Timed>, i: nat, p: Pending, q: Pending)
    requires i < |run| && run[i].op.OpApprove? && p.id == q.id
    requires p in After(c, Start(), run[..i]).mem.pending && q in After(c, Start(), run[..i]).mem.pending
    ensures p == q
  {
    hide Step, After, Inv;
    TracedBefore(c, run, i);
    WithinRun(c, run, i);
    var h :| AskedAt(c, run[..i], h, p);
    var k :| AskedAt(c, run[..i], k, q);
    SameStep(c, run, h, k);
  }

  lemma RefreshNeeds(c: Config, w: World, t: Timed)
    requires t.op.OpExchangeRefresh? && Step(c, w, t).1.Issued?
    ensures t.op.token.Signed?
    ensures var a, g := Step(c, w, t).1, t.op.token.id;
            && t.op.resource == c.resourceUrl && a.refresh.Signed? && a.refresh.id == g
            && g in w.mem.grants && w.mem.grants[g].clientId == t.op.clientId && t.at < w.mem.grants[g].expiresAt && g in w.mem.refresh
            && t.op.token == Signed(g, w.mem.refresh[g].counter, Mac(g, w.mem.refresh[g].counter, w.mem.refresh[g].key))
            && a.scopes == (if t.op.scopes.Some? then t.op.scopes.value else w.mem.refresh[g].scopes)
            && {} < a.scopes <= w.mem.refresh[g].scopes
  {
  }

  /** A refresh token redeems only if an earlier issue handed it out, only for the client whose request was consented to,
      within thirty days of the consent, and for exactly the scopes asked for, all of that issue when none are named. */
  lemma RefreshedFromIssue(c: Config, run: seq<Timed>, j: nat) returns (i: nat, h: nat, p: Pending, g: Id, grant: Grant)
    requires j < |run| && run[j].op.OpExchangeRefresh? && AnswerAt(c, Start(), run, j).Issued?
    ensures h < j && ConsentedAt(c, run, h, p, g, grant) && run[j].op.clientId == p.clientId
    ensures run[j].op.resource == c.resourceUrl && run[j].at < run[h].at + 30 * 24 * 60 * 60 * 1000
    ensures i < j && AnswerAt(c, Start(), run, i).Issued? && AnswerAt(c, Start(), run, i).refresh == run[j].op.token
    ensures run[j].op.token.Signed? && run[j].op.token.id == g
    ensures var given, a := AnswerAt(c, Start(), run, i), AnswerAt(c, Start(), run, j);
            a.scopes == (if run[j].op.scopes.Some? then run[j].op.scopes.value else given.scopes) && {} < a.scopes <= given.scopes
  {
    hide Step, After, Inv, Consents;
    TracedBefore(c, run, j);
    WithinRun(c, run, j);
    var w := After(c, Start(), run[..j]);
    RefreshNeeds(c, w, run[j]);
    g := run[j].op.token.id;
    i :| RotatedAt(c, run[..j], i, g, w.mem.refresh[g]);
    grant := w.mem.grants[g];
    h, p :| ConsentedAt(c, run[..j], h, p, g, grant);
    ConsentIs(c, run, h, p, g, grant);
  }

  lemma ConsentIs(c: Config, run: seq<Timed>, i: nat, p: Pending, g: Id, grant: Grant)
    requires ConsentedAt(c, run, i, p, g, grant)
    ensures grant.clientId == p.clientId && grant.expiresAt == run[i].at + 30 * 24 * 60 * 60 * 1000
  {
  }

  lemma VerifyNeeds(c: Config, w: World, t: Timed)
    requires t.op.OpVerify? && Step(c, w, t).1.Verified?
    ensures var a, k := Step(c, w, t).1, t.op.access;
            && k in w.mem.tokens && t.at < w.mem.tokens[k].expiresAt
            && a == Verified(w.mem.tokens[k].clientId, w.mem.tokens[k].grantId, w.mem.tokens[k].scopes)
            && a.grantId in w.mem.grants && t.at < w.mem.grants[a.grantId].expiresAt
            && w.mem.grants[a.grantId].resourceUrl == c.resourceUrl
  {
  }

  /** An access token is accepted only if an issue handed it out less than five minutes before, for exactly that issue's
      scopes, for the client whose request was consented to, within thirty days of the consent. */
  lemma VerifiedFromIssue(c: Config, run: seq<Timed>, j: nat) returns (i: nat, h: nat, p: Pending, g: Id, grant: Grant)
    requires j < |run| && run[j].op.OpVerify? && AnswerAt(c, Start(), run, j).Verified?
    ensures h < j && ConsentedAt(c, run, h, p, g, grant) && run[j].at < run[h].at + 30 * 24 * 60 * 60 * 1000
    ensures i < j && AnswerAt(c, Start(), run, i).Issued? && AnswerAt(c, Start(), run, i).access == run[j].op.access
    ensures run[j].at < run[i].at + 5 * 60 * 1000
    ensures AnswerAt(c, Start(), run, j) == Verified(p.clientId, g, AnswerAt(c, Start(), run, i).scopes)
  {
    hide Step, After, Inv, Consents;
    TracedBefore(c, run, j);
    WithinRun(c, run, j);
    var w := After(c, Start(), run[..j]);
    VerifyNeeds(c, w, run[j]);
    var token := w.mem.tokens[run[j].op.access];
    i :| GivenAt(c, run[..j], i, run[j].op.access, token);
    g := token.grantId;
    grant := w.mem.grants[g];
    h, p :| ConsentedAt(c, run[..j], h, p, g, grant);
    ConsentIs(c, run, h, p, g, grant);
    TokenClient(c, w, run[j].op.access);
  }

  lemma TokenClient(c: Config, w: World, access: Id)
    requires Inv(c, w) && access in w.mem.tokens && w.mem.tokens[access].grantId in w.mem.grants
    ensures w.mem.tokens[access].clientId == w.mem.grants[w.mem.tokens[access].grantId].clientId
  {
  }
}
