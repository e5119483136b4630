/**
 * Exactly when each request is granted, and which error it gets otherwise, in terms of what the tables hold
 * (src/http/oauth.ts).
 */
module OAuthAnswers {
  import opened Basics
  import opened OAuthModel

  /** The grant is there, for this server and not expired. */
  predicate Lives(c: Config, s: Store, now: int, g: Id) {
    g in s.grants && now < s.grants[g].expiresAt && s.grants[g].resourceUrl == c.resourceUrl
  }

  /** There is room for one more access token. */
  ghost predicate Room(s: Store, now: int) {
    |map k | k in s.tokens && now < s.tokens[k].expiresAt :: s.tokens[k]| < 8192
  }

  lemma PrunedTokens(s: Store, now: int)
    ensures |Prune(s, now).tokens| < MAX_TOKENS <==> Room(s, now)
  {
    assert Prune(s, now).tokens == map k | k in s.tokens && now < s.tokens[k].expiresAt :: s.tokens[k];
  }

  /** A registration is refused for a callback that is not allowed, or for none; it changes nothing then. */
  lemma RegisterAnswers(c: Config, w: World, t: Timed)
    requires t.op.OpRegister?
    ensures var (r, a) := Step(c, w, t);
            && (a == Failed(InvalidClientMetadata) <==> t.op.redirectUris == {} || exists u :: u in t.op.redirectUris && u !in c.callbacks)
            && (a == Failed(InvalidClientMetadata) ==> r == w)
            && (a.Registered? ==> t.ok && a.client.redirectUris == t.op.redirectUris && a.client.issuedAt == t.at / 1000)
            && (a.Registered? || (a.Failed? && a.error in {InvalidClientMetadata, TemporarilyUnavailable, WriteFailed}))
            && (a == Failed(WriteFailed) ==> !t.ok)
  {
    hide Prune, DropStale, OldestIdle, InUse;
  }

  /** An authorization becomes a consent request exactly when resource, callback, challenge and scopes are right; a
      full table is no reason to refuse. */
  lemma AuthorizeAnswers(c: Config, w: World, t: Timed)
    requires t.op.OpAuthorize?
    ensures var a := Step(c, w, t).1;
            var asked := if t.op.scopes.Some? then t.op.scopes.value else c.scopes;
            var addressed := t.op.redirectUri in t.op.client.redirectUris && t.op.redirectUri in c.callbacks && t.op.challenge.Some?;
            && (a == Failed(InvalidTarget) <==> t.op.resource != c.resourceUrl)
            && (a == Failed(InvalidRequest) <==> t.op.resource == c.resourceUrl && !addressed)
            && (a == Failed(InvalidScope) <==> t.op.resource == c.resourceUrl && addressed && !({} < asked <= c.scopes))
            && (a == Consent(w.supply) <==> t.op.resource == c.resourceUrl && addressed && {} < asked <= c.scopes && t.ok)
            && (a == Failed(WriteFailed) <==> t.op.resource == c.resourceUrl && addressed && {} < asked <= c.scopes && !t.ok)
  {
    hide Prune, MakeRoom;
  }

  /** A consent is given exactly to a request that is there, for some of its scopes and some children, while fewer than
      64 grants have not expired. */
  lemma ApproveAnswers(c: Config, w: World, t: Timed, p: Pending)
    requires t.op.OpApprove? && FindPending(w.mem.pending, t.op.id) < |w.mem.pending|
    requires p == w.mem.pending[FindPending(w.mem.pending, t.op.id)]
    ensures var a := Step(c, w, t).1;
            var selected := if t.op.scopes.Some? then t.op.scopes.value else p.scopes;
            var chosen := {} < selected <= p.scopes;
            var children := t.op.childIds != {} && forall child :: child in t.op.childIds ==> 0 < child <= 9_007_199_254_740_991;
            var room := |map g | g in w.mem.grants && t.at < w.mem.grants[g].expiresAt :: w.mem.grants[g]| < 64;
            && (a == Failed(InvalidGrant) <==> t.at >= p.expiresAt)
            && (a == Failed(InvalidScope) <==> t.at < p.expiresAt && !chosen)
            && (a == Failed(InvalidRequest) <==> t.at < p.expiresAt && chosen && !children)
            && (a == Failed(TemporarilyUnavailable) <==> t.at < p.expiresAt && chosen && children && !room)
            && (a == Redirected(w.supply + 1) <==> t.at < p.expiresAt && chosen && children && room && t.ok)
            && (a == Failed(WriteFailed) <==> t.at < p.expiresAt && chosen && children && room && !t.ok)
  {
    hide WithoutPending, Unexpired;
    assert Prune(w.mem, t.at).grants == map g | g in w.mem.grants && t.at < w.mem.grants[g].expiresAt :: w.mem.grants[g];
  }

  /** A code is exchanged exactly by its own client, unused and before it expires, with the request's callback, while
      its grant lives and there is room. */
  lemma ExchangeCodeAnswers(c: Config, w: World, t: Timed)
    requires t.op.OpExchangeCode? && t.op.code in w.mem.codes
    ensures var a, entry := Step(c, w, t).1, w.mem.codes[t.op.code];
            var known := t.op.resource == c.resourceUrl && entry.clientId == t.op.clientId && t.at < entry.expiresAt;
            var lives := Lives(c, w.mem, t.at, entry.grantId);
            var right := known && !entry.used && lives && t.op.sentTo == Some(entry.redirectUri);
            && (a == Failed(InvalidTarget) <==> t.op.resource != c.resourceUrl)
            && (a == Failed(InvalidToken) <==> known && !entry.used && !lives)
            && (a == Failed(TemporarilyUnavailable) <==> right && !Room(w.mem, t.at))
            && (a.Issued? <==> right && Room(w.mem, t.at) && t.ok)
            && (a == Failed(WriteFailed) <==>
                  (right && Room(w.mem, t.at) && !t.ok) || (known && entry.used && entry.grantId in w.mem.grants && !t.ok))
            && (a.Failed? || a.Issued?) && (a.Failed? ==> a.error in {InvalidTarget, InvalidToken, TemporarilyUnavailable, WriteFailed, InvalidGrant})
  {
    hide Prune;
    PrunedTokens(w.mem, t.at);
  }

  /** A refresh token is redeemed exactly by its grant's client, readable and current, while the grant lives, for some of
      the current scopes, while there is room. */
  lemma ExchangeRefreshAnswers(c: Config, w: World, t: Timed)
    requires t.op.OpExchangeRefresh? && t.op.token.Signed? && t.op.token.id in w.mem.refresh
    ensures var a, g, current := Step(c, w, t).1, t.op.token.id, w.mem.refresh[t.op.token.id];
            var readable := t.op.resource == c.resourceUrl && t.op.token.counter <= 9_007_199_254_740_991
                            && t.op.token.mac == Mac(g, t.op.token.counter, current.key);
            var own := readable && Lives(c, w.mem, t.at, g) && w.mem.grants[g].clientId == t.op.clientId;
            var selected := if t.op.scopes.Some? then t.op.scopes.value else current.scopes;
            var right := own && t.op.token.counter == current.counter && {} < selected <= current.scopes;
            && (a == Failed(InvalidTarget) <==> t.op.resource != c.resourceUrl)
            && (a == Failed(InvalidToken) <==> readable && !Lives(c, w.mem, t.at, g))
            && (a == Failed(InvalidScope) <==> own && t.op.token.counter == current.counter && !({} < selected <= current.scopes))
            && (a == Failed(TemporarilyUnavailable) <==> right && !Room(w.mem, t.at))
            && (a.Issued? <==> right && Room(w.mem, t.at) && t.ok) && (a.Issued? ==> a.scopes == selected)
            && (a == Failed(WriteFailed) <==>
                  (right && Room(w.mem, t.at) && !t.ok) || (own && t.op.token.counter != current.counter && !t.ok))
            && (a.Failed? || a.Issued?)
            && (a.Failed? ==> a.error in {InvalidTarget, InvalidToken, InvalidScope, TemporarilyUnavailable, WriteFailed, InvalidGrant})
  {
    hide Prune;
    PrunedTokens(w.mem, t.at);
  }

  /** What names no code and no rotation of this server is refused, and changes nothing. */
  lemma UnknownAnswers(c: Config, w: World, t: Timed)
    requires (t.op.OpExchangeCode? && t.op.resource == c.resourceUrl && t.op.code !in w.mem.codes)
             || (t.op.OpChallenge? && t.op.code !in w.mem.codes)
             || (t.op.OpExchangeRefresh? && t.op.resource == c.resourceUrl
                 && !(t.op.token.Signed? && t.op.token.id in w.mem.refresh))
             || ((t.op.OpApprove? || t.op.OpDeny?) && FindPending(w.mem.pending, t.op.id) == |w.mem.pending|)
    ensures Step(c, w, t) == (w, Failed(InvalidGrant))
  {
  }

  /** An access token is accepted exactly while it and its grant live; looking changes nothing. */
  lemma VerifyAnswers(c: Config, w: World, t: Timed)
    requires t.op.OpVerify?
    ensures var (r, a) := Step(c, w, t);
            var k := t.op.access;
            var accepted := k in w.mem.tokens && t.at < w.mem.tokens[k].expiresAt && Lives(c, w.mem, t.at, w.mem.tokens[k].grantId);
            && r == w
            && a == (if accepted then Verified(w.mem.tokens[k].clientId, w.mem.tokens[k].grantId, w.mem.tokens[k].scopes)
                     else Failed(InvalidToken))
  {
  }

  /** The challenge of a code is shown exactly to the client that could exchange it. */
  lemma ChallengeAnswers(c: Config, w: World, t: Timed)
    requires t.op.OpChallenge? && t.op.code in w.mem.codes
    ensures var (r, a) := Step(c, w, t);
            var entry := w.mem.codes[t.op.code];
            var known := entry.clientId == t.op.clientId && t.at < entry.expiresAt;
            && (a == Done <==> known && !entry.used && Lives(c, w.mem, t.at, entry.grantId))
            && (a == Failed(InvalidToken) <==> known && !entry.used && !Lives(c, w.mem, t.at, entry.grantId))
            && (a == Failed(WriteFailed) <==> known && entry.used && entry.grantId in w.mem.grants && !t.ok)
            && (a == Done || (a.Failed? && a.error in {InvalidToken, WriteFailed, InvalidGrant}))
            && (!(known && entry.used) ==> r == w)
  {
  }

  /** The owner is shown exactly the grants that have not expired. */
  lemma ListAnswers(c: Config, w: World, t: Timed)
    requires t.op.OpListGrants?
    ensures var (r, a) := Step(c, w, t);
            && a == Shown(map g | g in w.mem.grants && t.at < w.mem.grants[g].expiresAt :: w.mem.grants[g])
            && r.disk == w.disk && r.mem.grants == a.grants && r.mem.clients == w.mem.clients
  {
    hide Unexpired;
  }

  /** Revoking answers the same whether or not there was anything to revoke, unless the write throws. */
  lemma RevokeAnswers(c: Config, w: World, t: Timed)
    requires t.op.OpRevokeToken? || t.op.OpRevokeGrant? || t.op.OpRevokeAll?
    ensures var (r, a) := Step(c, w, t);
            && (a == Done || (a == Failed(WriteFailed) && !t.ok))
            && (t.op.OpRevokeGrant? ==> (a == Failed(WriteFailed) <==> t.op.id in w.mem.grants && !t.ok))
            && (t.op.OpRevokeAll? ==> (a == Done <==> t.ok))
            && (r.mem == w.mem ==> a == Done || t.op.OpRevokeAll?)
            && r.mem.clients == w.mem.clients && r.mem.pending == (if t.op.OpRevokeAll? then [] else w.mem.pending)
  {
  }
}
