/** The OAuth server as the process runs it: tables changed in place, loops that delete (src/http/oauth.ts). */
module OAuthProvider {
  import opened Basics
  import opened OAuthModel
  import opened OAuthTables

  class ConnectorOAuthProvider {
    const config: Config
    var clients: seq<Client>
    var pending: seq<Pending>
    var codes: map<Id, Code>
    var grants: map<Id, Grant>
    var tokens: map<Id, Token>
    var refresh: map<Id, Rotation>
    /** What the repository holds. */
    var stored: Store
    /** The next random value. */
    var supply: nat

    function Mem(): Store
      reads this
    {
      Store(clients, pending, codes, grants, tokens, refresh)
    }

    function State(): World
      reads this
    {
      World(Mem(), stored, supply)
    }

    /** A process starts from what the repository holds, if anything. */
    constructor (config: Config, repository: Option<Store>, supply: nat)
      ensures this.config == config
      ensures var s := if repository.Some? then repository.value else EMPTY; State() == World(s, s, supply)
    {
      this.config := config;
      var s := if repository.Some? then repository.value else EMPTY;
      clients, pending, codes, grants, tokens, refresh := s.clients, s.pending, s.codes, s.grants, s.tokens, s.refresh;
      stored := s;
      this.supply := supply;
    }

    method Random() returns (id: Id)
      modifies this`supply
      ensures id == old(supply) && supply == id + 1
    {
      id := supply;
      supply := supply + 1;
    }

    /** `save`: `ok` says whether the repository's write returns or throws. */
    method Write(ok: bool)
      modifies this`stored
      ensures stored == if ok then Mem() else old(stored)
    {
      if ok {
        stored := Mem();
      }
    }

    method PrunePending(now: int)
      modifies this`pending
      ensures pending == Unexpired(old(pending), now)
    {
      var all := pending;
      pending := [];
      for i := 0 to |all|
        invariant pending == Unexpired(all[..i], now)
      {
        assert all[..i + 1][..i] == all[..i];
        if all[i].expiresAt > now {
          pending := pending + [all[i]];
        }
      }
      assert all[..|all|] == all;
    }

    method PruneCodes(now: int)
      modifies this`codes
      ensures codes == map k | k in old(codes) && old(codes)[k].expiresAt > now :: old(codes)[k]
    {
      ghost var was := codes;
      var left := codes.Keys;
      while left != {}
        invariant left <= was.Keys
        invariant codes == map k | k in was && (k in left || was[k].expiresAt > now) :: was[k]
      {
        var k :| k in left;
        if codes[k].expiresAt <= now {
          codes := codes - {k};
        }
        left := left - {k};
      }
    }

    method PruneTokens(now: int)
      modifies this`tokens
      ensures tokens == map k | k in old(tokens) && old(tokens)[k].expiresAt > now :: old(tokens)[k]
    {
      ghost var was := tokens;
      var left := tokens.Keys;
      while left != {}
        invariant left <= was.Keys
        invariant tokens == map k | k in was && (k in left || was[k].expiresAt > now) :: was[k]
      {
        var k :| k in left;
        if tokens[k].expiresAt <= now {
          tokens := tokens - {k};
        }
        left := left - {k};
      }
    }

    method PruneGrants(now: int)
      modifies this`grants, this`refresh
      ensures grants == map k | k in old(grants) && old(grants)[k].expiresAt > now :: old(grants)[k]
      ensures refresh == map k | k in old(refresh) && !(k in old(grants) && old(grants)[k].expiresAt <= now) :: old(refresh)[k]
    {
      ghost var was, rotations := grants, refresh;
      var left := grants.Keys;
      while left != {}
        invariant left <= was.Keys
        invariant grants == map k | k in was && (k in left || was[k].expiresAt > now) :: was[k]
        invariant refresh == map k | k in rotations && (k in left || !(k in was && was[k].expiresAt <= now)) :: rotations[k]
      {
        var k :| k in left;
        if grants[k].expiresAt <= now {
          grants := grants - {k};
          refresh := refresh - {k};
        }
        left := left - {k};
      }
    }

    method PruneAll(now: int)
      modifies this`pending, this`codes, this`tokens, this`grants, this`refresh
      ensures Mem() == Prune(old(Mem()), now)
    {
      PrunePending(now);
      PruneCodes(now);
      PruneTokens(now);
      PruneGrants(now);
    }

    method RevokeGrant(ok: bool, id: Id, next: Answer) returns (a: Answer)
      modifies this
      ensures (State(), a) == Revoke(old(State()), ok, id, next)
    {
      if id !in grants {
        return next;
      }
      grants := grants - {id};
      refresh := refresh - {id};
      DropTokens(id);
      DropCodes(id);
      assert Mem() == WithoutGrant(old(Mem()), id);
      Write(ok);
      a := if ok then next else Failed(WriteFailed);
    }

    method DropTokens(id: Id)
      modifies this`tokens
      ensures tokens == map k | k in old(tokens) && old(tokens)[k].grantId != id :: old(tokens)[k]
    {
      ghost var was := tokens;
      var left := tokens.Keys;
      while left != {}
        invariant left <= was.Keys
        invariant tokens == map k | k in was && (k in left || was[k].grantId != id) :: was[k]
      {
        var k :| k in left;
        if tokens[k].grantId == id {
          tokens := tokens - {k};
        }
        left := left - {k};
      }
    }

    method DropCodes(id: Id)
      modifies this`codes
      ensures codes == map k | k in old(codes) && old(codes)[k].grantId != id :: old(codes)[k]
    {
      ghost var was := codes;
      var left := codes.Keys;
      while left != {}
        invariant left <= was.Keys
        invariant codes == map k | k in was && (k in left || was[k].grantId != id) :: was[k]
      {
        var k :| k in left;
        if codes[k].grantId == id {
          codes := codes - {k};
        }
        left := left - {k};
      }
    }

    // ---------- Registration ----------

    method DropStaleClients(now: int)
      modifies this`clients
      ensures clients == DropStale(old(Mem()), old(clients), now)
    {
      ghost var s := Mem();
      var all := clients;
      clients := [];
      for i := 0 to |all|
        invariant clients == DropStale(s, all[..i], now)
      {
        assert all[..i + 1][..i] == all[..i];
        InUseOf(s, clients, all[i].id);
        if !(all[i].issuedAt * 1000 + DAY <= now && !InUse(Mem(), all[i].id)) {
          clients := clients + [all[i]];
        }
      }
      assert all[..|all|] == all;
    }

    method FindOldestIdle() returns (idle: int)
      ensures idle == OldestIdle(Mem(), clients)
    {
      idle := -1;
      for i := 0 to |clients|
        invariant -1 <= idle < i && idle == OldestIdle(Mem(), clients[..i])
      {
        assert clients[..i + 1][..i] == clients[..i];
        if !InUse(Mem(), clients[i].id) && (idle < 0 || clients[i].issuedAt < clients[idle].issuedAt) {
          idle := i;
        }
      }
      assert clients[..|clients|] == clients;
    }

    method RegisterClient(now: int, ok: bool, redirectUris: set<Uri>) returns (a: Answer)
      modifies this
      ensures (State(), a) == Register(config, old(State()), now, ok, redirectUris)
    {
      hide Prune, DropStale, OldestIdle;
      if redirectUris == {} || !(redirectUris <= config.callbacks) {
        return Failed(InvalidClientMetadata);
      }
      PruneAll(now);
      DropStaleClients(now);
      if |clients| >= config.limits.clients {
        var idle := FindOldestIdle();
        if idle < 0 {
          return Failed(TemporarilyUnavailable);
        }
        clients := RemoveAt(clients, idle);
      }
      var id := Random();
      var client := Client(id, redirectUris, now / 1000);
      clients := clients + [client];
      Write(ok);
      a := if ok then Registered(client) else Failed(WriteFailed);
    }
  
    // ---------- Consent ----------

    /** Position of the first of this caller's requests, and how many it has. */
    method FindOwn(requester: nat) returns (first: nat, count: nat)
      ensures first == FirstOwn(pending, requester) && count == Held(pending, requester)
    {
      first, count := |pending|, 0;
      for i := 0 to |pending|
        invariant count == Held(pending[..i], requester)
        invariant first == (if count == 0 then |pending| else FirstOwn(pending[..i], requester))
        invariant count == 0 <==> FirstOwn(pending[..i], requester) == i
      {
        assert pending[..i + 1][..i] == pending[..i];
        if pending[i].requester == requester {
          first, count := if count == 0 then i else first, count + 1;
        }
      }
      assert pending[..|pending|] == pending;
    }

    /** Groups the requests by caller. */
    method GroupRequests() returns (held: map<nat, Group>, callers: seq<nat>)
      ensures Grouped(pending, |pending|, held, callers)
    {
      hide Counts, Covers, Ordered;
      held, callers := map[], [];
      NothingGrouped(pending);
      for i := 0 to |pending|
        invariant Grouped(pending, i, held, callers)
      {
        var caller := pending[i].requester;
        GroupOne(pending, i, held, callers);
        if caller !in held {
          callers := callers + [caller];
        }
        held := held[caller := if caller in held then held[caller].Grown() else Group(i, 1)];
      }
    }

    /** The first request of the largest group, of the earliest such group on a tie. */
    method FindHeaviest() returns (r: nat)
      requires pending != []
      ensures r == Heaviest(pending, |pending|)
    {
      var held, callers := GroupRequests();
      SomeCaller(pending, held, callers);
      var best := 0;
      for k := 1 to |callers|
        invariant best < k
        invariant forall m :: 0 <= m < k ==> held[callers[m]].count <= held[callers[best]].count
        invariant forall m :: 0 <= m < best ==> held[callers[m]].count < held[callers[best]].count
      {
        if held[callers[k]].count > held[callers[best]].count {
          best := k;
        }
      }
      r := held[callers[best]].first;
      PickedIsHeaviest(pending, held, callers, best);
    }

    method AdmitPending(requester: nat)
      modifies this`pending
      ensures pending == MakeRoom(config.limits, old(pending), requester)
    {
      var first, count := FindOwn(requester);
      HeldWitness(pending, requester);
      if count >= config.limits.pendingPerRequester {
        if first < |pending| {
          pending := RemoveAt(pending, first);
        }
      } else if |pending| >= config.limits.pending && pending != [] {
        var i := FindHeaviest();
        pending := RemoveAt(pending, i);
      }
    }

    method Authorize(
      now: int, ok: bool, client: Client, resource: Uri, redirectUri: Uri, challenge: Option<nat>,
      scopes: Option<set<Scope>>, requester: nat) returns (a: Answer)
      modifies this
      ensures (State(), a)
           == OAuthModel.Authorize(config, old(State()), now, ok, client, resource, redirectUri, challenge, scopes, requester)
    {
      hide Prune, MakeRoom;
      if resource != config.resourceUrl {
        return Failed(InvalidTarget);
      }
      if redirectUri !in client.redirectUris || redirectUri !in config.callbacks || challenge.None? {
        return Failed(InvalidRequest);
      }
      PruneAll(now);
      var asked := if scopes.Some? then scopes.value else config.scopes;
      if asked == {} || !(asked <= config.scopes) {
        return Failed(InvalidScope);
      }
      AdmitPending(requester);
      var id := Random();
      pending := pending + [Pending(id, client.id, asked, redirectUri, challenge.value, now + 10 * 60_000, requester)];
      Write(ok);
      a := if ok then Consent(id) else Failed(WriteFailed);
    }

    method Approve(now: int, ok: bool, id: Id, scopes: Option<set<Scope>>, childIds: set<int>) returns (a: Answer)
      modifies this
      ensures (State(), a) == OAuthModel.Approve(config, old(State()), now, ok, id, scopes, childIds)
    {
      hide Prune, WithoutPending, PendingRequest;
      var p := PendingRequest(Mem(), now, id);
      if p.None? {
        return Failed(InvalidGrant);
      }
      var selected := if scopes.Some? then scopes.value else p.value.scopes;
      if selected == {} || !(selected <= p.value.scopes) {
        return Failed(InvalidScope);
      }
      if childIds == {} || exists child :: child in childIds && !(0 < child <= MAX_SAFE_INTEGER) {
        return Failed(InvalidRequest);
      }
      PruneAll(now);
      if |grants| >= MAX_GRANTS {
        return Failed(TemporarilyUnavailable);
      }
      var grantId := Random();
      grants := grants[
        grantId := Grant(config.resourceUrl, p.value.clientId, selected, childIds, now, now + 30 * DAY)];
      var code := Random();
      codes := codes[
        code := Code(p.value.clientId, grantId, p.value.redirectUri, p.value.challenge, now + 60_000, false)];
      pending := WithoutPending(pending, id);
      Write(ok);
      a := if ok then Redirected(code) else Failed(WriteFailed);
    }

    method Deny(now: int, ok: bool, id: Id) returns (a: Answer)
      modifies this
      ensures (State(), a) == OAuthModel.Deny(old(State()), now, ok, id)
    {
      if PendingRequest(Mem(), now, id).None? {
        return Failed(InvalidGrant);
      }
      pending := WithoutPending(pending, id);
      Write(ok);
      a := if ok then Done else Failed(WriteFailed);
    }

    // ---------- Tokens ----------

    /** Works on a copy, which replaces the state only after the write succeeds. */
    method Issue(now: int, ok: bool, grantId: Id, clientId: Id, scopes: set<Scope>, code: Option<Id>) returns (a: Answer)
      modifies this
      ensures (State(), a) == OAuthModel.Issue(old(State()), now, ok, grantId, clientId, scopes, code)
    {
      hide Prune;
      PruneAll(now);
      if |tokens| >= MAX_TOKENS {
        return Failed(TemporarilyUnavailable);
      }
      var next := Mem();
      var key := Random();
      var current := if grantId in next.refresh then next.refresh[grantId] else Rotation(key, 0, scopes);
      current := current.(counter := current.counter + 1);
      current := current.(scopes := scopes);
      next := next.(refresh := next.refresh[grantId := current]);
      var access := Random();
      var token := Signed(grantId, current.counter, Mac(grantId, current.counter, current.key));
      next := next.(tokens := next.tokens[access := Token(clientId, grantId, scopes, now + 5 * 60_000)]);
      if code.Some? && code.value in next.codes {
        next := next.(codes := next.codes[code.value := next.codes[code.value].(used := true)]);
      }
      if !ok {
        return Failed(WriteFailed);
      }
      stored := next;
      codes, tokens, refresh := next.codes, next.tokens, next.refresh;
      a := Issued(access, token, scopes);
    }

    /** `code`: finds the entry, or the answer that refuses it. */
    method FindCode(now: int, ok: bool, client: Id, code: Id) returns (refused: Option<Answer>)
      modifies this
      ensures (State(), if refused.Some? then refused.value else Done) == Challenge(config, old(State()), now, ok, client, code)
      ensures refused.Some? ==> refused.value.Failed?
      ensures refused.None? ==>
                State() == old(State()) && CodePresented(Mem(), now, client, code) && !codes[code].used
                && LiveGrant(config, Mem(), now, codes[code].grantId)
    {
      if !CodePresented(Mem(), now, client, code) {
        return Some(Failed(InvalidGrant));
      }
      if codes[code].used {
        var a := RevokeGrant(ok, codes[code].grantId, Failed(InvalidGrant));
        return Some(a);
      }
      if !LiveGrant(config, Mem(), now, codes[code].grantId) {
        return Some(Failed(InvalidToken));
      }
      refused := None;
    }

    method ExchangeAuthorizationCode(now: int, ok: bool, client: Id, code: Id, redirectUri: Option<Uri>, resource: Uri)
      returns (a: Answer)
      modifies this
      ensures (State(), a) == ExchangeCode(config, old(State()), now, ok, client, code, redirectUri, resource)
    {
      hide Revoke, OAuthModel.Issue;
      if resource != config.resourceUrl {
        return Failed(InvalidTarget);
      }
      var refused := FindCode(now, ok, client, code);
      if refused.Some? {
        return refused.value;
      }
      if redirectUri != Some(codes[code].redirectUri) {
        return Failed(InvalidGrant);
      }
      var grant := grants[codes[code].grantId];
      a := Issue(now, ok, codes[code].grantId, grant.clientId, grant.scopes, Some(code));
    }

    method ExchangeRefreshToken(now: int, ok: bool, client: Id, token: RefreshToken, scopes: Option<set<Scope>>, resource: Uri)
      returns (a: Answer)
      modifies this
      ensures (State(), a) == ExchangeRefresh(config, old(State()), now, ok, client, token, scopes, resource)
    {
      hide Revoke, OAuthModel.Issue;
      if resource != config.resourceUrl {
        return Failed(InvalidTarget);
      }
      if !Readable(Mem(), token) {
        return Failed(InvalidGrant);
      }
      if !LiveGrant(config, Mem(), now, token.id) {
        return Failed(InvalidToken);
      }
      if grants[token.id].clientId != client {
        return Failed(InvalidGrant);
      }
      var current := refresh[token.id];
      if token.counter != current.counter {
        a := RevokeGrant(ok, token.id, Failed(InvalidGrant));
        return;
      }
      var selected := if scopes.Some? then scopes.value else current.scopes;
      if selected == {} || !(selected <= current.scopes) {
        return Failed(InvalidScope);
      }
      a := Issue(now, ok, token.id, client, selected, None);
    }

    method VerifyAccessToken(now: int, access: Id) returns (a: Answer)
      ensures (State(), a) == Verify(config, State(), now, access)
    {
      if access !in tokens || tokens[access].expiresAt <= now {
        return Failed(InvalidToken);
      }
      var token := tokens[access];
      if !LiveGrant(config, Mem(), now, token.grantId) {
        return Failed(InvalidToken);
      }
      a := Verified(token.clientId, token.grantId, token.scopes);
    }

    method ShowGrants(now: int) returns (a: Answer)
      modifies this
      ensures (State(), a) == ListGrants(old(State()), now)
    {
      hide Unexpired;
      PruneAll(now);
      a := Shown(grants);
    }

    method RevokeEverything(ok: bool) returns (a: Answer)
      modifies this
      ensures (State(), a) == RevokeAll(old(State()), ok)
    {
      grants, refresh, tokens, pending, codes := map[], map[], map[], [], map[];
      Write(ok);
      a := if ok then Done else Failed(WriteFailed);
    }

    method RevokePresented(ok: bool, client: Id, presented: Presented) returns (a: Answer)
      modifies this
      ensures (State(), a) == RevokeToken(old(State()), ok, client, presented)
    {
      hide Revoke;
      match presented {
        case Access(t) =>
          if t in tokens && tokens[t].clientId == client {
            a := RevokeGrant(ok, tokens[t].grantId, Done);
            return;
          }
        case Refreshing(r) =>
          if Readable(Mem(), r) && r.id in grants && grants[r.id].clientId == client {
            a := RevokeGrant(ok, r.id, Done);
            return;
          }
      }
      a := Done;
    }
  }

  // ---------- Grouping consent requests by caller ----------

  /** One caller's requests: the position of the first, and how many. */
  datatype Group = Group(first: nat, count: nat) {
    function Grown(): Group {
      Group(first, count + 1)
    }
  }

  ghost predicate Counts(ps: seq<Pending>, n: nat, held: map<nat, Group>) {
    n <= |ps| && forall r :: r in held ==>
      held[r].count == Held(ps[..n], r) > 0 && held[r].first < n && ps[held[r].first].requester == r
  }

  ghost predicate Covers(ps: seq<Pending>, n: nat, held: map<nat, Group>) {
    n <= |ps| && forall j :: 0 <= j < n ==> ps[j].requester in held && held[ps[j].requester].first <= j
  }

  ghost predicate Ordered(held: map<nat, Group>, callers: seq<nat>) {
    && (forall k :: 0 <= k < |callers| ==> callers[k] in held)
    && (forall r :: r in held ==> r in callers)
    && (forall k, m :: 0 <= k < m < |callers| ==> held[callers[k]].first < held[callers[m]].first)
  }

  /** The positions before `n`, grouped by caller in order of first appearance. */
  ghost predicate Grouped(ps: seq<Pending>, n: nat, held: map<nat, Group>, callers: seq<nat>) {
    Counts(ps, n, held) && Covers(ps, n, held) && Ordered(held, callers)
  }

  lemma NothingGrouped(ps: seq<Pending>)
    ensures Grouped(ps, 0, map[], [])
  {
  }

  lemma SomeCaller(ps: seq<Pending>, held: map<nat, Group>, callers: seq<nat>)
    requires Grouped(ps, |ps|, held, callers) && ps != []
    ensures callers != [] && forall k :: 0 <= k < |callers| ==> callers[k] in held
  {
    assert ps[0].requester in held;
  }

  lemma CountOne(ps: seq<Pending>, n: nat, held: map<nat, Group>)
    requires Counts(ps, n, held) && Covers(ps, n, held) && n < |ps|
    ensures var r := ps[n].requester; Counts(ps, n + 1, held[r := if r in held then held[r].Grown() else Group(n, 1)])
  {
    HeldWitness(ps[..n], ps[n].requester);
    forall r ensures Held(ps[..n + 1], r) == Held(ps[..n], r) + if ps[n].requester == r then 1 else 0 {
      assert ps[..n + 1][..n] == ps[..n];
    }
  }

  lemma GroupOne(ps: seq<Pending>, n: nat, held: map<nat, Group>, callers: seq<nat>)
    requires Grouped(ps, n, held, callers) && n < |ps|
    ensures var r := ps[n].requester;
            Grouped(ps, n + 1, held[r := if r in held then held[r].Grown() else Group(n, 1)],
                    if r in held then callers else callers + [r])
  {
    CountOne(ps, n, held);
    var r := ps[n].requester;
    var more := held[r := if r in held then held[r].Grown() else Group(n, 1)];
    assert Covers(ps, n + 1, more);
    FirstsBefore(ps, n, held, callers);
    var all := if r in held then callers else callers + [r];
    assert Ordered(more, all) by {
      hide Counts, Covers;
      assert forall k :: 0 <= k < |all| ==> all[k] == if k < |callers| then callers[k] else r;
    }
  }

  lemma FirstsBefore(ps: seq<Pending>, n: nat, held: map<nat, Group>, callers: seq<nat>)
    requires Grouped(ps, n, held, callers)
    ensures forall k :: 0 <= k < |callers| ==> held[callers[k]].first < n
  {
  }

  lemma PickedIsHeaviest(ps: seq<Pending>, held: map<nat, Group>, callers: seq<nat>, best: nat)
    requires Grouped(ps, |ps|, held, callers) && best < |callers|
    requires forall m :: 0 <= m < |callers| ==> held[callers[m]].count <= held[callers[best]].count
    requires forall m :: 0 <= m < best ==> held[callers[m]].count < held[callers[best]].count
    ensures held[callers[best]].first == Heaviest(ps, |ps|)
  {
    assert ps[..|ps|] == ps;
    var i := held[callers[best]].first;
    forall j | 0 <= j < |ps|
      ensures Held(ps, ps[j].requester) <= Held(ps, ps[i].requester)
      ensures j < i ==> Held(ps, ps[j].requester) < Held(ps, ps[i].requester)
    {
      var m :| 0 <= m < |callers| && callers[m] == ps[j].requester;
    }
    HeaviestIsOnly(ps, i);
  }
}
