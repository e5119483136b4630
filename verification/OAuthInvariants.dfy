/** What every operation of the OAuth server keeps, in memory and in the repository (src/http/oauth.ts). */
module OAuthInvariants {
  import opened Basics
  import opened OAuthModel

  // ---------- What holds in every reachable world ----------

  /** Random values come from below `n`. */
  ghost predicate Below(s: Store, n: nat) {
    && (forall i :: 0 <= i < |s.clients| ==> s.clients[i].id < n)
    && (forall i :: 0 <= i < |s.pending| ==> s.pending[i].id < n)
    && (forall k :: k in s.codes ==> k < n)
    && (forall g :: g in s.grants ==> g < n)
    && (forall k :: k in s.tokens ==> k < n && s.tokens[k].grantId < n)
  }

  /** A code names a grant that exists and outlives it; a grant has one code, unused only while it has no
      refresh token. */
  ghost predicate CodesLinked(s: Store) {
    && (forall k :: k in s.codes ==>
          var g := s.codes[k].grantId;
          g in s.grants && s.codes[k].clientId == s.grants[g].clientId && s.codes[k].expiresAt <= s.grants[g].expiresAt
          && (!s.codes[k].used ==> g !in s.refresh))
    && (forall j, k :: j in s.codes && k in s.codes && s.codes[j].grantId == s.codes[k].grantId ==> j == k)
  }

  /** A refresh entry names a grant that exists, for some of its scopes. */
  ghost predicate RefreshLinked(s: Store) {
    forall g :: g in s.refresh ==> g in s.grants && s.refresh[g].scopes <= s.grants[g].scopes
  }

  ghost predicate TokensLinked(s: Store) {
    forall k :: k in s.tokens && s.tokens[k].grantId in s.grants ==>
      var g := s.grants[s.tokens[k].grantId];
      s.tokens[k].clientId == g.clientId && s.tokens[k].scopes <= g.scopes
  }

  ghost predicate ScopesWithin(c: Config, s: Store) {
    && (forall g :: g in s.grants ==> {} < s.grants[g].scopes <= c.scopes)
    && (forall i :: 0 <= i < |s.pending| ==> {} < s.pending[i].scopes <= c.scopes)
  }

  ghost predicate Linked(c: Config, s: Store) {
    CodesLinked(s) && RefreshLinked(s) && TokensLinked(s) && ScopesWithin(c, s)
  }

  ghost predicate Sound(c: Config, s: Store, n: nat) {
    Below(s, n) && Linked(c, s)
  }

  /** Where memory and repository both have a grant they agree on it and its rotation, where both have a code, on its
      use; and the repository has the codes in memory of the grants it has. */
  ghost predicate Agree(a: Store, b: Store) {
    && (forall g :: g in a.grants && g in b.grants ==>
          && a.grants[g] == b.grants[g] && (g in a.refresh <==> g in b.refresh)
          && (g in a.refresh && g in b.refresh ==> a.refresh[g] == b.refresh[g]))
    && (forall k :: k in a.codes && k in b.codes ==> a.codes[k] == b.codes[k])
    && (forall k :: k in a.codes && a.codes[k].grantId in b.grants ==> k in b.codes)
  }

  ghost predicate Inv(c: Config, w: World) {
    && Sound(c, w.mem, w.supply) && Sound(c, w.disk, w.supply)
    && Agree(w.mem, w.disk)
  }

  // ---------- How a store may change ----------

  /** What an operation that issues nothing may do to grants, rotations and codes: drop them, or add new ones;
      before a code or an access token expires it goes only with its grant. */
  ghost predicate Evolves(next: Store, s: Store, n: nat, now: int) {
    && (forall g :: g in next.grants ==> (g in s.grants && next.grants[g] == s.grants[g]) || (g >= n && g !in next.refresh))
    && (forall g :: g in next.refresh ==> g in s.refresh && next.refresh[g] == s.refresh[g])
    && (forall g :: g in next.grants && g in s.refresh && g < n ==> g in next.refresh)
    && (forall k :: k in next.codes ==> (k in s.codes && next.codes[k] == s.codes[k]) || (k >= n && next.codes[k].grantId >= n))
    && (forall k :: k in s.codes && k < n && s.codes[k].expiresAt > now && s.codes[k].grantId < n && s.codes[k].grantId in next.grants ==>
          k in next.codes)
    && (forall k :: k in s.tokens && k < n && s.tokens[k].expiresAt > now && s.tokens[k].grantId < n && s.tokens[k].grantId in next.grants ==>
          k in next.tokens && next.tokens[k] == s.tokens[k])
  }

  lemma EvolvesAgree(c: Config, next: Store, s: Store, other: Store, n: nat, now: int)
    requires Evolves(next, s, n, now) && Agree(s, other) && Below(other, n) && Linked(c, other)
    ensures Agree(next, other)
  {
  }

  lemma {:induction false} UnexpiredSubset(ps: seq<Pending>, now: int)
    ensures forall p :: p in Unexpired(ps, now) ==> p in ps && p.expiresAt > now
  {
    if ps != [] {
      UnexpiredSubset(ps[..|ps| - 1], now);
    }
  }

  lemma PruneBelow(s: Store, now: int, n: nat)
    requires Below(s, n)
    ensures Below(Prune(s, now), n)
  {
    UnexpiredSubset(s.pending, now);
    var p := Prune(s, now);
    forall i | 0 <= i < |p.pending| ensures p.pending[i].id < n {
      assert p.pending[i] in s.pending;
    }
  }

  lemma PruneScopes(c: Config, s: Store, now: int)
    requires ScopesWithin(c, s)
    ensures ScopesWithin(c, Prune(s, now))
  {
    UnexpiredSubset(s.pending, now);
    var p := Prune(s, now);
    forall i | 0 <= i < |p.pending| ensures {} < p.pending[i].scopes <= c.scopes {
      assert p.pending[i] in s.pending;
    }
  }

  lemma PruneCodes(s: Store, now: int)
    requires CodesLinked(s)
    ensures CodesLinked(Prune(s, now))
  {
    hide Unexpired;
  }

  lemma PruneRefresh(s: Store, now: int)
    requires RefreshLinked(s)
    ensures RefreshLinked(Prune(s, now))
  {
    hide Unexpired;
  }

  lemma PruneTokens(s: Store, now: int)
    requires TokensLinked(s)
    ensures TokensLinked(Prune(s, now))
  {
    hide Unexpired;
  }

  lemma PruneLinked(c: Config, s: Store, now: int)
    requires Linked(c, s)
    ensures Linked(c, Prune(s, now))
  {
    hide CodesLinked, RefreshLinked, TokensLinked, ScopesWithin, Prune;
    PruneCodes(s, now);
    PruneRefresh(s, now);
    PruneTokens(s, now);
    PruneScopes(c, s, now);
  }

  lemma PruneEvolves(c: Config, s: Store, now: int, n: nat)
    requires Linked(c, s)
    ensures Evolves(Prune(s, now), s, n, now)
  {
  }

  lemma PruneKeeps(c: Config, s: Store, now: int, n: nat)
    requires Sound(c, s, n)
    ensures Sound(c, Prune(s, now), n) && Evolves(Prune(s, now), s, n, now)
  {
    hide Below, Linked, Evolves, Prune;
    PruneBelow(s, now, n);
    PruneLinked(c, s, now);
    PruneEvolves(c, s, now, n);
  }

  lemma WithoutGrantKeeps(c: Config, s: Store, id: Id, n: nat, now: int)
    requires Sound(c, s, n)
    ensures Sound(c, WithoutGrant(s, id), n) && Evolves(WithoutGrant(s, id), s, n, now)
  {
  }

  lemma EvolvesTwice(a: Store, b: Store, s: Store, m: nat, n: nat, now: int)
    requires Evolves(a, b, m, now) && Evolves(b, s, n, now) && n <= m
    ensures Evolves(a, s, n, now)
  {
  }

  lemma ClientsLinked(c: Config, s: Store, clients: seq<Client>)
    requires Linked(c, s)
    ensures Linked(c, s.(clients := clients))
  {
  }

  /** Changing the registrations changes nothing else. */
  lemma ClientsKeep(c: Config, s: Store, clients: seq<Client>, n: nat, m: nat, now: int)
    requires Sound(c, s, n) && n <= m && forall x :: x in clients ==> x.id < m
    ensures var r := s.(clients := clients); Sound(c, r, m) && Evolves(r, s, n, now)
  {
    hide Linked;
    ClientsLinked(c, s, clients);
    assert forall i :: 0 <= i < |clients| ==> clients[i] in clients;
  }

  lemma RemoveAtSubset<T>(q: seq<T>, i: nat)
    requires i < |q|
    ensures forall x :: x in RemoveAt(q, i) ==> x in q
  {
  }

  /** Changing the pending requests to ones that were there, or a sound new one. */
  lemma PendingKeeps(c: Config, s: Store, pending: seq<Pending>, n: nat, m: nat, now: int)
    requires Sound(c, s, n) && n <= m
    requires forall p :: p in pending ==> p in s.pending || (p.id < m && {} < p.scopes <= c.scopes)
    ensures var r := s.(pending := pending); Sound(c, r, m) && Evolves(r, s, n, now)
  {
    hide CodesLinked, RefreshLinked, TokensLinked;
    PendingLinked(c, s, pending, n, m);
  }

  lemma PendingLinked(c: Config, s: Store, pending: seq<Pending>, n: nat, m: nat)
    requires Sound(c, s, n) && n <= m
    requires forall p :: p in pending ==> p in s.pending || (p.id < m && {} < p.scopes <= c.scopes)
    ensures var r := s.(pending := pending);
            CodesLinked(r) && RefreshLinked(r) && TokensLinked(r)
            && forall i :: 0 <= i < |pending| ==> pending[i].id < m && {} < pending[i].scopes <= c.scopes
  {
    forall i | 0 <= i < |pending| ensures pending[i].id < m && {} < pending[i].scopes <= c.scopes {
      assert pending[i] in pending;
    }
  }

  lemma WithoutPendingSubset(ps: seq<Pending>, id: Id)
    ensures forall p :: p in WithoutPending(ps, id) ==> p in ps
  {
    var i := FindPending(ps, id);
    if i < |ps| {
      RemoveAtSubset(ps, i);
    }
  }

  lemma MakeRoomSubset(l: Limits, ps: seq<Pending>, requester: nat)
    ensures forall p :: p in MakeRoom(l, ps, requester) ==> p in ps
  {
    var i := Evicted(l, ps, requester);
    if i < |ps| {
      RemoveAtSubset(ps, i);
    }
  }

  lemma {:induction false} DropStaleSubset(s: Store, clients: seq<Client>, now: int)
    ensures forall x :: x in DropStale(s, clients, now) ==> x in clients
    ensures forall x :: x in clients && InUse(s, x.id) ==> x in DropStale(s, clients, now)
  {
    if clients != [] {
      DropStaleSubset(s, clients[..|clients| - 1], now);
    }
  }

  function Approved(s: Store, n: nat, grant: Grant, entry: Code): Store {
    s.(grants := s.grants[n := grant], codes := s.codes[n + 1 := entry])
  }

  lemma ApprovedLinked(c: Config, s: Store, n: nat, grant: Grant, entry: Code)
    requires Sound(c, s, n)
    requires {} < grant.scopes <= c.scopes
    requires entry.grantId == n && entry.clientId == grant.clientId && entry.expiresAt <= grant.expiresAt && !entry.used
    ensures Linked(c, Approved(s, n, grant, entry))
  {
    assert n !in s.refresh && n !in s.grants;
    assert forall k :: k in s.codes ==> s.codes[k].grantId != n && k != n + 1;
    assert forall k :: k in s.tokens ==> s.tokens[k].grantId != n;
  }

  /** An approved consent: its grant and its code are new. */
  lemma ApproveKeeps(c: Config, s: Store, n: nat, grant: Grant, entry: Code, now: int)
    requires Sound(c, s, n)
    requires {} < grant.scopes <= c.scopes
    requires entry.grantId == n && entry.clientId == grant.clientId && entry.expiresAt <= grant.expiresAt && !entry.used
    ensures var r := Approved(s, n, grant, entry); Sound(c, r, n + 2) && Evolves(r, s, n, now)
  {
    ApprovedLinked(c, s, n, grant, entry);
    assert n !in s.refresh && n !in s.grants;
  }

  lemma WithTokensKeeps(
    c: Config, s: Store, n: nat, grantId: Id, scopes: set<Scope>, code: Option<Id>, until: int)
    requires Sound(c, s, n)
    requires grantId in s.grants && scopes <= s.grants[grantId].scopes
    requires code.Some? ==> code.value in s.codes && s.codes[code.value].grantId == grantId
    requires code.None? ==> grantId in s.refresh
    ensures var r := WithTokens(s, grantId, s.grants[grantId].clientId, scopes, code, n, n + 1, until);
            Sound(c, r, n + 2)
  {
  }

  // ---------- What every operation does ----------

  /** The three ways the world can change. */
  datatype Change = Kept | Reissued(grantId: Id, clientId: Id, scopes: set<Scope>, code: Option<Id>) | Restarted

  /** A change that issues nothing: the store evolves, and the repository holds it or what it held. */
  ghost predicate KeptBy(c: Config, w: World, now: int, r: World) {
    && w.supply <= r.supply && Sound(c, r.mem, r.supply) && Evolves(r.mem, w.mem, w.supply, now)
    && (r.disk == w.disk || r.disk == r.mem)
  }

  /** A successful issue: from a live grant, for scopes within its current ones, memory and repository alike. */
  ghost predicate IssuedBy(c: Config, w: World, t: Timed, r: World, ch: Change) {
    && ch.Reissued? && t.ok && r.supply == w.supply + 2 && r.disk == r.mem
    && (var s := Prune(w.mem, t.at);
        && LiveGrant(c, w.mem, t.at, ch.grantId) && ch.clientId == s.grants[ch.grantId].clientId
        && ch.scopes <= (if ch.grantId in s.refresh then s.refresh[ch.grantId].scopes else s.grants[ch.grantId].scopes)
        && (if ch.code.Some?
            then ch.code.value in s.codes && s.codes[ch.code.value].grantId == ch.grantId && !s.codes[ch.code.value].used
            else ch.grantId in s.refresh)
        && r.mem == WithTokens(s, ch.grantId, ch.clientId, ch.scopes, ch.code, w.supply, w.supply + 1, t.at + 5 * 60_000))
  }

  /** Saving a sound store that evolved from the one in memory, whether or not the write succeeds. */
  lemma SaveKept(c: Config, w: World, s: Store, n: nat, ok: bool, done: Answer, now: int)
    requires Inv(c, w) && w.supply <= n && Sound(c, s, n) && Evolves(s, w.mem, w.supply, now)
    ensures KeptBy(c, w, now, Save(w.(supply := n), s, ok, done).0)
  {
  }

  /** Registrations whose ids come from below `m`, put in place after pruning. */
  lemma PrunedClientsKeep(c: Config, w: World, now: int, clients: seq<Client>, m: nat)
    requires Inv(c, w) && w.supply <= m && forall x :: x in clients ==> x.id < m
    ensures var r := Prune(w.mem, now).(clients := clients); Sound(c, r, m) && Evolves(r, w.mem, w.supply, now)
  {
    hide Sound, Evolves, Prune, Agree;
    var p := Prune(w.mem, now);
    PruneKeeps(c, w.mem, now, w.supply);
    ClientsKeep(c, p, clients, w.supply, m, now);
    EvolvesTwice(p.(clients := clients), p, w.mem, w.supply, w.supply, now);
  }

  lemma RegisterKept(c: Config, w: World, t: Timed)
    requires Inv(c, w) && t.op.OpRegister?
    ensures KeptBy(c, w, t.at, Step(c, w, t).0)
  {
    hide Sound, Evolves, Prune, Inv, DropStale, OldestIdle, InUse, Agree, RemoveAt;
    var n := w.supply;
    var p := Prune(w.mem, t.at);
    var live := DropStale(p, p.clients, t.at);
    RegisteredBelow(c, w, t.at);
    PrunedClientsKeep(c, w, t.at, live, n);
    NothingKept(c, w, t.at);
    var idle := OldestIdle(p.(clients := live), live);
    var kept := if |live| >= c.limits.clients && idle >= 0 then RemoveAt(live, idle) else live;
    if idle >= 0 {
      RemoveAtSubset(live, idle);
    }
    var client := Client(n, t.op.redirectUris, t.at / 1000);
    assert forall x :: x in kept + [client] ==> x in live || x == client;
    PrunedClientsKeep(c, w, t.at, kept + [client], n + 1);
  }

  lemma RegisteredBelow(c: Config, w: World, now: int)
    requires Inv(c, w)
    ensures var p := Prune(w.mem, now); forall x :: x in DropStale(p, p.clients, now) ==> x.id < w.supply
  {
    hide Linked;
    var p := Prune(w.mem, now);
    ClientsBelow(c, w.mem, w.supply);
    DropStaleSubset(p, p.clients, now);
  }

  lemma ClientsBelow(c: Config, s: Store, n: nat)
    requires Sound(c, s, n)
    ensures forall x :: x in s.clients ==> x.id < n
  {
  }

  lemma EvolvesSame(s: Store, n: nat, now: int)
    ensures Evolves(s, s, n, now)
  {
  }

  lemma AuthorizeKept(c: Config, w: World, t: Timed)
    requires Inv(c, w) && t.op.OpAuthorize?
    ensures KeptBy(c, w, t.at, Step(c, w, t).0)
  {
    hide Sound, Evolves, Prune, Agree, MakeRoom;
    var n := w.supply;
    var s := Prune(w.mem, t.at);
    PruneKeeps(c, w.mem, t.at, n);
    EvolvesSame(w.mem, n, t.at);
    MakeRoomSubset(c.limits, s.pending, t.op.requester);
    var asked := if t.op.scopes.Some? then t.op.scopes.value else c.scopes;
    if {} < asked <= c.scopes && t.op.challenge.Some? {
      var p := Pending(n, t.op.client.id, asked, t.op.redirectUri, t.op.challenge.value, t.at + 10 * 60_000, t.op.requester);
      var pending := MakeRoom(c.limits, s.pending, t.op.requester) + [p];
      PendingKeeps(c, s, pending, n, n + 1, t.at);
      EvolvesTwice(s.(pending := pending), s, w.mem, n, n, t.at);
    }
  }

  lemma {:induction false} FoundPending(s: Store, n: nat, c: Config, now: int, id: Id)
    requires Sound(c, s, n) && PendingRequest(s, now, id).Some?
    ensures {} < PendingRequest(s, now, id).value.scopes <= c.scopes
  {
  }

  lemma GrantedKeeps(c: Config, s: Store, n: nat, grant: Grant, entry: Code, id: Id, now: int)
    requires Sound(c, s, n)
    requires {} < grant.scopes <= c.scopes
    requires entry.grantId == n && entry.clientId == grant.clientId && entry.expiresAt <= grant.expiresAt && !entry.used
    ensures var r := Granted(s, n, grant, n + 1, entry, id); Sound(c, r, n + 2) && Evolves(r, s, n, now)
  {
    hide Sound, Evolves, WithoutPending;
    var a := Approved(s, n, grant, entry);
    ApproveKeeps(c, s, n, grant, entry, now);
    var pending := WithoutPending(s.pending, id);
    WithoutPendingSubset(s.pending, id);
    PendingKeeps(c, a, pending, n + 2, n + 2, now);
    EvolvesTwice(a.(pending := pending), a, s, n + 2, n, now);
  }

  lemma PrunedKept(c: Config, w: World, now: int)
    requires Inv(c, w)
    ensures KeptBy(c, w, now, w.(mem := Prune(w.mem, now)))
  {
    hide Sound, Evolves, Prune, Agree;
    PruneKeeps(c, w.mem, now, w.supply);
  }

  lemma ConsentedKept(c: Config, w: World, t: Timed, grant: Grant, entry: Code, id: Id)
    requires Inv(c, w) && {} < grant.scopes <= c.scopes
    requires entry.grantId == w.supply && entry.clientId == grant.clientId && entry.expiresAt <= grant.expiresAt && !entry.used
    ensures var n := w.supply;
            KeptBy(c, w, t.at, Save(w.(supply := n + 2), Granted(Prune(w.mem, t.at), n, grant, n + 1, entry, id), t.ok, Redirected(n + 1)).0)
  {
    hide Sound, Evolves, Prune, Agree, Granted, Save, KeptBy;
    var n, s := w.supply, Prune(w.mem, t.at);
    PruneKeeps(c, w.mem, t.at, n);
    GrantedKeeps(c, s, n, grant, entry, id, t.at);
    EvolvesTwice(Granted(s, n, grant, n + 1, entry, id), s, w.mem, n, n, t.at);
    SaveKept(c, w, Granted(s, n, grant, n + 1, entry, id), n + 2, t.ok, Redirected(n + 1), t.at);
  }

  lemma ApproveKept(c: Config, w: World, t: Timed)
    requires Inv(c, w) && t.op.OpApprove?
    ensures KeptBy(c, w, t.at, Step(c, w, t).0)
  {
    hide Sound, Prune, Agree, Granted, PendingRequest, Save, KeptBy;
    PrunedKept(c, w, t.at);
    NothingKept(c, w, t.at);
    var p := PendingRequest(w.mem, t.at, t.op.id);
    if p.Some? {
      FoundPending(w.mem, w.supply, c, t.at, t.op.id);
      var selected := if t.op.scopes.Some? then t.op.scopes.value else p.value.scopes;
      if {} < selected <= p.value.scopes {
        var grant := Grant(c.resourceUrl, p.value.clientId, selected, t.op.childIds, t.at, t.at + 30 * DAY);
        var entry := Code(p.value.clientId, w.supply, p.value.redirectUri, p.value.challenge, t.at + 60_000, false);
        ConsentedKept(c, w, t, grant, entry, t.op.id);
      }
    }
  }

  lemma RevokeKept(c: Config, w: World, ok: bool, id: Id, next: Answer, now: int)
    requires Inv(c, w)
    ensures KeptBy(c, w, now, Revoke(w, ok, id, next).0)
    ensures Revoke(w, ok, id, next).1 in {next, Failed(WriteFailed)}
  {
    hide Sound, Evolves, WithoutGrant, Agree;
    EvolvesSame(w.mem, w.supply, now);
    WithoutGrantKeeps(c, w.mem, id, w.supply, now);
  }

  lemma EmptyKeeps(c: Config, s: Store, n: nat, now: int)
    requires Sound(c, s, n)
    ensures var r := EMPTY.(clients := s.clients); Sound(c, r, n) && Evolves(r, s, n, now)
  {
  }

  lemma OtherKept(c: Config, w: World, t: Timed)
    requires Inv(c, w)
    requires t.op.OpDeny? || t.op.OpChallenge? || t.op.OpVerify? || t.op.OpRevokeToken? || t.op.OpRevokeGrant?
             || t.op.OpRevokeAll? || t.op.OpListGrants?
    ensures KeptBy(c, w, t.at, Step(c, w, t).0)
  {
    hide Sound, Evolves, Prune, Agree, WithoutPending, Revoke;
    EvolvesSame(w.mem, w.supply, t.at);
    match t.op
    case OpRevokeAll =>
      EmptyKeeps(c, w.mem, w.supply, t.at);
    case OpDeny(id) =>
      WithoutPendingSubset(w.mem.pending, id);
      PendingKeeps(c, w.mem, WithoutPending(w.mem.pending, id), w.supply, w.supply, t.at);
    case OpChallenge(client, code) =>
      if code in w.mem.codes {
        RevokeKept(c, w, t.ok, w.mem.codes[code].grantId, Failed(InvalidGrant), t.at);
      }
    case OpRevokeToken(client, presented) =>
      match presented {
        case Access(a) =>
          if a in w.mem.tokens {
            RevokeKept(c, w, t.ok, w.mem.tokens[a].grantId, Done, t.at);
          }
        case Refreshing(r) =>
          if r.Signed? {
            RevokeKept(c, w, t.ok, r.id, Done, t.at);
          }
      }
    case OpRevokeGrant(id) => RevokeKept(c, w, t.ok, id, Done, t.at);
    case OpListGrants => PruneKeeps(c, w.mem, t.at, w.supply);
    case _ =>
  }

  lemma PruneAt(w: World, now: int)
    ensures var s := Prune(w.mem, now);
            && (forall g :: g in w.mem.grants && w.mem.grants[g].expiresAt > now ==>
                  g in s.grants && s.grants[g] == w.mem.grants[g] && (g in s.refresh <==> g in w.mem.refresh))
            && (forall g :: g in s.refresh ==> s.refresh[g] == w.mem.refresh[g])
            && (forall k :: k in w.mem.codes && w.mem.codes[k].expiresAt > now ==> k in s.codes && s.codes[k] == w.mem.codes[k])
  {
  }

  lemma IssueChanges(
    c: Config, w: World, t: Timed, grantId: Id, scopes: set<Scope>, code: Option<Id>)
    requires Inv(c, w) && LiveGrant(c, w.mem, t.at, grantId)
    requires scopes <= if grantId in w.mem.refresh then w.mem.refresh[grantId].scopes else w.mem.grants[grantId].scopes
    requires code.Some? ==> CodePresented(w.mem, t.at, w.mem.grants[grantId].clientId, code.value)
                            && w.mem.codes[code.value].grantId == grantId && !w.mem.codes[code.value].used
    requires code.None? ==> grantId in w.mem.refresh
    ensures var ch := Reissued(grantId, w.mem.grants[grantId].clientId, scopes, code);
            var (r, a) := Issue(w, t.at, t.ok, grantId, ch.clientId, scopes, code);
            if a.Issued? then IssuedBy(c, w, t, r, ch) else KeptBy(c, w, t.at, r)
  {
    hide Sound, Evolves, Prune, Agree, WithTokens;
    PruneKeeps(c, w.mem, t.at, w.supply);
    SoundMore(c, Prune(w.mem, t.at), w.supply, w.supply + 2);
    PruneAt(w, t.at);
  }

  /** What an issue hands out: the scopes, and a refresh token signed for the counter it wrote. */
  ghost predicate Hands(a: Answer, r: World, ch: Change) {
    r.supply >= 2 && ch.Reissued? && ch.grantId in r.mem.refresh
    && (var rotation := r.mem.refresh[ch.grantId];
        a == Issued(r.supply - 1, Signed(ch.grantId, rotation.counter, Mac(ch.grantId, rotation.counter, rotation.key)), ch.scopes))
  }

  lemma IssueHands(w: World, now: int, ok: bool, grantId: Id, clientId: Id, scopes: set<Scope>, code: Option<Id>)
    ensures var (r, a) := Issue(w, now, ok, grantId, clientId, scopes, code);
            a.Issued? ==> Hands(a, r, Reissued(grantId, clientId, scopes, code))
  {
    hide Prune;
  }

  lemma CodeOf(c: Config, w: World, now: int, client: Id, code: Id)
    requires Inv(c, w) && CodePresented(w.mem, now, client, code)
    ensures var stored := w.mem.codes[code];
            stored.grantId in w.mem.grants && w.mem.grants[stored.grantId].clientId == client
            && (!stored.used ==> stored.grantId !in w.mem.refresh)
  {
  }

  lemma ExchangeCodeChanges(c: Config, w: World, t: Timed) returns (ch: Change)
    requires Inv(c, w) && t.op.OpExchangeCode?
    ensures var (r, a) := Step(c, w, t);
            if ch == Kept then KeptBy(c, w, t.at, r) && !a.Issued?
            else ch.Reissued? && IssuedBy(c, w, t, r, ch) && Hands(a, r, ch) && ch.code == Some(t.op.code)
  {
    hide Inv, KeptBy, IssuedBy, Revoke, Issue, Hands;
    ch := Kept;
    NothingKept(c, w, t.at);
    var client, code := t.op.clientId, t.op.code;
    if CodePresented(w.mem, t.at, client, code) {
      CodeOf(c, w, t.at, client, code);
      var stored := w.mem.codes[code];
      var grant := w.mem.grants[stored.grantId];
      RevokeKept(c, w, t.ok, stored.grantId, Failed(InvalidGrant), t.at);
      if !stored.used && LiveGrant(c, w.mem, t.at, stored.grantId) {
        IssueChanges(c, w, t, stored.grantId, grant.scopes, Some(code));
        IssueHands(w, t.at, t.ok, stored.grantId, grant.clientId, grant.scopes, Some(code));
        if Step(c, w, t).1.Issued? {
          ch := Reissued(stored.grantId, grant.clientId, grant.scopes, Some(code));
        }
      }
    }
  }

  lemma NothingKept(c: Config, w: World, now: int)
    requires Inv(c, w)
    ensures KeptBy(c, w, now, w)
  {
  }

  lemma ExchangeRefreshChanges(c: Config, w: World, t: Timed) returns (ch: Change)
    requires Inv(c, w) && t.op.OpExchangeRefresh?
    ensures var (r, a) := Step(c, w, t);
            if ch == Kept then KeptBy(c, w, t.at, r) && !a.Issued?
            else ch.Reissued? && IssuedBy(c, w, t, r, ch) && Hands(a, r, ch) && ch.code == None && PresentsCurrent(w, t.op.token, ch.grantId)
  {
    hide Inv, KeptBy, IssuedBy, Revoke, Issue, Hands;
    ch := Kept;
    NothingKept(c, w, t.at);
    var token := t.op.token;
    if Readable(w.mem, token) {
      RevokeKept(c, w, t.ok, token.id, Failed(InvalidGrant), t.at);
      var selected := if t.op.scopes.Some? then t.op.scopes.value else w.mem.refresh[token.id].scopes;
      if LiveGrant(c, w.mem, t.at, token.id) && selected <= w.mem.refresh[token.id].scopes {
        var client := w.mem.grants[token.id].clientId;
        IssueChanges(c, w, t, token.id, selected, None);
        IssueHands(w, t.at, t.ok, token.id, client, selected, None);
        if Step(c, w, t).1.Issued? {
          ch := Reissued(token.id, client, selected, None);
        }
      }
    }
  }

  /** The refresh token presented is the current one of grant `g`. */
  predicate PresentsCurrent(w: World, token: RefreshToken, g: Id) {
    token.Signed? && token.id == g && g in w.mem.refresh && token.counter == w.mem.refresh[g].counter
  }

  /** Every operation keeps, issues or restarts. */
  lemma StepChanges(c: Config, w: World, t: Timed) returns (ch: Change)
    requires Inv(c, w)
    ensures var (r, a) := Step(c, w, t);
            match ch
            case Kept => KeptBy(c, w, t.at, r) && !a.Issued? && !t.op.OpRestart?
            case Reissued(g, _, scopes, code) =>
              && IssuedBy(c, w, t, r, ch) && Hands(a, r, ch)
              && ((t.op.OpExchangeCode? && code == Some(t.op.code))
                  || (t.op.OpExchangeRefresh? && code == None && PresentsCurrent(w, t.op.token, g)))
            case Restarted => t.op.OpRestart? && !a.Issued?
  {
    hide Inv, KeptBy, IssuedBy, Revoke, Issue, Hands, PresentsCurrent, ExchangeCode, ExchangeRefresh;
    ch := Kept;
    if !t.op.OpExchangeCode? && !t.op.OpExchangeRefresh? {
      OtherAnswers(c, w, t);
    }
    match t.op {
      case OpRegister(_) => RegisterKept(c, w, t);
      case OpAuthorize(_, _, _, _, _, _) => AuthorizeKept(c, w, t);
      case OpApprove(_, _, _) => ApproveKept(c, w, t);
      case OpExchangeCode(_, _, _, _) => ch := ExchangeCodeChanges(c, w, t);
      case OpExchangeRefresh(_, _, _, _) => ch := ExchangeRefreshChanges(c, w, t);
      case OpRestart => ch := Restarted;
      case _ => OtherKept(c, w, t);
    }
  }

  lemma OtherAnswers(c: Config, w: World, t: Timed)
    requires !t.op.OpExchangeCode? && !t.op.OpExchangeRefresh?
    ensures !Step(c, w, t).1.Issued?
  {
  }

  lemma RestartIs(c: Config, w: World, t: Timed)
    requires t.op.OpRestart?
    ensures Step(c, w, t).0 == w.(mem := w.disk)
  {
  }

  lemma IssueWithin(c: Config, w: World, t: Timed, r: World, ch: Change)
    requires IssuedBy(c, w, t, r, ch) && Inv(c, w)
    ensures var s := Prune(w.mem, t.at); ch.grantId in s.grants && ch.scopes <= s.grants[ch.grantId].scopes
  {
    PruneAt(w, t.at);
  }

  /** Integrity: codes and refresh entries name existing grants, scopes nest, memory and repository agree. */
  lemma StepInv(c: Config, w: World, t: Timed)
    requires Inv(c, w)
    ensures Inv(c, Step(c, w, t).0)
  {
    hide Below, Linked, Evolves, Agree, Prune, Step, WithTokens;
    var ch := StepChanges(c, w, t);
    var r := Step(c, w, t).0;
    match ch
    case Kept =>
      BelowMore(w.disk, w.supply, r.supply);
      EvolvesAgree(c, r.mem, w.mem, w.disk, w.supply, t.at);
      AgreesWithItself(r.mem);
    case Reissued(g, clientId, scopes, code) =>
      PruneKeeps(c, w.mem, t.at, w.supply);
      PruneAt(w, t.at);
      IssueWithin(c, w, t, r, ch);
      WithTokensKeeps(c, Prune(w.mem, t.at), w.supply, g, scopes, code, t.at + 5 * 60_000);
      AgreesWithItself(r.mem);
    case Restarted =>
      AgreesWithItself(r.mem);
      assert r.mem == w.disk && r.disk == w.disk && r.supply == w.supply by {
        RestartIs(c, w, t);
      }
  }

  lemma AgreesWithItself(s: Store)
    ensures Agree(s, s)
  {
  }

  lemma SoundMore(c: Config, s: Store, n: nat, m: nat)
    requires Sound(c, s, n) && n <= m
    ensures Sound(c, s, m)
  {
    hide Linked;
  }

  lemma BelowMore(s: Store, n: nat, m: nat)
    requires Below(s, n) && n <= m
    ensures Below(s, m)
  {
  }
}
