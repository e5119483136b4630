/**
 * The tables anonymous callers can fill: registrations and consent requests. Nothing in use is evicted, the
 * caps hold, and room is made at the expense of whoever holds the most (src/http/oauth.ts).
 */
module OAuthTables {
  import opened Basics
  import opened OAuthModel
  import opened OAuthInvariants

  // ---------- What every reachable store satisfies ----------

  ghost predicate Registered(clients: seq<Client>, id: Id) {
    exists i :: 0 <= i < |clients| && clients[i].id == id
  }

  /** Every pending request and every grant names a registered client. */
  ghost predicate Known(s: Store) {
    && (forall i :: 0 <= i < |s.pending| ==> Registered(s.clients, s.pending[i].clientId))
    && (forall g :: g in s.grants ==> Registered(s.clients, s.grants[g].clientId))
  }

  ghost predicate Capped(l: Limits, ps: seq<Pending>) {
    |ps| <= l.pending && forall r :: Held(ps, r) <= l.pendingPerRequester
  }

  ghost predicate Tables(c: Config, s: Store) {
    Known(s) && |s.clients| <= c.limits.clients && Capped(c.limits, s.pending)
  }

  // ---------- Counting ----------

  lemma {:induction false} HeldRemoved(ps: seq<Pending>, i: nat, r: nat)
    requires i < |ps|
    ensures Held(RemoveAt(ps, i), r) == Held(ps, r) - if ps[i].requester == r then 1 else 0
  {
    var n := |ps| - 1;
    if i < n {
      HeldRemoved(ps[..n], i, r);
      assert RemoveAt(ps, i)[..n - 1] == RemoveAt(ps[..n], i);
    } else {
      assert RemoveAt(ps, i) == ps[..n];
    }
  }

  lemma {:induction false} HeldUnexpired(ps: seq<Pending>, now: int, r: nat)
    ensures Held(Unexpired(ps, now), r) <= Held(ps, r) && |Unexpired(ps, now)| <= |ps|
  {
    if ps != [] {
      HeldUnexpired(ps[..|ps| - 1], now, r);
      var init := Unexpired(ps[..|ps| - 1], now);
      assert (init + [ps[|ps| - 1]])[..|init|] == init;
    }
  }

  lemma HeldPushed(ps: seq<Pending>, p: Pending, r: nat)
    ensures Held(ps + [p], r) == Held(ps, r) + if p.requester == r then 1 else 0
  {
    assert (ps + [p])[..|ps|] == ps;
  }

  lemma {:induction false} HeldWitness(ps: seq<Pending>, r: nat)
    ensures Held(ps, r) > 0 <==> exists i :: 0 <= i < |ps| && ps[i].requester == r
    ensures Held(ps, r) > 0 <==> FirstOwn(ps, r) < |ps|
    ensures forall j :: 0 <= j < FirstOwn(ps, r) ==> ps[j].requester != r
  {
    if ps != [] {
      HeldWitness(ps[..|ps| - 1], r);
    }
  }

  lemma {:induction false} HeaviestIsFirst(ps: seq<Pending>, n: nat)
    requires 1 <= n <= |ps|
    ensures var b := Heaviest(ps, n);
            && (forall j :: 0 <= j < n ==> Held(ps, ps[j].requester) <= Held(ps, ps[b].requester))
            && (forall j :: 0 <= j < b ==> Held(ps, ps[j].requester) < Held(ps, ps[b].requester))
  {
    if n > 1 {
      HeaviestIsFirst(ps, n - 1);
    }
  }

  /** The heaviest holder's first request is the only position like it. */
  lemma HeaviestIsOnly(ps: seq<Pending>, i: nat)
    requires i < |ps|
    requires forall j :: 0 <= j < |ps| ==> Held(ps, ps[j].requester) <= Held(ps, ps[i].requester)
    requires forall j :: 0 <= j < i ==> Held(ps, ps[j].requester) < Held(ps, ps[i].requester)
    ensures i == Heaviest(ps, |ps|)
  {
    HeaviestIsFirst(ps, |ps|);
  }

  // ---------- Eviction ----------

  /** The caps hold after one more request is let in. */
  lemma RoomKeepsCaps(l: Limits, ps: seq<Pending>, p: Pending)
    requires l.Valid() && Capped(l, ps)
    ensures Capped(l, MakeRoom(l, ps, p.requester) + [p])
  {
    var i := Evicted(l, ps, p.requester);
    HeldWitness(ps, p.requester);
    forall r ensures Held(MakeRoom(l, ps, p.requester) + [p], r) <= l.pendingPerRequester {
      HeldPushed(MakeRoom(l, ps, p.requester), p, r);
      if i < |ps| {
        HeldRemoved(ps, i, r);
      }
    }
  }

  /** Another caller loses a request only when the table is full, only to one within the cap of its own, only if
      nobody holds more, and then the oldest of its requests. */
  lemma EvictionIsFair(l: Limits, ps: seq<Pending>, requester: nat)
    requires l.Valid()
    ensures var i := Evicted(l, ps, requester);
            i < |ps| ==>
              && (forall j :: 0 <= j < i ==> ps[j].requester != ps[i].requester)
              && (ps[i].requester != requester ==>
                    && |ps| >= l.pending && Held(ps, requester) < l.pendingPerRequester
                    && forall r :: Held(ps, r) <= Held(ps, ps[i].requester))
  {
    var i := Evicted(l, ps, requester);
    HeldWitness(ps, requester);
    if i < |ps| && Held(ps, requester) < l.pendingPerRequester {
      HeaviestIsFirst(ps, |ps|);
      forall r ensures Held(ps, r) <= Held(ps, ps[i].requester) {
        HeldWitness(ps, r);
      }
    }
  }

  function Requesters(ps: seq<Pending>): set<nat> {
    set i | 0 <= i < |ps| :: ps[i].requester
  }

  lemma {:induction false} OneEach(ps: seq<Pending>)
    requires forall r :: Held(ps, r) <= 1
    ensures |Requesters(ps)| == |ps|
  {
    if ps != [] {
      var n := |ps| - 1;
      var init, last := ps[..n], ps[n].requester;
      forall r ensures Held(init, r) <= 1 {
        assert Held(init, r) <= Held(ps, r);
      }
      OneEach(init);
      assert Held(ps, last) == Held(init, last) + 1;
      HeldWitness(init, last);
      assert last !in Requesters(init);
      assert Requesters(ps) == Requesters(init) + {last};
    }
  }

  /** A caller's only request goes to make room for another caller only if the table holds requests of at least
      as many callers as it has slots. */
  lemma SingleRequestSurvives(l: Limits, ps: seq<Pending>, requester: nat)
    requires l.Valid()
    ensures var i := Evicted(l, ps, requester);
            i < |ps| && ps[i].requester != requester && Held(ps, ps[i].requester) == 1 ==> |Requesters(ps)| >= l.pending
  {
    EvictionIsFair(l, ps, requester);
    var i := Evicted(l, ps, requester);
    if i < |ps| && ps[i].requester != requester && Held(ps, ps[i].requester) == 1 {
      OneEach(ps);
    }
  }

  // ---------- Registrations ----------

  lemma {:induction false} OldestIdleIs(s: Store, clients: seq<Client>)
    ensures var b := OldestIdle(s, clients);
            && (b >= 0 ==> !InUse(s, clients[b].id))
            && (forall j :: 0 <= j < |clients| && !InUse(s, clients[j].id) ==>
                  b >= 0 && clients[b].issuedAt <= clients[j].issuedAt
                  && (clients[b].issuedAt == clients[j].issuedAt ==> b <= j))
  {
    hide InUse;
    if clients != [] {
      OldestIdleIs(s, clients[..|clients| - 1]);
    }
  }

  lemma {:induction false} DropStaleIs(s: Store, clients: seq<Client>, now: int)
    ensures var kept := DropStale(s, clients, now);
            && |kept| <= |clients|
            && (forall x :: x in kept <==> x in clients && (x.issuedAt * 1000 + DAY > now || InUse(s, x.id)))
  {
    hide InUse;
    if clients != [] {
      DropStaleIs(s, clients[..|clients| - 1], now);
    }
  }

  lemma InUseRegistered(s: Store, clients: seq<Client>)
    requires Known(s) && forall x :: x in s.clients && InUse(s, x.id) ==> x in clients
    ensures Known(s.(clients := clients))
  {
    forall id | Registered(s.clients, id) && InUse(s, id) ensures Registered(clients, id) {
      var i :| 0 <= i < |s.clients| && s.clients[i].id == id;
      assert s.clients[i] in clients;
    }
    forall i | 0 <= i < |s.pending| ensures Registered(clients, s.pending[i].clientId) {
      assert InUse(s, s.pending[i].clientId);
    }
  }

  /** Room for a registration is made at the expense of the oldest idle one only; with every slot in use the
      caller is turned away, and otherwise it is registered. */
  lemma RegisterEvictsIdle(c: Config, w: World, t: Timed)
    requires t.op.OpRegister? && t.op.redirectUris != {} && t.op.redirectUris <= c.callbacks
    ensures var (r, a) := Step(c, w, t);
            var s := Prune(w.mem, t.at);
            var live := DropStale(s, s.clients, t.at);
            && (forall x :: x in s.clients && InUse(s, x.id) ==> x in r.mem.clients)
            && (a == Failed(TemporarilyUnavailable) <==> |live| >= c.limits.clients && forall x :: x in live ==> InUse(s, x.id))
            && (a != Failed(TemporarilyUnavailable) ==>
                  exists client: Client :: client in r.mem.clients && client.id == w.supply && client.redirectUris == t.op.redirectUris)
  {
    hide Prune, DropStale, OldestIdle, InUse;
    var s := Prune(w.mem, t.at);
    var live := DropStale(s, s.clients, t.at);
    var after := s.(clients := live);
    DropStaleIs(s, s.clients, t.at);
    OldestIdleIs(after, live);
    forall id ensures InUse(after, id) == InUse(s, id) {
      InUseOf(s, live, id);
    }
    var b := OldestIdle(after, live);
    if b >= 0 {
      forall x | x in live && InUse(s, x.id) ensures x in RemoveAt(live, b) {
        RemovedOnly(live, b, x);
      }
    }
    if |live| < c.limits.clients || b >= 0 {
      var r := Step(c, w, t).0;
      assert r.mem.clients[|r.mem.clients| - 1] == Client(w.supply, t.op.redirectUris, t.at / 1000);
    }
    assert forall j :: 0 <= j < |live| ==> live[j] in live;
    assert forall x :: x in live ==> exists j :: 0 <= j < |live| && live[j] == x;
  }

  lemma InUseOf(s: Store, clients: seq<Client>, id: Id)
    ensures InUse(s.(clients := clients), id) == InUse(s, id)
  {
  }

  lemma RemovedOnly<T>(q: seq<T>, i: nat, x: T)
    requires i < |q| && x in q && x != q[i]
    ensures x in RemoveAt(q, i)
  {
    var j :| 0 <= j < |q| && q[j] == x;
    assert RemoveAt(q, i)[if j < i then j else j - 1] == x;
  }

  // ---------- Every operation ----------

  lemma FewerTables(c: Config, s: Store, r: Store)
    requires Tables(c, s) && r.clients == s.clients
    requires forall g :: g in r.grants ==> g in s.grants && r.grants[g] == s.grants[g]
    requires forall p :: p in r.pending ==> p in s.pending
    requires |r.pending| <= |s.pending| && forall x :: Held(r.pending, x) <= Held(s.pending, x)
    ensures Tables(c, r)
  {
    hide Registered, Held;
    forall i | 0 <= i < |r.pending| ensures Registered(r.clients, r.pending[i].clientId) {
      assert r.pending[i] in s.pending;
    }
  }

  lemma PruneTables(c: Config, s: Store, now: int)
    requires Tables(c, s)
    ensures Tables(c, Prune(s, now))
  {
    hide Known, Capped, Unexpired;
    UnexpiredSubset(s.pending, now);
    forall x {
      HeldUnexpired(s.pending, now, x);
    }
    HeldUnexpired(s.pending, now, 0);
    FewerTables(c, s, Prune(s, now));
  }

  lemma RemovedTables(c: Config, s: Store, i: nat)
    requires Tables(c, s) && i < |s.pending|
    ensures Tables(c, s.(pending := RemoveAt(s.pending, i)))
  {
    hide Known, Capped;
    forall x {
      HeldRemoved(s.pending, i, x);
    }
    FewerTables(c, s, s.(pending := RemoveAt(s.pending, i)));
  }

  lemma RevokeTables(c: Config, w: World, ok: bool, id: Id, next: Answer)
    requires Tables(c, w.mem) && Tables(c, w.disk)
    ensures var r := Revoke(w, ok, id, next).0; Tables(c, r.mem) && Tables(c, r.disk)
  {
    hide Known, Capped;
    FewerTables(c, w.mem, WithoutGrant(w.mem, id));
  }

  lemma IssueTables(c: Config, w: World, now: int, ok: bool, g: Id, clientId: Id, scopes: set<Scope>, code: Option<Id>)
    requires Tables(c, w.mem) && Tables(c, w.disk)
    ensures var r := Issue(w, now, ok, g, clientId, scopes, code).0; Tables(c, r.mem) && Tables(c, r.disk)
  {
    hide Known, Capped, Prune;
    var s := Prune(w.mem, now);
    PruneTables(c, w.mem, now);
    FewerTables(c, s, WithTokens(s, g, clientId, scopes, code, w.supply, w.supply + 1, now + 5 * 60_000));
  }

  lemma RegisterTables(c: Config, w: World, t: Timed)
    requires Tables(c, w.mem) && Tables(c, w.disk) && t.op.OpRegister?
    ensures var r := Step(c, w, t).0; Tables(c, r.mem) && Tables(c, r.disk)
  {
    hide Prune, Capped, InUse, DropStale, OldestIdle, Known, RemoveAt;
    var s := Prune(w.mem, t.at);
    PruneTables(c, w.mem, t.at);
    var live := DropStale(s, s.clients, t.at);
    DropStaleIs(s, s.clients, t.at);
    InUseRegistered(s, live);
    var after := s.(clients := live);
    var b := OldestIdle(after, live);
    var kept := if |live| >= c.limits.clients && b >= 0 then RemoveAt(live, b) else live;
    if b >= 0 {
      OldestIdleIs(after, live);
      RemovedLength(live, b);
      forall x | x in live && InUse(after, x.id) ensures x in RemoveAt(live, b) {
        RemovedOnly(live, b, x);
      }
    }
    InUseRegistered(after, kept);
    PushedKnown(after.(clients := kept), Client(w.supply, t.op.redirectUris, t.at / 1000));
  }

  lemma RemovedLength<T>(q: seq<T>, i: nat)
    requires i < |q|
    ensures |RemoveAt(q, i)| == |q| - 1
  {
  }

  lemma PushedKnown(s: Store, client: Client)
    requires Known(s)
    ensures Known(s.(clients := s.clients + [client]))
  {
    forall id | Registered(s.clients, id) ensures Registered(s.clients + [client], id) {
      var i :| 0 <= i < |s.clients| && s.clients[i].id == id;
      assert (s.clients + [client])[i].id == id;
    }
  }

  lemma RoomTables(c: Config, s: Store, requester: nat)
    requires Tables(c, s)
    ensures Tables(c, s.(pending := MakeRoom(c.limits, s.pending, requester)))
  {
    hide Tables, Evicted;
    var i := Evicted(c.limits, s.pending, requester);
    if i < |s.pending| {
      RemovedTables(c, s, i);
    }
  }

  lemma AdmittedTables(c: Config, s: Store, p: Pending)
    requires Tables(c, s) && c.limits.Valid()
    ensures var r := s.(pending := MakeRoom(c.limits, s.pending, p.requester) + [p]);
            Capped(c.limits, r.pending) && |r.clients| <= c.limits.clients
            && (Known(r) <==> Registered(s.clients, p.clientId))
  {
    hide MakeRoom, Registered, Capped;
    RoomTables(c, s, p.requester);
    RoomKeepsCaps(c.limits, s.pending, p);
    var r := s.(pending := MakeRoom(c.limits, s.pending, p.requester) + [p]);
    assert r.pending[|r.pending| - 1] == p;
  }

  lemma AuthorizeTables(c: Config, w: World, t: Timed)
    requires Tables(c, w.mem) && Tables(c, w.disk) && t.op.OpAuthorize? && c.limits.Valid()
    requires Registered(w.mem.clients, t.op.client.id)
    ensures var r := Step(c, w, t).0; Tables(c, r.mem) && Tables(c, r.disk)
  {
    hide Prune, MakeRoom, Known, Capped, Registered;
    var s := Prune(w.mem, t.at);
    PruneTables(c, w.mem, t.at);
    PruneClients(w.mem, t.at);
    if t.op.challenge.Some? {
      var asked := if t.op.scopes.Some? then t.op.scopes.value else c.scopes;
      var p := Pending(w.supply, t.op.client.id, asked, t.op.redirectUri, t.op.challenge.value, t.at + 10 * 60_000, t.op.requester);
      AdmittedTables(c, s, p);
    }
  }

  lemma PruneClients(s: Store, now: int)
    ensures Prune(s, now).clients == s.clients
  {
  }

  /** A request let in names a registered client exactly when the client the caller looked up was still
      registered: the two happen on either side of an await. */
  lemma AuthorizeKnown(c: Config, w: World, t: Timed)
    requires Tables(c, w.mem) && t.op.OpAuthorize? && c.limits.Valid()
    requires Step(c, w, t).1 in {Consent(w.supply), Failed(WriteFailed)}
    ensures Known(Step(c, w, t).0.mem) <==> Registered(w.mem.clients, t.op.client.id)
  {
    hide Prune, MakeRoom, Known, Capped, Registered;
    var s := Prune(w.mem, t.at);
    PruneTables(c, w.mem, t.at);
    PruneClients(w.mem, t.at);
    var asked := if t.op.scopes.Some? then t.op.scopes.value else c.scopes;
    var p := Pending(w.supply, t.op.client.id, asked, t.op.redirectUri, t.op.challenge.value, t.at + 10 * 60_000, t.op.requester);
    AdmittedTables(c, s, p);
  }

  lemma FoundClient(c: Config, s: Store, now: int, id: Id)
    requires Tables(c, s) && PendingRequest(s, now, id).Some?
    ensures Registered(s.clients, PendingRequest(s, now, id).value.clientId)
  {
  }

  lemma GrantedTables(c: Config, s: Store, g: Id, grant: Grant, code: Id, entry: Code, request: Id)
    requires Tables(c, s) && Registered(s.clients, grant.clientId)
    ensures Tables(c, Granted(s, g, grant, code, entry, request))
  {
    hide Registered, Capped, Held;
    WithoutTables(c, s, request);
    var r := Granted(s, g, grant, code, entry, request);
    var p := s.(pending := WithoutPending(s.pending, request));
    assert r.pending == p.pending && r.clients == s.clients;
  }

  lemma WithoutTables(c: Config, s: Store, request: Id)
    requires Tables(c, s)
    ensures Tables(c, s.(pending := WithoutPending(s.pending, request)))
  {
    hide Tables;
    var i := FindPending(s.pending, request);
    if i < |s.pending| {
      RemovedTables(c, s, i);
    }
  }

  lemma ApproveTables(c: Config, w: World, t: Timed)
    requires Tables(c, w.mem) && Tables(c, w.disk) && t.op.OpApprove?
    ensures var r := Step(c, w, t).0; Tables(c, r.mem) && Tables(c, r.disk)
  {
    hide Prune, Tables, Registered, Granted, PendingRequest;
    PruneTables(c, w.mem, t.at);
    PruneClients(w.mem, t.at);
    var p := PendingRequest(w.mem, t.at, t.op.id);
    if p.Some? {
      FoundClient(c, w.mem, t.at, t.op.id);
      var selected := if t.op.scopes.Some? then t.op.scopes.value else p.value.scopes;
      var grant := Grant(c.resourceUrl, p.value.clientId, selected, t.op.childIds, t.at, t.at + 30 * DAY);
      var entry := Code(p.value.clientId, w.supply, p.value.redirectUri, p.value.challenge, t.at + 60_000, false);
      GrantedTables(c, Prune(w.mem, t.at), w.supply, grant, w.supply + 1, entry, t.op.id);
    }
  }

  lemma TokenTables(c: Config, w: World, t: Timed)
    requires Tables(c, w.mem) && Tables(c, w.disk)
    requires t.op.OpExchangeCode? || t.op.OpExchangeRefresh? || t.op.OpChallenge? || t.op.OpRevokeToken? || t.op.OpRevokeGrant?
    ensures var r := Step(c, w, t).0; Tables(c, r.mem) && Tables(c, r.disk)
  {
    hide Tables, Issue, Revoke;
    forall g, next {
      RevokeTables(c, w, t.ok, g, next);
    }
    forall g, client, scopes, code {
      IssueTables(c, w, t.at, t.ok, g, client, scopes, code);
    }
  }

  /** The caps hold, and every request and grant names a registered client, in memory and in the repository, as
      long as no client is removed between its look-up and its authorization. */
  lemma StepTables(c: Config, w: World, t: Timed)
    requires c.limits.Valid() && Tables(c, w.mem) && Tables(c, w.disk)
    requires t.op.OpAuthorize? ==> Registered(w.mem.clients, t.op.client.id)
    ensures var r := Step(c, w, t).0; Tables(c, r.mem) && Tables(c, r.disk)
  {
    hide Prune, Known, Capped, Registered, WithoutPending;
    match t.op
    case OpRegister(_) => RegisterTables(c, w, t);
    case OpAuthorize(_, _, _, _, _, _) => AuthorizeTables(c, w, t);
    case OpApprove(_, _, _) => ApproveTables(c, w, t);
    case OpDeny(id) => WithoutTables(c, w.mem, id);
    case OpListGrants => PruneTables(c, w.mem, t.at);
    case OpRevokeAll => EmptyTables(c, w.mem);
    case OpVerify(_) =>
    case OpRestart =>
    case _ => TokenTables(c, w, t);
  }

  lemma EmptyTables(c: Config, s: Store)
    requires |s.clients| <= c.limits.clients
    ensures Tables(c, EMPTY.(clients := s.clients))
  {
    hide Registered;
  }

  /** Over a run: as above, after every operation. */
  lemma {:induction false} RunTables(c: Config, w: World, run: seq<Timed>)
    requires c.limits.Valid() && Tables(c, w.mem) && Tables(c, w.disk)
    requires forall i :: 0 <= i < |run| && run[i].op.OpAuthorize? ==>
               Registered(After(c, w, run[..i]).mem.clients, run[i].op.client.id)
    ensures Tables(c, After(c, w, run).mem) && Tables(c, After(c, w, run).disk)
    decreases |run|
  {
    hide Tables, Step, Registered;
    if run != [] {
      var n := |run| - 1;
      forall i | 0 <= i < n ensures run[..n][..i] == run[..i] {
      }
      RunTables(c, w, run[..n]);
      StepTables(c, After(c, w, run[..n]), run[n]);
    }
  }

  lemma StartTables(c: Config)
    ensures Tables(c, Start().mem) && Tables(c, Start().disk)
  {
  }
}
