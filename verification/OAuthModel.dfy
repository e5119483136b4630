/**
 * The connector's OAuth grants (src/http/oauth.ts): what every operation does to the state in memory and to
 * the copy the repository keeps.
 *
 * Ids, codes, tokens and keys are numbers from `supply`, so a random value never repeats; hashing a code or
 * an access token is injective and left out, and a refresh token carries the id, the counter and the key its
 * signature was made with. `ok` says whether the repository's write succeeds; when it throws, the operation
 * fails after whatever it has changed in memory. Each operation reads the clock once.
 */
module OAuthModel {
  import opened Basics

  type Id = nat
  type Scope = nat
  type Uri = nat

  const DAY := 86_400_000
  const MAX_GRANTS := 64
  const MAX_TOKENS := 8192
  const MAX_SAFE_INTEGER := 9_007_199_254_740_991

  datatype Client = Client(id: Id, redirectUris: set<Uri>, issuedAt: int)
  datatype Pending = Pending(
    id: Id, clientId: Id, scopes: set<Scope>, redirectUri: Uri, challenge: nat, expiresAt: int, requester: nat)
  datatype Code = Code(clientId: Id, grantId: Id, redirectUri: Uri, challenge: nat, expiresAt: int, used: bool)
  datatype Grant = Grant(
    resourceUrl: Uri, clientId: Id, scopes: set<Scope>, childIds: set<int>, createdAt: int, expiresAt: int)
  datatype Token = Token(clientId: Id, grantId: Id, scopes: set<Scope>, expiresAt: int)
  datatype Rotation = Rotation(key: Id, counter: nat, scopes: set<Scope>)

  datatype Store = Store(
    clients: seq<Client>, pending: seq<Pending>, codes: map<Id, Code>, grants: map<Id, Grant>,
    tokens: map<Id, Token>, refresh: map<Id, Rotation>)

  datatype World = World(mem: Store, disk: Store, supply: nat)

  datatype Limits = Limits(clients: nat, pending: nat, pendingPerRequester: nat) {
    predicate Valid() {
      pending >= 1 && pendingPerRequester >= 1
    }
  }

  datatype Config = Config(resourceUrl: Uri, scopes: set<Scope>, callbacks: set<Uri>, limits: Limits)

  datatype Mac = Mac(id: Id, counter: nat, key: Id)

  /** What a caller may present as a refresh token. */
  datatype RefreshToken = Unreadable | Signed(id: Id, counter: nat, mac: Mac)

  datatype Error =
    | InvalidClientMetadata | InvalidGrant | InvalidRequest | InvalidScope | InvalidTarget | InvalidToken
    | TemporarilyUnavailable | WriteFailed

  datatype Answer =
    | Failed(error: Error)
    | Done
    | Registered(client: Client)
    | Consent(id: Id)
    | Redirected(code: Id)
    | Issued(access: Id, refresh: RefreshToken, scopes: set<Scope>)
    | Verified(clientId: Id, grantId: Id, scopes: set<Scope>)
    | Shown(grants: map<Id, Grant>)

  const EMPTY := Store([], [], map[], map[], map[], map[])

  // ---------- Saving, pruning, revoking ----------

  function Save(w: World, mem: Store, ok: bool, done: Answer): (World, Answer) {
    if ok then (w.(mem := mem, disk := mem), done) else (w.(mem := mem), Failed(WriteFailed))
  }

  function Unexpired(ps: seq<Pending>, now: int): seq<Pending> {
    if ps == [] then []
    else
      var init := Unexpired(ps[..|ps| - 1], now);
      if ps[|ps| - 1].expiresAt > now then init + [ps[|ps| - 1]] else init
  }

  function Prune(s: Store, now: int): Store {
    s.(pending := Unexpired(s.pending, now),
    codes := map k | k in s.codes && s.codes[k].expiresAt > now :: s.codes[k],
    tokens := map k | k in s.tokens && s.tokens[k].expiresAt > now :: s.tokens[k],
    grants := map k | k in s.grants && s.grants[k].expiresAt > now :: s.grants[k],
    refresh := map k | k in s.refresh && !(k in s.grants && s.grants[k].expiresAt <= now) :: s.refresh[k])
  }

  function WithoutGrant(s: Store, id: Id): Store {
    s.(grants := s.grants - {id}, refresh := s.refresh - {id},
    tokens := map k | k in s.tokens && s.tokens[k].grantId != id :: s.tokens[k],
    codes := map k | k in s.codes && s.codes[k].grantId != id :: s.codes[k])
  }

  /** `revokeGrant`, answering `then` when it does not throw. */
  function Revoke(w: World, ok: bool, id: Id, next: Answer): (World, Answer) {
    if id in w.mem.grants then Save(w, WithoutGrant(w.mem, id), ok, next) else (w, next)
  }

  predicate LiveGrant(c: Config, s: Store, now: int, id: Id) {
    id in s.grants && s.grants[id].expiresAt > now && s.grants[id].resourceUrl == c.resourceUrl
  }

  // ---------- Registration ----------

  predicate InUse(s: Store, client: Id) {
    (exists g :: g in s.grants && s.grants[g].clientId == client)
    || (exists i :: 0 <= i < |s.pending| && s.pending[i].clientId == client)
  }

  function DropStale(s: Store, clients: seq<Client>, now: int): seq<Client> {
    if clients == [] then []
    else
      var init, last := DropStale(s, clients[..|clients| - 1], now), clients[|clients| - 1];
      if last.issuedAt * 1000 + DAY <= now && !InUse(s, last.id) then init else init + [last]
  }

  /** Position of the oldest registration not in use (the earliest of equals), -1 when all are in use. */
  function OldestIdle(s: Store, clients: seq<Client>): (r: int)
    ensures -1 <= r < |clients|
  {
    if clients == [] then -1
    else
      var n := |clients| - 1;
      var best := OldestIdle(s, clients[..n]);
      if InUse(s, clients[n].id) || (best >= 0 && clients[best].issuedAt <= clients[n].issuedAt) then best else n
  }

  function RemoveAt<T>(q: seq<T>, i: nat): seq<T>
    requires i < |q|
  {
    q[..i] + q[i + 1..]
  }

  function Register(c: Config, w: World, now: int, ok: bool, redirectUris: set<Uri>): (World, Answer) {
    if redirectUris == {} || !(redirectUris <= c.callbacks) then (w, Failed(InvalidClientMetadata))
    else
      var pruned := Prune(w.mem, now);
      var s := pruned.(clients := DropStale(pruned, pruned.clients, now));
      var idle := OldestIdle(s, s.clients);
      if |s.clients| >= c.limits.clients && idle < 0 then (w.(mem := s), Failed(TemporarilyUnavailable))
      else
        var kept := if |s.clients| >= c.limits.clients then RemoveAt(s.clients, idle) else s.clients;
        var client := Client(w.supply, redirectUris, now / 1000);
        Save(w.(supply := w.supply + 1), s.(clients := kept + [client]), ok, Registered(client))
  }

  // ---------- Consent ----------

  function Held(ps: seq<Pending>, requester: nat): nat {
    if ps == [] then 0
    else Held(ps[..|ps| - 1], requester) + if ps[|ps| - 1].requester == requester then 1 else 0
  }

  /** Position of the first request of whoever holds the most; of several such, of the one who came first. */
  function Heaviest(ps: seq<Pending>, n: nat): (r: nat)
    requires 1 <= n <= |ps|
    ensures r < n
  {
    if n == 1 then 0
    else
      var best := Heaviest(ps, n - 1);
      if Held(ps, ps[n - 1].requester) > Held(ps, ps[best].requester) then n - 1 else best
  }

  function FirstOwn(ps: seq<Pending>, requester: nat): (r: nat)
    ensures r <= |ps|
    ensures r < |ps| ==> ps[r].requester == requester
  {
    if ps == [] then 0
    else
      var r := FirstOwn(ps[..|ps| - 1], requester);
      if r < |ps| - 1 then r else if ps[|ps| - 1].requester == requester then |ps| - 1 else |ps|
  }

  /** Who makes room for one more request of `requester`: a position, or |ps| for nobody. */
  function Evicted(l: Limits, ps: seq<Pending>, requester: nat): (r: nat)
    ensures r <= |ps|
  {
    if Held(ps, requester) >= l.pendingPerRequester then FirstOwn(ps, requester)
    else if |ps| >= l.pending && ps != [] then Heaviest(ps, |ps|)
    else |ps|
  }

  function MakeRoom(l: Limits, ps: seq<Pending>, requester: nat): seq<Pending> {
    var i := Evicted(l, ps, requester);
    if i < |ps| then RemoveAt(ps, i) else ps
  }

  function Authorize(
    c: Config, w: World, now: int, ok: bool, client: Client, resource: Uri, redirectUri: Uri, challenge: Option<nat>,
    scopes: Option<set<Scope>>, requester: nat): (World, Answer)
  {
    if resource != c.resourceUrl then (w, Failed(InvalidTarget))
    else if redirectUri !in client.redirectUris || redirectUri !in c.callbacks || challenge.None? then
      (w, Failed(InvalidRequest))
    else
      var s := Prune(w.mem, now);
      var asked := if scopes.Some? then scopes.value else c.scopes;
      if asked == {} || !(asked <= c.scopes) then (w.(mem := s), Failed(InvalidScope))
      else
        var p := Pending(w.supply, client.id, asked, redirectUri, challenge.value, now + 10 * 60_000, requester);
        Save(w.(supply := w.supply + 1), s.(pending := MakeRoom(c.limits, s.pending, requester) + [p]), ok, Consent(p.id))
  }

  function FindPending(ps: seq<Pending>, id: Id): (r: nat)
    ensures r <= |ps|
    ensures r < |ps| ==> ps[r].id == id
  {
    if ps == [] then 0
    else if ps[0].id == id then 0
    else FindPending(ps[1..], id) + 1
  }

  function WithoutPending(ps: seq<Pending>, id: Id): seq<Pending> {
    var i := FindPending(ps, id);
    if i < |ps| then RemoveAt(ps, i) else ps
  }

  function PendingRequest(s: Store, now: int, id: Id): Option<Pending> {
    var i := FindPending(s.pending, id);
    if i < |s.pending| && s.pending[i].expiresAt > now then Some(s.pending[i]) else None
  }

  /** A consent becomes a grant with its code. */
  function Granted(s: Store, grantId: Id, grant: Grant, code: Id, entry: Code, request: Id): Store {
    s.(grants := s.grants[grantId := grant], codes := s.codes[code := entry], pending := WithoutPending(s.pending, request))
  }

  function Approve(
    c: Config, w: World, now: int, ok: bool, id: Id, scopes: Option<set<Scope>>, childIds: set<int>): (World, Answer)
  {
    var p := PendingRequest(w.mem, now, id);
    if p.None? then (w, Failed(InvalidGrant))
    else
      var selected := if scopes.Some? then scopes.value else p.value.scopes;
      if selected == {} || !(selected <= p.value.scopes) then (w, Failed(InvalidScope))
      else if childIds == {} || exists child :: child in childIds && !(0 < child <= MAX_SAFE_INTEGER) then
        (w, Failed(InvalidRequest))
      else
        var s := Prune(w.mem, now);
        if |s.grants| >= MAX_GRANTS then (w.(mem := s), Failed(TemporarilyUnavailable))
        else
          var grantId, code := w.supply, w.supply + 1;
          var grant := Grant(c.resourceUrl, p.value.clientId, selected, childIds, now, now + 30 * DAY);
          var entry := Code(p.value.clientId, grantId, p.value.redirectUri, p.value.challenge, now + 60_000, false);
          Save(w.(supply := w.supply + 2),
               Granted(s, grantId, grant, code, entry, id),
               ok, Redirected(code))
  }

  function Deny(w: World, now: int, ok: bool, id: Id): (World, Answer) {
    if PendingRequest(w.mem, now, id).None? then (w, Failed(InvalidGrant))
    else Save(w, w.mem.(pending := WithoutPending(w.mem.pending, id)), ok, Done)
  }

  // ---------- Tokens ----------

  function Rotated(s: Store, grantId: Id, key: Id, scopes: set<Scope>): Rotation {
    var current := if grantId in s.refresh then s.refresh[grantId] else Rotation(key, 0, scopes);
    current.(counter := current.counter + 1, scopes := scopes)
  }

  /** The state `issue` prepares: one more rotation, one more access token, the code marked as used. */
  function WithTokens(s: Store, grantId: Id, clientId: Id, scopes: set<Scope>, code: Option<Id>, key: Id, access: Id, until: int)
    : Store
  {
    s.(refresh := s.refresh[grantId := Rotated(s, grantId, key, scopes)],
    tokens := s.tokens[access := Token(clientId, grantId, scopes, until)],
    codes := if code.Some? && code.value in s.codes
             then s.codes[code.value := s.codes[code.value].(used := true)] else s.codes)
  }

  function Issue(
    w: World, now: int, ok: bool, grantId: Id, clientId: Id, scopes: set<Scope>, code: Option<Id>): (World, Answer)
  {
    var s := Prune(w.mem, now);
    if |s.tokens| >= MAX_TOKENS then (w.(mem := s), Failed(TemporarilyUnavailable))
    else
      var key, access := w.supply, w.supply + 1;
      var next := WithTokens(s, grantId, clientId, scopes, code, key, access, now + 5 * 60_000);
      var r := next.refresh[grantId];
      var used := w.(supply := w.supply + 2);
      // The next state is published only after the write succeeds.
      if ok then (used.(mem := next, disk := next), Issued(access, Signed(grantId, r.counter, Mac(grantId, r.counter, r.key)), scopes))
      else (used.(mem := s), Failed(WriteFailed))
  }

  predicate CodePresented(s: Store, now: int, client: Id, code: Id) {
    code in s.codes && s.codes[code].clientId == client && s.codes[code].expiresAt > now
  }

  function ExchangeCode(
    c: Config, w: World, now: int, ok: bool, client: Id, code: Id, redirectUri: Option<Uri>, resource: Uri): (World, Answer)
  {
    if resource != c.resourceUrl then (w, Failed(InvalidTarget))
    else if !CodePresented(w.mem, now, client, code) then (w, Failed(InvalidGrant))
    else
      var stored := w.mem.codes[code];
      if stored.used then Revoke(w, ok, stored.grantId, Failed(InvalidGrant))
      else if !LiveGrant(c, w.mem, now, stored.grantId) then (w, Failed(InvalidToken))
      else if redirectUri != Some(stored.redirectUri) then (w, Failed(InvalidGrant))
      else
        var grant := w.mem.grants[stored.grantId];
        Issue(w, now, ok, stored.grantId, grant.clientId, grant.scopes, Some(code))
  }

  /** `challengeForAuthorizationCode`: the same checks, before the verifier is compared. */
  function Challenge(c: Config, w: World, now: int, ok: bool, client: Id, code: Id): (World, Answer) {
    if !CodePresented(w.mem, now, client, code) then (w, Failed(InvalidGrant))
    else if w.mem.codes[code].used then Revoke(w, ok, w.mem.codes[code].grantId, Failed(InvalidGrant))
    else if !LiveGrant(c, w.mem, now, w.mem.codes[code].grantId) then (w, Failed(InvalidToken))
    else (w, Done)
  }

  /** `readRefresh`: the signature is checked against the key of the grant it names. */
  predicate Readable(s: Store, token: RefreshToken) {
    token.Signed? && token.id in s.refresh && token.counter <= MAX_SAFE_INTEGER
    && token.mac == Mac(token.id, token.counter, s.refresh[token.id].key)
  }

  function ExchangeRefresh(
    c: Config, w: World, now: int, ok: bool, client: Id, token: RefreshToken, scopes: Option<set<Scope>>, resource: Uri)
    : (World, Answer)
  {
    if resource != c.resourceUrl then (w, Failed(InvalidTarget))
    else if !Readable(w.mem, token) then (w, Failed(InvalidGrant))
    else if !LiveGrant(c, w.mem, now, token.id) then (w, Failed(InvalidToken))
    else if w.mem.grants[token.id].clientId != client then (w, Failed(InvalidGrant))
    else
      var current := w.mem.refresh[token.id];
      if token.counter != current.counter then Revoke(w, ok, token.id, Failed(InvalidGrant))
      else
        var selected := if scopes.Some? then scopes.value else current.scopes;
        if selected == {} || !(selected <= current.scopes) then (w, Failed(InvalidScope))
        else Issue(w, now, ok, token.id, client, selected, None)
  }

  function Verify(c: Config, w: World, now: int, access: Id): (World, Answer) {
    if access !in w.mem.tokens || w.mem.tokens[access].expiresAt <= now then (w, Failed(InvalidToken))
    else
      var token := w.mem.tokens[access];
      if !LiveGrant(c, w.mem, now, token.grantId) then (w, Failed(InvalidToken))
      else (w, Verified(token.clientId, token.grantId, token.scopes))
  }

  /** What a caller may present for revocation: an access token or a refresh token. */
  datatype Presented = Access(token: Id) | Refreshing(refresh: RefreshToken)

  function RevokeToken(w: World, ok: bool, client: Id, presented: Presented): (World, Answer) {
    match presented
    case Access(t) =>
      if t in w.mem.tokens && w.mem.tokens[t].clientId == client then Revoke(w, ok, w.mem.tokens[t].grantId, Done)
      else (w, Done)
    case Refreshing(r) =>
      if Readable(w.mem, r) && r.id in w.mem.grants && w.mem.grants[r.id].clientId == client
      then Revoke(w, ok, r.id, Done) else (w, Done)
  }

  function RevokeAll(w: World, ok: bool): (World, Answer) {
    Save(w, EMPTY.(clients := w.mem.clients), ok, Done)
  }

  function ListGrants(w: World, now: int): (World, Answer) {
    var s := Prune(w.mem, now);
    (w.(mem := s), Shown(s.grants))
  }

  // ---------- Every operation ----------

  datatype Op =
    | OpRegister(redirectUris: set<Uri>)
    | OpAuthorize(client: Client, resource: Uri, redirectUri: Uri, challenge: Option<nat>, scopes: Option<set<Scope>>, requester: nat)
    | OpApprove(id: Id, scopes: Option<set<Scope>>, childIds: set<int>)
    | OpDeny(id: Id)
    | OpChallenge(clientId: Id, code: Id)
    | OpExchangeCode(clientId: Id, code: Id, sentTo: Option<Uri>, resource: Uri)
    | OpExchangeRefresh(clientId: Id, token: RefreshToken, scopes: Option<set<Scope>>, resource: Uri)
    | OpVerify(access: Id)
    | OpRevokeToken(clientId: Id, presented: Presented)
    | OpRevokeGrant(id: Id)
    | OpRevokeAll
    | OpListGrants
    | OpRestart          // the process starts again from what the repository holds

  datatype Timed = Timed(op: Op, at: int, ok: bool)

  function Step(c: Config, w: World, t: Timed): (World, Answer) {
    match t.op
    case OpRegister(uris) => Register(c, w, t.at, t.ok, uris)
    case OpAuthorize(client, resource, uri, challenge, scopes, requester) =>
      Authorize(c, w, t.at, t.ok, client, resource, uri, challenge, scopes, requester)
    case OpApprove(id, scopes, childIds) => Approve(c, w, t.at, t.ok, id, scopes, childIds)
    case OpDeny(id) => Deny(w, t.at, t.ok, id)
    case OpChallenge(client, code) => Challenge(c, w, t.at, t.ok, client, code)
    case OpExchangeCode(client, code, sentTo, resource) => ExchangeCode(c, w, t.at, t.ok, client, code, sentTo, resource)
    case OpExchangeRefresh(client, token, scopes, resource) =>
      ExchangeRefresh(c, w, t.at, t.ok, client, token, scopes, resource)
    case OpVerify(access) => Verify(c, w, t.at, access)
    case OpRevokeToken(client, presented) => RevokeToken(w, t.ok, client, presented)
    case OpRevokeGrant(id) => Revoke(w, t.ok, id, Done)
    case OpRevokeAll => RevokeAll(w, t.ok)
    case OpListGrants => ListGrants(w, t.at)
    case OpRestart => (w.(mem := w.disk), Done)
  }

  function Start(): World {
    World(EMPTY, EMPTY, 0)
  }

  function After(c: Config, w: World, run: seq<Timed>): World
    decreases |run|
  {
    if run == [] then w else Step(c, After(c, w, run[..|run| - 1]), run[|run| - 1]).0
  }

  /** What the operation at position `i` of a run answers. */
  function AnswerAt(c: Config, w: World, run: seq<Timed>, i: nat): Answer
    requires i < |run|
  {
    Step(c, After(c, w, run[..i]), run[i]).1
  }
}
