/**
 * Runs from an empty server that reach what other modules speak of: tokens redeemed and presented again, a
 * withdrawal that cannot be written, and a client evicted before its authorization (src/http/oauth.ts).
 */
module OAuthWitness {
  import opened Basics
  import opened OAuthModel
  import opened OAuthInvariants
  import opened OAuthRuns
  import opened OAuthReplay
  import opened OAuthTables

  /** A configuration under which one app can connect. */
  predicate Usable(c: Config, uri: Uri) {
    uri in c.callbacks && c.scopes != {} && c.limits.Valid() && c.limits.clients >= 1
  }

  const MINUTES := 60_000

  function App(id: Id, uri: Uri): Client {
    Client(id, {uri}, 0)
  }

  function Consented(c: Config): Grant {
    Grant(c.resourceUrl, 0, c.scopes, {1}, 0, 30 * DAY)
  }

  function Connection(uri: Uri, used: bool): Code {
    Code(0, 2, uri, 7, MINUTES, used)
  }

  function AccessOf(c: Config): Token {
    Token(0, 2, c.scopes, 5 * MINUTES)
  }

  function Registration(c: Config, uri: Uri): Store {
    EMPTY.(clients := [App(0, uri)])
  }

  function Asked(c: Config, uri: Uri): Store {
    Registration(c, uri).(pending := [Pending(1, 0, c.scopes, uri, 7, 10 * MINUTES, 0)])
  }

  function Approval(c: Config, uri: Uri): Store {
    Registration(c, uri).(grants := map[2 := Consented(c)], codes := map[3 := Connection(uri, false)])
  }

  /** The access tokens of the first `n` issues. */
  function Tokens(c: Config, n: nat): map<Id, Token> {
    if n == 0 then map[] else Tokens(c, n - 1)[2 * n + 3 := AccessOf(c)]
  }

  /** After `n` issues, the first of them from the code. */
  function Connected(c: Config, uri: Uri, n: nat): Store {
    Approval(c, uri).(codes := map[3 := Connection(uri, true)], refresh := map[2 := Rotation(4, n, c.scopes)],
    tokens := Tokens(c, n))
  }

  function Both(s: Store, supply: nat): World {
    World(s, s, supply)
  }

  /** The refresh token of the n-th issue. */
  function RefreshOf(n: nat): RefreshToken {
    Signed(2, n, Mac(2, n, 4))
  }

  function Registering(uri: Uri): Timed {
    Timed(OpRegister({uri}), 0, true)
  }

  function Authorizing(c: Config, uri: Uri): Timed {
    Timed(OpAuthorize(App(0, uri), c.resourceUrl, uri, Some(7), None, 0), 0, true)
  }

  const APPROVING := Timed(OpApprove(1, None, {1}), 0, true)

  function Exchanging(c: Config, uri: Uri): Timed {
    Timed(OpExchangeCode(0, 3, Some(uri), c.resourceUrl), 0, true)
  }

  function Renewing(c: Config, n: nat, ok: bool): Timed {
    Timed(OpExchangeRefresh(0, RefreshOf(n), None, c.resourceUrl), 0, ok)
  }

  // ---------- Step by step ----------

  lemma {:induction false} UnexpiredAll(ps: seq<Pending>, now: int)
    requires forall i :: 0 <= i < |ps| ==> ps[i].expiresAt > now
    ensures Unexpired(ps, now) == ps
  {
    if ps != [] {
      UnexpiredAll(ps[..|ps| - 1], now);
    }
  }

  lemma PruneNothing(s: Store, now: int)
    requires forall i :: 0 <= i < |s.pending| ==> s.pending[i].expiresAt > now
    requires forall k :: k in s.codes ==> s.codes[k].expiresAt > now
    requires forall k :: k in s.tokens ==> s.tokens[k].expiresAt > now
    requires forall g :: g in s.grants ==> s.grants[g].expiresAt > now
    ensures Prune(s, now) == s
  {
    UnexpiredAll(s.pending, now);
    var p := Prune(s, now);
    assert p.codes == s.codes && p.tokens == s.tokens && p.grants == s.grants && p.refresh == s.refresh;
  }

  lemma Registers(c: Config, uri: Uri)
    requires Usable(c, uri)
    ensures Step(c, Start(), Registering(uri)) == (Both(Registration(c, uri), 1), Registered(App(0, uri)))
  {
    hide Prune;
    PruneNothing(EMPTY, 0);
    assert DropStale(EMPTY, [], 0) == [];
    assert EMPTY.clients + [App(0, uri)] == [App(0, uri)];
    var r := Step(c, Start(), Registering(uri));
    assert r.0.mem == Registration(c, uri);
  }

  lemma Authorizes(c: Config, uri: Uri)
    requires Usable(c, uri)
    ensures Step(c, Both(Registration(c, uri), 1), Authorizing(c, uri)) == (Both(Asked(c, uri), 2), Consent(1))
  {
    hide Prune;
    PruneNothing(Registration(c, uri), 0);
    assert MakeRoom(c.limits, [], 0) == [];
    var r := Step(c, Both(Registration(c, uri), 1), Authorizing(c, uri));
    assert r.0.mem.pending == Asked(c, uri).pending;
  }

  lemma Approves(c: Config, uri: Uri)
    requires Usable(c, uri)
    ensures Step(c, Both(Asked(c, uri), 2), APPROVING) == (Both(Approval(c, uri), 4), Redirected(3))
  {
    hide Prune;
    var s := Asked(c, uri);
    PruneNothing(s, 0);
    assert PendingRequest(s, 0, 1) == Some(s.pending[0]);
    assert WithoutPending(s.pending, 1) == [];
  }

  lemma Exchanges(c: Config, uri: Uri)
    requires Usable(c, uri)
    ensures Step(c, Both(Approval(c, uri), 4), Exchanging(c, uri))
         == (Both(Connected(c, uri, 1), 6), Issued(5, RefreshOf(1), c.scopes))
  {
    hide Prune;
    PruneNothing(Approval(c, uri), 0);
    assert Tokens(c, 0) == map[] && Tokens(c, 1) == map[5 := AccessOf(c)];
    var r := Step(c, Both(Approval(c, uri), 4), Exchanging(c, uri));
    assert r.0.mem.codes == Connected(c, uri, 1).codes && r.0.mem.tokens == Connected(c, uri, 1).tokens;
    assert r.0.mem.refresh == Connected(c, uri, 1).refresh;
  }

  lemma {:induction false} TokensAre(c: Config, n: nat)
    ensures |Tokens(c, n)| == n
    ensures forall k :: k in Tokens(c, n) ==> k <= 2 * n + 3 && Tokens(c, n)[k] == AccessOf(c)
  {
    if n > 0 {
      TokensAre(c, n - 1);
      assert 2 * n + 3 !in Tokens(c, n - 1);
    }
  }

  lemma OneMoreIssue(c: Config, uri: Uri, n: nat)
    requires n >= 1
    ensures WithTokens(Connected(c, uri, n), 2, 0, c.scopes, None, 2 * n + 4, 2 * n + 5, 5 * MINUTES) == Connected(c, uri, n + 1)
  {
    var s := WithTokens(Connected(c, uri, n), 2, 0, c.scopes, None, 2 * n + 4, 2 * n + 5, 5 * MINUTES);
    assert s.refresh == map[2 := Rotation(4, n + 1, c.scopes)];
    assert s.tokens == Tokens(c, n + 1);
  }

  lemma ConnectedIs(c: Config, uri: Uri, n: nat)
    ensures var s := Connected(c, uri, n);
            Prune(s, 0) == s && |s.tokens| == n && LiveGrant(c, s, 0, 2) && s.grants[2].clientId == 0
            && 2 in s.refresh && s.refresh[2] == Rotation(4, n, c.scopes)
  {
    hide Prune;
    TokensAre(c, n);
    PruneNothing(Connected(c, uri, n), 0);
  }

  /** Any number of times, short of the table's size. */
  lemma Refreshes(c: Config, uri: Uri, n: nat)
    requires Usable(c, uri) && 1 <= n < MAX_TOKENS
    ensures Step(c, Both(Connected(c, uri, n), 2 * n + 4), Renewing(c, n, true))
         == (Both(Connected(c, uri, n + 1), 2 * n + 6), Issued(2 * n + 5, RefreshOf(n + 1), c.scopes))
  {
    hide Prune, Connected, WithTokens, LiveGrant;
    ConnectedIs(c, uri, n);
    OneMoreIssue(c, uri, n);
    ConnectedIs(c, uri, n + 1);
  }

  // ---------- Runs ----------

  /** One app connects and renews twice. */
  function Renewals(c: Config, uri: Uri): seq<Timed> {
    [Registering(uri), Authorizing(c, uri), APPROVING, Exchanging(c, uri), Renewing(c, 1, true), Renewing(c, 2, true)]
  }

  /** The worlds it passes through. */
  function WorldAt(c: Config, uri: Uri, i: nat): World {
    if i == 0 then Start()
    else if i == 1 then Both(Registration(c, uri), 1)
    else if i == 2 then Both(Asked(c, uri), 2)
    else if i == 3 then Both(Approval(c, uri), 4)
    else Both(Connected(c, uri, i - 3), 2 * i - 2)
  }

  lemma RenewalStep(c: Config, uri: Uri, i: nat)
    requires Usable(c, uri) && i < 6
    ensures Step(c, WorldAt(c, uri, i), Renewals(c, uri)[i]).0 == WorldAt(c, uri, i + 1)
  {
    hide Step, Registration, Asked, Approval, Connected;
    Registers(c, uri);
    Authorizes(c, uri);
    Approves(c, uri);
    Exchanges(c, uri);
    Refreshes(c, uri, 1);
    Refreshes(c, uri, 2);
  }

  lemma {:induction false} RenewalWorlds(c: Config, uri: Uri, i: nat)
    requires Usable(c, uri) && i <= 6
    ensures After(c, Start(), Renewals(c, uri)[..i]) == WorldAt(c, uri, i)
  {
    hide Step, WorldAt;
    if i == 0 {
      assert WorldAt(c, uri, 0) == Start() by { FirstWorld(c, uri); }
    } else {
      RenewalWorlds(c, uri, i - 1);
      RenewalStep(c, uri, i - 1);
      assert Renewals(c, uri)[..i][..i - 1] == Renewals(c, uri)[..i - 1];
    }
  }

  lemma FirstWorld(c: Config, uri: Uri)
    ensures WorldAt(c, uri, 0) == Start()
  {
  }

  lemma LastWorlds(c: Config, uri: Uri)
    ensures var run := Renewals(c, uri);
            |run| == 6 && run[4] == Renewing(c, 1, true) && run[5] == Renewing(c, 2, true) && run[..6] == run
    ensures WorldAt(c, uri, 4) == Both(Connected(c, uri, 1), 6) && WorldAt(c, uri, 5) == Both(Connected(c, uri, 2), 8)
            && WorldAt(c, uri, 6) == Both(Connected(c, uri, 3), 10)
  {
  }

  /** Two refresh tokens are redeemed, one after the other. */
  lemma TokensAreRedeemed(c: Config, uri: Uri)
    requires Usable(c, uri)
    ensures var run := Renewals(c, uri);
            |run| == 6 && run[4].op.OpExchangeRefresh? && run[5].op.OpExchangeRefresh?
            && AnswerAt(c, Start(), run, 4) == Issued(7, RefreshOf(2), c.scopes)
            && AnswerAt(c, Start(), run, 5) == Issued(9, RefreshOf(3), c.scopes)
  {
    hide Step, Connected, WorldAt, Renewals, After;
    LastWorlds(c, uri);
    RenewalWorlds(c, uri, 4);
    RenewalWorlds(c, uri, 5);
    Refreshes(c, uri, 1);
    Refreshes(c, uri, 2);
  }

  lemma FirstTokenIsReplay(c: Config, uri: Uri, ok: bool)
    ensures RefreshReplayed(c, Both(Connected(c, uri, 3), 10), Renewing(c, 1, ok), 2)
  {
    hide Connected;
    ConnectedIs(c, uri, 3);
  }

  /** The first of them presented again: the withdrawal is final when it is written, and when it is not the grant
      can come back. */
  lemma UnwrittenReplayHappens(c: Config, uri: Uri)
    requires Usable(c, uri)
    ensures var w := After(c, Start(), Renewals(c, uri));
            var unwritten, written := Renewing(c, 1, false), Renewing(c, 1, true);
            Inv(c, w) && RefreshReplayed(c, w, unwritten, 2) && RefreshReplayed(c, w, written, 2)
            && !NeverBack(c, Step(c, w, unwritten).0, 2) && NeverBack(c, Step(c, w, written).0, 2)
  {
    hide Step, NeverBack, Connected, WorldAt, Renewals, After, RefreshReplayed, Inv;
    StartInv(c);
    RunInv(c, Start(), Renewals(c, uri));
    LastWorlds(c, uri);
    RenewalWorlds(c, uri, 6);
    FirstTokenIsReplay(c, uri, false);
    FirstTokenIsReplay(c, uri, true);
    ConnectedIs(c, uri, 3);
    var w := After(c, Start(), Renewals(c, uri));
    ReplayEndsForGood(c, w, Renewing(c, 1, false), 2);
    ReplayEndsForGood(c, w, Renewing(c, 1, true), 2);
  }

  lemma AfterPush(c: Config, w: World, run: seq<Timed>, t: Timed)
    ensures After(c, w, run + [t]) == Step(c, After(c, w, run), t).0
  {
    hide Step;
    assert (run + [t])[..|run|] == run;
  }

  // ---------- A client evicted between its look-up and its authorization ----------

  function OtherRegistered(c: Config, uri: Uri): Store {
    EMPTY.(clients := [App(1, uri)])
  }

  /** With room for one client, a second registration evicts the first. */
  lemma Evicts(c: Config, uri: Uri)
    requires Usable(c, uri) && c.limits.clients == 1
    ensures Step(c, Both(Registration(c, uri), 1), Registering(uri)) == (Both(OtherRegistered(c, uri), 2), Registered(App(1, uri)))
  {
    hide Prune;
    var s := Registration(c, uri);
    PruneNothing(s, 0);
    assert !InUse(s, 0);
    assert s.clients[..0] == [] && DropStale(s, s.clients, 0) == s.clients && OldestIdle(s, s.clients) == 0;
    assert RemoveAt(s.clients, 0) == [];
    var r := Step(c, Both(s, 1), Registering(uri));
    assert r.0.mem.clients == [App(1, uri)];
  }

  /** Its authorization, begun with the record looked up before, still leaves a request, of an unknown client. */
  lemma UnknownClientHappens(c: Config, uri: Uri)
    requires Usable(c, uri) && c.limits.clients == 1
    ensures var w := After(c, Start(), [Registering(uri), Registering(uri)]);
            var t := Authorizing(c, uri);
            && Tables(c, w.mem) && Step(c, w, t).1 == Consent(w.supply)
            && !OAuthTables.Registered(w.mem.clients, t.op.client.id) && !Known(Step(c, w, t).0.mem)
  {
    hide Step, Tables, Known;
    var run := [Registering(uri), Registering(uri)];
    assert [] + [Registering(uri)] + [Registering(uri)] == run;
    AfterPush(c, Start(), [], Registering(uri));
    AfterPush(c, Start(), [] + [Registering(uri)], Registering(uri));
    assert After(c, Start(), []) == Start();
    Registers(c, uri);
    Evicts(c, uri);
    var w := After(c, Start(), run);
    assert w == Both(OtherRegistered(c, uri), 2);
    OneClientTables(c, uri);
    StillAuthorizes(c, uri);
    AuthorizeKnown(c, w, Authorizing(c, uri));
  }

  lemma OneClientTables(c: Config, uri: Uri)
    requires Usable(c, uri)
    ensures Tables(c, OtherRegistered(c, uri))
  {
  }

  lemma StillAuthorizes(c: Config, uri: Uri)
    requires Usable(c, uri)
    ensures Step(c, Both(OtherRegistered(c, uri), 2), Authorizing(c, uri)).1 == Consent(2)
  {
    hide Prune;
    PruneNothing(OtherRegistered(c, uri), 0);
  }
}
