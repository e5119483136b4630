/**
 * One client instance and the OAuth server together, in every interleaving: parallel calls, refusals, expiry,
 * slow saves, failing writes, restarts and other clients (src/client/index.ts, src/http/oauth.ts).
 */
module ClientServer {
  import opened Basics
  import opened OAuthModel
  import opened OAuthInvariants
  import opened OAuthRuns
  import opened OAuthLasting
  import opened OAuthReplay
  import opened ClientModel

  /** The refresh request: none, on its way to the server, or its answer on the way back. */
  datatype Wire = Quiet | Sent(token: RefreshToken) | Back(answer: Answer)

  /** `stored` is what the app's token store holds. */
  datatype System = System(world: World, client: Memory, stored: Option<Pair>, wire: Wire)

  /** Any call may reach any of its blocks at any moment, so the blocks alone are the client's steps. */
  datatype Event =
    | Loading
    | Asking(at: int)                // a call starts, or asks for the access token
    | Refused(used: Id)              // a call's token was refused: it renews
    | RefusedAgain
    | Saved(ok: bool)                // the save or the clearing of a refresh ended, well or badly
    | Emptied                        // the clearing after a second refusal took effect
    | Releasing
    | NeverArrived                   // the request fails before the server sees it
    | TurnedAway                     // something in front of the server refuses it
    | Served(at: int, ok: bool)      // the server handles the request
    | Arrived(at: int, readable: bool)
    | Lost                           // the answer does not reach the client
    | Elsewhere(t: Timed)            // any other operation of the server

  function Request(c: Config, s: System, clientId: Id, at: int, ok: bool): Timed
    requires s.wire.Sent?
  {
    Timed(OpExchangeRefresh(clientId, s.wire.token, None, c.resourceUrl), at, ok)
  }

  /** A refresh that started puts its request on the wire. */
  function Launched(s: System, m: Memory): System {
    if s.client.flight.NoFlight? && m.flight.Asked? then s.(client := m, wire := Sent(m.flight.token))
    else s.(client := m)
  }

  function Next(c: Config, clientId: Id, s: System, e: Event): System {
    match e
    case Loading => s.(client := Load(s.client, s.stored))
    case Asking(at) => if s.client.loaded then Launched(s, AccessToken(s.client, at).0) else s
    case Refused(used) => if s.client.loaded then Launched(s, Renewed(s.client, used).0) else s
    case RefusedAgain => if s.client.loaded then s.(client := RefusedTwice(s.client)) else s
    case Saved(ok) =>
      if s.client.flight.Saving? then
        s.(client := Finished(s.client), stored := if ok then Some(s.client.flight.pair) else s.stored)
      else if s.client.flight.Clearing? then s.(client := Finished(s.client), stored := if ok then None else s.stored)
      else s
    case Emptied => if s.client.loaded then s.(stored := None) else s
    case Releasing => if s.client.flight.Settled? then s.(client := Released(s.client)) else s
    case NeverArrived => if s.wire.Sent? then s.(client := Finished(s.client), wire := Quiet) else s
    case TurnedAway => if s.wire.Sent? then s.(wire := Back(Failed(TemporarilyUnavailable))) else s
    case Served(at, ok) =>
      if s.wire.Sent? then
        var (w, a) := Step(c, s.world, Request(c, s, clientId, at, ok));
        s.(world := w, wire := Back(a))
      else s
    case Arrived(at, readable) =>
      if s.wire.Back? then s.(client := Answered(s.client, s.wire.answer, readable, at), wire := Quiet) else s
    case Lost => if s.wire.Back? then s.(client := Finished(s.client), wire := Quiet) else s
    case Elsewhere(t) => s.(world := Step(c, s.world, t).0)
  }

  // ---------- In step ----------

  /** Where the grant exists, `token` is its current refresh token. */
  ghost predicate Matches(s: Store, g: Id, token: RefreshToken) {
    g in s.grants ==>
      g in s.refresh && token == Signed(g, s.refresh[g].counter, Mac(g, s.refresh[g].counter, s.refresh[g].key))
  }

  ghost predicate Current(w: World, g: Id, token: RefreshToken) {
    && token.Signed? && token.id == g && token.mac == Mac(g, token.counter, token.mac.key) && g < w.supply
    && Matches(w.mem, g, token) && Matches(w.disk, g, token)
  }

  /** `token` is the one that was current just before `next` was issued. */
  ghost predicate Previous(token: RefreshToken, next: RefreshToken) {
    && token.Signed? && token.counter <= MAX_SAFE_INTEGER && token.mac == Mac(token.id, token.counter, token.mac.key)
    && next == Signed(token.id, token.counter + 1, Mac(token.id, token.counter + 1, token.mac.key))
  }

  /** What the client holds, or would load, is current, or it is the one whose successor is on its way back. */
  ghost predicate InStep(s: System, g: Id) {
    && (s.client.flight.Asked? <==> !s.wire.Quiet?)
    && (!s.client.loaded ==> s.client.tokens.None? && s.client.flight.NoFlight?)
    && (!s.client.loaded && s.stored.Some? ==> Current(s.world, g, s.stored.value.refresh))
    && (s.wire.Sent? ==> Current(s.world, g, s.wire.token))
    && (if s.wire.Back? && s.wire.answer.Issued?
        then Current(s.world, g, s.wire.answer.refresh)
             && (s.client.tokens.Some? ==> Previous(s.client.tokens.value.refresh, s.wire.answer.refresh))
        else s.client.tokens.Some? ==> Current(s.world, g, s.client.tokens.value.refresh))
  }

  /** The refresh tokens of the grant are presented by nobody else in its client's name; only an issued answer
      must not get lost. */
  predicate Allowed(s: System, g: Id, e: Event) {
    && (e.Elsewhere? ==> !PresentsOwn(s.world, g, e.t.op))
    && (e.Lost? ==> !(s.wire.Back? && s.wire.answer.Issued?))
  }

  /** No operation changes which token is current unless the grant's client presents one signed for it. */
  lemma ElsewhereKeepsCurrent(c: Config, w: World, t: Timed, g: Id, token: RefreshToken)
    requires Inv(c, w) && Current(w, g, token) && !PresentsOwn(w, g, t.op)
    ensures Current(Step(c, w, t).0, g, token)
  {
    hide Inv, Step, PresentsOwn;
    var rotation := CurrentRotation(c, w, g, token);
    StepRotation(c, w, t, g, rotation);
  }

  /** A current token stands for one rotation, in memory and repository. */
  lemma CurrentRotation(c: Config, w: World, g: Id, token: RefreshToken) returns (rotation: Rotation)
    requires Inv(c, w) && Current(w, g, token)
    ensures RotationBy(w, g, rotation) && token == Signed(g, rotation.counter, Mac(g, rotation.counter, rotation.key))
  {
    hide Sound;
    rotation := if g in w.mem.grants then w.mem.refresh[g]
                else if g in w.disk.grants then w.disk.refresh[g]
                else Rotation(token.mac.key, token.counter, {});
  }

  // ---------- The server's side of a refresh ----------

  lemma CurrentIsNoReplay(c: Config, w: World, g: Id, t: Timed)
    requires t.op.OpExchangeRefresh? && Current(w, g, t.op.token)
    ensures forall h :: !RefreshReplayed(c, w, t, h)
  {
  }

  lemma IssuedNext(c: Config, w: World, t: Timed, g: Id)
    requires Inv(c, w) && t.op.OpExchangeRefresh? && Current(w, g, t.op.token) && Step(c, w, t).1.Issued?
    ensures Current(Step(c, w, t).0, g, Step(c, w, t).1.refresh)
    ensures Previous(t.op.token, Step(c, w, t).1.refresh)
  {
    hide Inv, Step, Prune, IssuedBy;
    var h := IssueLeaves(c, w, t);
    var ch := StepChanges(c, w, t);
    RedeemedWasReadable(c, w, t);
    IssueKeepsKey(c, w, t, g);
  }

  lemma NotIssuedKeeps(c: Config, w: World, t: Timed, g: Id, token: RefreshToken)
    requires Inv(c, w) && t.op.OpExchangeRefresh? && Current(w, g, token) && !Step(c, w, t).1.Issued?
    ensures Current(Step(c, w, t).0, g, token)
  {
    hide Inv, Step, Prune, Sound, IssuedBy;
    var ch := StepChanges(c, w, t);
  }

  // ---------- Every interleaving ----------

  lemma SameToken(w: World, g: Id, a: RefreshToken, b: RefreshToken)
    requires Current(w, g, a) && Current(w, g, b) && g in w.mem.grants
    ensures a == b
  {
  }

  lemma ServedInStep(c: Config, clientId: Id, g: Id, s: System, at: int, ok: bool)
    requires Inv(c, s.world) && InStep(s, g) && s.wire.Sent?
    ensures InStep(Next(c, clientId, s, Served(at, ok)), g)
  {
    hide Inv, Step, Matches;
    var t := Request(c, s, clientId, at, ok);
    if Step(c, s.world, t).1.Issued? {
      IssuedNext(c, s.world, t, g);
      IssuedIsLive(c, s.world, t);
      if s.client.tokens.Some? {
        SameToken(s.world, g, s.client.tokens.value.refresh, s.wire.token);
      }
    } else {
      NotIssuedKeeps(c, s.world, t, g, s.wire.token);
      if s.client.tokens.Some? {
        NotIssuedKeeps(c, s.world, t, g, s.client.tokens.value.refresh);
      }
    }
  }

  lemma NextInStep(c: Config, clientId: Id, g: Id, s: System, e: Event)
    requires Inv(c, s.world) && InStep(s, g) && Allowed(s, g, e)
    ensures Inv(c, Next(c, clientId, s, e).world) && InStep(Next(c, clientId, s, e), g)
  {
    hide Inv, Step, Current, Previous;
    match e
    case Served(at, ok) =>
      if s.wire.Sent? {
        ServedInStep(c, clientId, g, s, at, ok);
        StepInv(c, s.world, Request(c, s, clientId, at, ok));
      }
    case Elsewhere(t) =>
      StepInv(c, s.world, t);
      ElsewhereInStep(c, clientId, g, s, t);
    case _ =>
  }

  lemma ElsewhereInStep(c: Config, clientId: Id, g: Id, s: System, t: Timed)
    requires Inv(c, s.world) && InStep(s, g) && Allowed(s, g, Elsewhere(t))
    ensures InStep(Next(c, clientId, s, Elsewhere(t)), g)
  {
    hide Inv, Step, Current, Previous;
    forall token | Current(s.world, g, token) ensures Current(Step(c, s.world, t).0, g, token) {
      ElsewhereKeepsCurrent(c, s.world, t, g, token);
    }
  }

  function After(c: Config, clientId: Id, s: System, run: seq<Event>): System
    decreases |run|
  {
    if run == [] then s else Next(c, clientId, After(c, clientId, s, run[..|run| - 1]), run[|run| - 1])
  }

  /** No answer that carries a new pair gets lost, and nobody else presents this grant's refresh tokens. */
  ghost predicate Undisturbed(c: Config, clientId: Id, g: Id, s: System, run: seq<Event>) {
    forall i :: 0 <= i < |run| ==> Allowed(After(c, clientId, s, run[..i]), g, run[i])
  }

  lemma {:induction false} RunInStep(c: Config, clientId: Id, g: Id, s: System, run: seq<Event>)
    requires Inv(c, s.world) && InStep(s, g) && Undisturbed(c, clientId, g, s, run)
    ensures Inv(c, After(c, clientId, s, run).world) && InStep(After(c, clientId, s, run), g)
    decreases |run|
  {
    hide Inv, InStep, Allowed, Next;
    if run != [] {
      var n := |run| - 1;
      forall i | 0 <= i < n ensures Allowed(After(c, clientId, s, run[..n][..i]), g, run[..n][i]) {
        assert run[..n][..i] == run[..i];
      }
      RunInStep(c, clientId, g, s, run[..n]);
      NextInStep(c, clientId, g, After(c, clientId, s, run[..n]), run[n]);
    }
  }

  /** In every interleaving the server's reuse detection never fires on the client's requests. */
  lemma ReuseNeverDetected(c: Config, clientId: Id, g: Id, s: System, run: seq<Event>, at: int, ok: bool)
    requires Inv(c, s.world) && InStep(s, g) && Undisturbed(c, clientId, g, s, run)
    ensures var r := After(c, clientId, s, run);
            r.wire.Sent? ==> forall h :: !RefreshReplayed(c, r.world, Request(c, r, clientId, at, ok), h)
  {
    hide Inv, Next, Current, RefreshReplayed;
    RunInStep(c, clientId, g, s, run);
    var r := After(c, clientId, s, run);
    if r.wire.Sent? {
      CurrentIsNoReplay(c, r.world, g, Request(c, r, clientId, at, ok));
    }
  }

  /** An app that has just been connected, by whichever exchange, starts in step. */
  lemma ConnectedInStep(c: Config, w: World, t: Timed, expiresAt: Option<int>) returns (g: Id)
    requires Inv(c, w) && Step(c, w, t).1.Issued?
    ensures var (r, a) := Step(c, w, t);
            a.refresh.Signed? && a.refresh.id == g
            && InStep(System(r, Memory(None, false, NoFlight), Some(Pair(a.access, a.refresh, expiresAt)), Quiet), g)
  {
    hide Inv, Step, Prune, IssuedBy;
    g := IssueLeaves(c, w, t);
    var ch := StepChanges(c, w, t);
  }

  /** The client's counter is the server's, or one refresh is on its way back and the server is one ahead; and
      what a request carries is always the server's own. */
  lemma CountersInStep(c: Config, clientId: Id, g: Id, s: System, run: seq<Event>)
    requires Inv(c, s.world) && InStep(s, g) && Undisturbed(c, clientId, g, s, run)
    ensures var r := After(c, clientId, s, run);
            var rotations := r.world.mem.refresh;
            g in r.world.mem.grants && r.client.tokens.Some? ==>
              g in rotations && r.client.tokens.value.refresh.Signed?
              && (if r.wire.Back? && r.wire.answer.Issued?
                  then r.client.flight.Asked? && r.client.tokens.value.refresh.counter + 1 == rotations[g].counter
                  else r.client.tokens.value.refresh.counter == rotations[g].counter)
  {
    hide Inv, Next;
    RunInStep(c, clientId, g, s, run);
  }

  // ---------- Without that assumption ----------

  /** The client is one rotation behind: the pair that came after what it holds was lost. */
  ghost predicate Behind(s: System, g: Id, next: RefreshToken) {
    && s.client.loaded && (s.client.flight.Asked? <==> !s.wire.Quiet?)
    && Current(s.world, g, next)
    && (s.client.tokens.Some? ==> Previous(s.client.tokens.value.refresh, next))
    && (s.wire.Sent? ==> Previous(s.wire.token, next))
    && !(s.wire.Back? && s.wire.answer.Issued?)
  }

  lemma NextBehind(c: Config, clientId: Id, g: Id, s: System, e: Event, next: RefreshToken)
    requires Inv(c, s.world) && Behind(s, g, next) && Allowed(s, g, e) && !e.Served?
    ensures Inv(c, Next(c, clientId, s, e).world) && Behind(Next(c, clientId, s, e), g, next)
  {
    hide Inv, Step, Current, Previous, PresentsOwn;
    if e.Elsewhere? {
      StepInv(c, s.world, e.t);
      ElsewhereKeepsCurrent(c, s.world, e.t, g, next);
    }
  }

  lemma {:induction false} RunBehind(c: Config, clientId: Id, g: Id, s: System, run: seq<Event>, next: RefreshToken)
    requires Inv(c, s.world) && Behind(s, g, next) && Undisturbed(c, clientId, g, s, run)
    requires forall i :: 0 <= i < |run| ==> !run[i].Served?
    ensures Inv(c, After(c, clientId, s, run).world) && Behind(After(c, clientId, s, run), g, next)
    decreases |run|
  {
    hide Inv, Behind, Allowed, Next;
    if run != [] {
      var n := |run| - 1;
      forall i | 0 <= i < n ensures Allowed(After(c, clientId, s, run[..n][..i]), g, run[..n][i]) {
        assert run[..n][..i] == run[..i];
      }
      RunBehind(c, clientId, g, s, run[..n], next);
      NextBehind(c, clientId, g, After(c, clientId, s, run[..n]), run[n], next);
    }
  }

  /** Once a new pair is lost on its way back, the next refresh that reaches the server is a replay, whatever
      happens before it, and withdraws the grant. */
  lemma LostAnswerIsReplay(c: Config, clientId: Id, g: Id, s: System, run: seq<Event>, at: int, ok: bool)
    requires Inv(c, s.world) && InStep(s, g) && s.wire.Back? && s.wire.answer.Issued?
    requires Undisturbed(c, clientId, g, Next(c, clientId, s, Lost), run)
    requires forall i :: 0 <= i < |run| ==> !run[i].Served?
    ensures var r := After(c, clientId, Next(c, clientId, s, Lost), run);
            r.wire.Sent? && LiveGrant(c, r.world.mem, at, g) && r.world.mem.grants[g].clientId == clientId ==>
              && RefreshReplayed(c, r.world, Request(c, r, clientId, at, ok), g)
              && NothingOf(Step(c, r.world, Request(c, r, clientId, at, ok)).0.mem, g)
  {
    hide Inv, Step, Current, Previous, Allowed;
    var lost, next := Next(c, clientId, s, Lost), s.wire.answer.refresh;
    RunBehind(c, clientId, g, lost, run, next);
    var r := After(c, clientId, lost, run);
    if r.wire.Sent? && LiveGrant(c, r.world.mem, at, g) && r.world.mem.grants[g].clientId == clientId {
      PreviousIsReplay(c, r.world, Request(c, r, clientId, at, ok), g, next);
      ReplayWithdraws(c, r.world, Request(c, r, clientId, at, ok), g);
    }
  }

  lemma PreviousIsReplay(c: Config, w: World, t: Timed, g: Id, next: RefreshToken)
    requires t.op.OpExchangeRefresh? && t.op.resource == c.resourceUrl && LiveGrant(c, w.mem, t.at, g)
    requires w.mem.grants[g].clientId == t.op.clientId && Current(w, g, next) && Previous(t.op.token, next)
    ensures RefreshReplayed(c, w, t, g)
  {
  }

  // ---------- The save before the use ----------

  /** The access token a call gets at once, if any. */
  function HandedOut(m: Memory, e: Event): Option<Id> {
    var d := if e.Asking? then AccessToken(m, e.at).1 else if e.Refused? then Renewed(m, e.used).1 else NotConnected;
    if m.loaded && d.Use? then Some(d.access) else None
  }

  /** While a new pair is being saved, a call that was refused another token gets it, and no other call does. */
  lemma HandedOutWhileSaving(m: Memory, used: Id, now: int)
    requires m.flight.Saving? && m.tokens.Some? && m.loaded
    ensures HandedOut(m, Refused(used)) == Some(m.tokens.value.access) <==> used != m.tokens.value.access
    ensures HandedOut(m, Asking(now)) == None
  {
  }

  /** Access tokens come in order: stored, held, being saved, on the way back, not yet drawn. */
  ghost predicate InOrder(s: System) {
    && (!s.client.loaded ==> s.client.tokens.None? && s.client.flight.NoFlight?)
    && (s.client.flight.Asked? <==> !s.wire.Quiet?)
    && (s.stored.Some? ==> s.stored.value.access < s.world.supply)
    && (s.client.tokens.Some? ==> s.client.tokens.value.access < s.world.supply)
    && (s.wire.Back? && s.wire.answer.Issued? ==>
          && s.wire.answer.access < s.world.supply
          && (s.stored.Some? ==> s.stored.value.access < s.wire.answer.access))
    && (s.client.flight.Saving? ==>
          && s.client.flight.pair.access < s.world.supply
          && (s.client.tokens.Some? ==> s.client.tokens.value == s.client.flight.pair)
          && (s.stored.Some? ==> s.stored.value.access < s.client.flight.pair.access))
    && (s.client.flight.Clearing? ==> s.client.tokens.None?)
    && (s.client.loaded && s.client.tokens.Some? && !s.client.flight.Saving? ==> s.stored == s.client.tokens)
  }

  /** Every save succeeds, and no call is refused twice (whose clearing could overtake a save). */
  predicate Keeping(e: Event) {
    (e.Saved? ==> e.ok) && !e.Emptied?
  }

  lemma SupplyGrows(c: Config, w: World, t: Timed)
    requires Inv(c, w)
    ensures w.supply <= Step(c, w, t).0.supply
    ensures var (r, a) := Step(c, w, t); a.Issued? ==> w.supply <= a.access < r.supply
  {
    hide Inv, Step, Prune, Sound, Evolves;
    var ch := StepChanges(c, w, t);
    if ch.Restarted? {
      RestartIs(c, w, t);
    }
  }

  lemma NextInOrder(c: Config, clientId: Id, s: System, e: Event)
    requires Inv(c, s.world) && InOrder(s) && Keeping(e)
    ensures Inv(c, Next(c, clientId, s, e).world) && InOrder(Next(c, clientId, s, e))
  {
    hide Inv, Step;
    match e
    case Served(at, ok) =>
      if s.wire.Sent? {
        SupplyGrows(c, s.world, Request(c, s, clientId, at, ok));
        StepInv(c, s.world, Request(c, s, clientId, at, ok));
      }
    case Elsewhere(t) =>
      SupplyGrows(c, s.world, t);
      StepInv(c, s.world, t);
    case _ =>
  }

  lemma {:induction false} RunInOrder(c: Config, clientId: Id, s: System, run: seq<Event>)
    requires Inv(c, s.world) && InOrder(s) && forall i :: 0 <= i < |run| ==> Keeping(run[i])
    ensures Inv(c, After(c, clientId, s, run).world) && InOrder(After(c, clientId, s, run))
    decreases |run|
  {
    hide Inv, InOrder, Next, Keeping;
    if run != [] {
      var n := |run| - 1;
      RunInOrder(c, clientId, s, run[..n]);
      NextInOrder(c, clientId, After(c, clientId, s, run[..n]), run[n]);
    }
  }

  /** A call is handed an access token that is already stored, if and only if no save is under way: the only
      exception is a call that was refused an older token while the new pair is being saved. */
  lemma UsedOnceSavedExactly(c: Config, clientId: Id, s: System, run: seq<Event>, e: Event)
    requires Inv(c, s.world) && InOrder(s) && forall i :: 0 <= i < |run| ==> Keeping(run[i])
    ensures var r := After(c, clientId, s, run);
            var a := HandedOut(r.client, e);
            && (a.Some? ==> (r.stored.Some? && r.stored.value.access == a.value <==> !r.client.flight.Saving?))
            && (a.Some? && r.client.flight.Saving? ==> e.Refused? && e.used != a.value)
  {
    hide Inv, Next;
    RunInOrder(c, clientId, s, run);
  }

  /** And a save that fails is not waited for again: the unsaved token is handed out from then on. */
  lemma FailedSaveIsUsed(c: Config, clientId: Id, s: System, now: int)
    requires s.client.loaded && s.client.flight.Saving? && s.client.tokens == Some(s.client.flight.pair)
    requires s.client.flight.pair.expiresAt.Some? && now < s.client.flight.pair.expiresAt.value - EXPIRY_MARGIN_MS
    ensures var r := Next(c, clientId, Next(c, clientId, s, Saved(false)), Releasing);
            r.stored == s.stored && HandedOut(r.client, Asking(now)) == Some(s.client.flight.pair.access)
  {
  }

  lemma ConnectedInOrder(c: Config, w: World, t: Timed, expiresAt: Option<int>)
    requires Inv(c, w) && Step(c, w, t).1.Issued?
    ensures var (r, a) := Step(c, w, t);
            InOrder(System(r, Memory(None, false, NoFlight), Some(Pair(a.access, a.refresh, expiresAt)), Quiet))
  {
    hide Inv, Step;
    SupplyGrows(c, w, t);
  }
}
