/** What every call of the typed client gets and starts, in every state and over every run (src/client/index.ts). */
module ClientDecisions {
  import opened Basics
  import opened OAuthModel
  import opened OAuthInvariants
  import opened ClientModel
  import opened ClientServer

  /** The pair is within half a minute of its end. */
  predicate Due(p: Pair, now: int) {
    p.expiresAt.Some? && now + 30 * 1000 >= p.expiresAt.value
  }

  predicate Idle(m: Memory) {
    m.loaded && m.flight.NoFlight?
  }

  /** A call that starts gets the token held while it is good for another half minute; after that it starts the
      refresh and waits, and whoever starts meanwhile waits for the same one. */
  lemma AskingExactly(c: Config, clientId: Id, s: System, now: int)
    ensures var r, m := Next(c, clientId, s, Asking(now)), s.client;
            && HandedOut(m, Asking(now)) == (if Idle(m) && m.tokens.Some? && !Due(m.tokens.value, now)
                                             then Some(m.tokens.value.access) else None)
            && r == (if Idle(m) && m.tokens.Some? && Due(m.tokens.value, now)
                     then s.(client := m.(flight := Asked(m.tokens.value.refresh)), wire := Sent(m.tokens.value.refresh))
                     else s)
  {
  }

  /** A call that was refused gets a newer token if there is one; otherwise it starts the refresh, or waits for the
      one under way. */
  lemma RefusedExactly(c: Config, clientId: Id, s: System, used: Id)
    ensures var r, m := Next(c, clientId, s, Refused(used)), s.client;
            var newer := m.loaded && m.tokens.Some? && m.tokens.value.access != used;
            && HandedOut(m, Refused(used)) == (if newer then Some(m.tokens.value.access) else None)
            && r == (if Idle(m) && m.tokens.Some? && !newer
                     then s.(client := m.(flight := Asked(m.tokens.value.refresh)), wire := Sent(m.tokens.value.refresh))
                     else s)
  {
  }

  /** The answer: a readable pair replaces the one held, good for five minutes from its arrival, and goes to the
      store; anything else disconnects. */
  lemma ArrivedExactly(c: Config, clientId: Id, s: System, now: int, readable: bool)
    requires s.wire.Back?
    ensures var r, a := Next(c, clientId, s, Arrived(now, readable)), s.wire.answer;
            && r.wire == Quiet && r.stored == s.stored && r.world == s.world && r.client.loaded == s.client.loaded
            && (if a.Issued? && readable
                then r.client.tokens == Some(Pair(a.access, a.refresh, Some(now + 5 * 60 * 1000)))
                     && r.client.flight == Saving(r.client.tokens.value)
                else r.client.tokens.None? && r.client.flight.Clearing?)
  {
  }

  /** Over any undisturbed run: whatever a starting call is handed is good for another half minute, and once it is not,
      the next call that starts sends the server's own current token to renew it. */
  lemma RenewedInTime(c: Config, clientId: Id, g: Id, s: System, run: seq<Event>, now: int)
    requires Inv(c, s.world) && InStep(s, g) && Undisturbed(c, clientId, g, s, run)
    ensures var r := ClientServer.After(c, clientId, s, run);
            var m := r.client;
            && (HandedOut(m, Asking(now)).Some? ==>
                  m.tokens.Some? && m.tokens.value.access == HandedOut(m, Asking(now)).value && !Due(m.tokens.value, now))
            && (Idle(m) && m.tokens.Some? && Due(m.tokens.value, now) ==>
                  var next := Next(c, clientId, r, Asking(now));
                  HandedOut(m, Asking(now)).None? && next.wire == Sent(m.tokens.value.refresh)
                  && Current(next.world, g, m.tokens.value.refresh))
            && (Idle(m) && m.tokens.Some? && !Due(m.tokens.value, now) ==> HandedOut(m, Asking(now)).Some?)
  {
    hide Inv, Next, Current;
    RunInStep(c, clientId, g, s, run);
    AskingExactly(c, clientId, ClientServer.After(c, clientId, s, run), now);
  }

  // ---------- Disconnected ----------

  /** Without tokens, and no answer awaited that could bring any. */
  predicate Disconnected(s: System) {
    s.client.loaded && s.client.tokens.None? && !s.client.flight.Asked? && s.wire.Quiet?
  }

  lemma NextDisconnected(c: Config, clientId: Id, s: System, e: Event)
    requires Disconnected(s)
    ensures Disconnected(Next(c, clientId, s, e)) && HandedOut(s.client, e).None?
  {
    hide Step;
  }

  /** Once disconnected, no call is ever handed a token and no refresh is ever sent. */
  lemma {:induction false} DisconnectedForGood(c: Config, clientId: Id, s: System, run: seq<Event>)
    requires Disconnected(s)
    ensures Disconnected(ClientServer.After(c, clientId, s, run))
    ensures forall e :: HandedOut(ClientServer.After(c, clientId, s, run).client, e).None?
    decreases |run|
  {
    hide Next, HandedOut;
    if run != [] {
      DisconnectedForGood(c, clientId, s, run[..|run| - 1]);
      NextDisconnected(c, clientId, ClientServer.After(c, clientId, s, run[..|run| - 1]), run[|run| - 1]);
    }
    forall e ensures HandedOut(ClientServer.After(c, clientId, s, run).client, e).None? {
      NextDisconnected(c, clientId, ClientServer.After(c, clientId, s, run), e);
    }
  }

  /** A second refusal disconnects unless a refresh is out, and so does an answer that is no readable pair; the clearing
      empties the store. */
  lemma Disconnects(c: Config, clientId: Id, s: System, now: int, readable: bool)
    requires s.client.loaded && (s.client.flight.Asked? <==> !s.wire.Quiet?)
    ensures !s.client.flight.Asked? ==> Disconnected(Next(c, clientId, s, RefusedAgain))
    ensures s.wire.Back? && !(s.wire.answer.Issued? && readable) ==>
              var r := Next(c, clientId, s, Arrived(now, readable));
              Disconnected(r) && Next(c, clientId, r, Saved(true)).stored.None?
  {
  }

  /** The stored pair is read once, as it is, before anything else; until then no call gets anything. */
  lemma LoadingExactly(c: Config, clientId: Id, s: System, e: Event)
    ensures Next(c, clientId, s, Loading).client
         == (if s.client.loaded then s.client else s.client.(tokens := s.stored, loaded := true))
    ensures !s.client.loaded ==> HandedOut(s.client, e).None?
  {
  }

  /** A saved pair is what the store holds from then on, and a refresh that has settled makes room for the next. */
  lemma SavedExactly(c: Config, clientId: Id, s: System, ok: bool)
    requires s.client.flight.Saving?
    ensures var r := Next(c, clientId, s, Saved(ok));
            && r.stored == (if ok then Some(s.client.flight.pair) else s.stored) && r.client.tokens == s.client.tokens
            && Next(c, clientId, r, Releasing).client == s.client.(flight := NoFlight)
  {
  }
}
