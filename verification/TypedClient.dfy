/** The typed client's shared variables, changed by the blocks of its calls (src/client/index.ts). */
module TypedClient {
  import opened Basics
  import opened OAuthModel
  import opened ClientModel
  import opened ClientServer

  class ConnectorClient {
    var tokens: Option<Pair>
    var loaded: bool
    var refreshing: Flight

    function State(): Memory
      reads this
    {
      Memory(tokens, loaded, refreshing)
    }

    constructor ()
      ensures State() == Memory(None, false, NoFlight)
    {
      tokens, loaded, refreshing := None, false, NoFlight;
    }

    /** `load`: the stored pair is read once. */
    method OnLoaded(stored: Option<Pair>)
      modifies this
      ensures State() == Load(old(State()), stored)
    {
      if !loaded {
        tokens := stored;
        loaded := true;
      }
    }

    method Renew(used: Id) returns (d: Decision)
      modifies this
      ensures (State(), d) == Renewed(old(State()), used)
    {
      if tokens.None? {
        return NotConnected;
      }
      if tokens.value.access != used {
        return Use(tokens.value.access);
      }
      if refreshing.NoFlight? {
        refreshing := Asked(tokens.value.refresh);
      }
      d := AwaitRefresh;
    }

    method CurrentAccessToken(now: int) returns (d: Decision)
      modifies this
      ensures (State(), d) == AccessToken(old(State()), now)
    {
      if !refreshing.NoFlight? {
        return AwaitRefresh;
      }
      if tokens.None? {
        return NotConnected;
      }
      var current := tokens.value.access;
      if tokens.value.expiresAt.Some? && now >= tokens.value.expiresAt.value - EXPIRY_MARGIN_MS {
        d := Renew(current);
        return;
      }
      d := Use(current);
    }

    method OnAnswer(a: Answer, readable: bool, now: int)
      requires refreshing.Asked?
      modifies this
      ensures State() == Answered(old(State()), a, readable, now)
    {
      if !a.Issued? || !readable {
        tokens := None;
        refreshing := Clearing;
        return;
      }
      var next := Pair(a.access, a.refresh, Some(now + 300 * 1000));
      tokens := Some(next);
      refreshing := Saving(next);
    }

    /** The request failed, or the save or the clearing ended. */
    method OnFinished()
      requires !refreshing.NoFlight? && !refreshing.Settled?
      modifies this
      ensures State() == Finished(old(State()))
    {
      refreshing := Settled;
    }

    /** The refresh has settled, and its last handler runs. */
    method OnReleased()
      requires refreshing.Settled?
      modifies this
      ensures State() == Released(old(State()))
    {
      refreshing := NoFlight;
    }

    method OnSecondRefusal()
      modifies this
      ensures State() == RefusedTwice(old(State()))
    {
      tokens := None;
    }

    /** The blocks answer every event as the composed system of ClientServer says, and send what it sends. */
    method React(ghost c: Config, ghost clientId: Id, ghost s: System, e: Event, stored: Option<Pair>, wire: Wire)
      returns (send: Option<RefreshToken>)
      requires s.client == State() && s.stored == stored && s.wire == wire && (refreshing.Asked? <==> !wire.Quiet?)
      modifies this
      ensures State() == Next(c, clientId, s, e).client
      ensures send.Some? ==> Next(c, clientId, s, e).wire == Sent(send.value)
      ensures send.None? && !e.Served? && !e.TurnedAway? && !e.Arrived? && !e.Lost? && !e.NeverArrived? ==>
                Next(c, clientId, s, e).wire == wire
    {
      hide Step;
      send := None;
      var idle := refreshing.NoFlight?;
      match e {
        case Loading => OnLoaded(stored);
        case Asking(at) =>
          if loaded {
            var d := CurrentAccessToken(at);
          }
        case Refused(used) =>
          if loaded {
            var d := Renew(used);
          }
        case RefusedAgain =>
          if loaded {
            OnSecondRefusal();
          }
        case Saved(_) =>
          if refreshing.Saving? || refreshing.Clearing? {
            OnFinished();
          }
        case Releasing =>
          if refreshing.Settled? {
            OnReleased();
          }
        case NeverArrived =>
          if wire.Sent? {
            OnFinished();
          }
        case Arrived(at, readable) =>
          if wire.Back? {
            OnAnswer(wire.answer, readable, at);
          }
        case Lost =>
          if wire.Back? {
            OnFinished();
          }
        case _ =>
      }
      if idle && refreshing.Asked? {
        send := Some(refreshing.token);
      }
    }
  }
}
