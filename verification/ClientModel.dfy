/**
 * The typed client's rotating pair of tokens (src/client/index.ts): what each block between two awaits does to
 * the variables all its calls share.
 */
module ClientModel {
  import opened Basics
  import opened OAuthModel

  const EXPIRY_MARGIN_MS := 30_000

  datatype Pair = Pair(access: Id, refresh: RefreshToken, expiresAt: Option<int>)

  /** The one refresh under way: its request is out, the new pair is being saved, the old one cleared, or it is
      settled and only its last handler has still to run. */
  datatype Flight = NoFlight | Asked(token: RefreshToken) | Saving(pair: Pair) | Clearing | Settled

  datatype Memory = Memory(tokens: Option<Pair>, loaded: bool, flight: Flight)

  /** What a call does next: fail, use this access token, or wait for the refresh. */
  datatype Decision = NotConnected | Use(access: Id) | AwaitRefresh

  function Load(m: Memory, stored: Option<Pair>): Memory {
    if m.loaded then m else m.(tokens := stored, loaded := true)
  }

  /** `renewed`: a token newer than `used`, or the start of the only refresh. */
  function Renewed(m: Memory, used: Id): (Memory, Decision) {
    if m.tokens.None? then (m, NotConnected)
    else if m.tokens.value.access != used then (m, Use(m.tokens.value.access))
    else if m.flight.NoFlight? then (m.(flight := Asked(m.tokens.value.refresh)), AwaitRefresh)
    else (m, AwaitRefresh)
  }

  /** `accessToken`, once the stored pair is loaded. */
  function AccessToken(m: Memory, now: int): (Memory, Decision) {
    if !m.flight.NoFlight? then (m, AwaitRefresh)
    else if m.tokens.None? then (m, NotConnected)
    else
      var current := m.tokens.value;
      if current.expiresAt.Some? && now >= current.expiresAt.value - EXPIRY_MARGIN_MS then Renewed(m, current.access)
      else (m, Use(current.access))
  }

  /** The answer to the refresh: `readable` says that the body is the pair it should be. */
  function Answered(m: Memory, a: Answer, readable: bool, now: int): Memory {
    if a.Issued? && readable then
      var next := Pair(a.access, a.refresh, Some(now + 300 * 1000));
      m.(tokens := Some(next), flight := Saving(next))
    else m.(tokens := None, flight := Clearing)
  }

  /** The request failed, or the save or the clearing came to an end, well or badly. */
  function Finished(m: Memory): Memory {
    m.(flight := Settled)
  }

  function Released(m: Memory): Memory {
    m.(flight := NoFlight)
  }

  /** A call was refused a second time. */
  function RefusedTwice(m: Memory): Memory {
    m.(tokens := None)
  }
}
