/**
 * Interleavings of a connected client and the server that reach what ClientServer speaks of: a new pair lost on
 * its way back, and an access token used before it is saved (src/client/index.ts).
 */
module ClientWitness {
  import opened Basics
  import opened OAuthModel
  import opened OAuthInvariants
  import opened OAuthRuns
  import opened OAuthReplay
  import opened OAuthWitness
  import opened ClientModel
  import CS = ClientServer

  /** The pair of the n-th issue. */
  function PairOf(n: nat): Pair {
    Pair(2 * n + 3, RefreshOf(n), Some(300 * 1000))
  }

  /** The app has connected, and its client starts. */
  function Begin(c: Config, uri: Uri): CS.System {
    CS.System(Both(Connected(c, uri, 1), 6), Memory(None, false, NoFlight), Some(PairOf(1)), CS.Quiet)
  }

  lemma BeginInStep(c: Config, uri: Uri)
    requires Usable(c, uri)
    ensures After(c, Start(), Renewals(c, uri)[..4]) == Begin(c, uri).world
    ensures Inv(c, Begin(c, uri).world) && CS.InStep(Begin(c, uri), 2) && CS.InOrder(Begin(c, uri))
  {
    hide Inv, Connected;
    StartInv(c);
    RunInv(c, Start(), Renewals(c, uri)[..4]);
    RenewalWorlds(c, uri, 4);
    LastWorlds(c, uri);
    ConnectedIs(c, uri, 1);
  }

  /** It renews, and the server has answered. */
  const RENEWING: seq<CS.Event> := [CS.Loading, CS.Refused(5), CS.Served(0, true)]

  function Answered(c: Config, uri: Uri): CS.System {
    CS.System(Both(Connected(c, uri, 2), 8), Memory(Some(PairOf(1)), true, Asked(RefreshOf(1))), Some(PairOf(1)),
              CS.Back(Issued(7, RefreshOf(2), c.scopes)))
  }

  lemma AfterPush(c: Config, s: CS.System, run: seq<CS.Event>, e: CS.Event)
    ensures CS.After(c, 0, s, run + [e]) == CS.Next(c, 0, CS.After(c, 0, s, run), e)
  {
    hide CS.Next;
    assert (run + [e])[..|run|] == run;
  }

  lemma Renews(c: Config, uri: Uri)
    requires Usable(c, uri)
    ensures CS.After(c, 0, Begin(c, uri), RENEWING) == Answered(c, uri)
    ensures CS.Undisturbed(c, 0, 2, Begin(c, uri), RENEWING)
  {
    hide Step, Connected;
    var s := Begin(c, uri);
    assert [] + [CS.Loading] + [CS.Refused(5)] + [CS.Served(0, true)] == RENEWING;
    AfterPush(c, s, [], CS.Loading);
    AfterPush(c, s, [] + [CS.Loading], CS.Refused(5));
    AfterPush(c, s, [] + [CS.Loading] + [CS.Refused(5)], CS.Served(0, true));
    Refreshes(c, uri, 1);
  }

  lemma AnsweredInStep(c: Config, uri: Uri)
    requires Usable(c, uri)
    ensures Inv(c, Answered(c, uri).world) && CS.InStep(Answered(c, uri), 2)
  {
    hide Inv, CS.InStep, CS.Undisturbed, Connected;
    BeginInStep(c, uri);
    Renews(c, uri);
    CS.RunInStep(c, 0, 2, Begin(c, uri), RENEWING);
  }

  /** The answer is lost and the client renews once more: the server takes it for a replay. */
  lemma LostAnswerHappens(c: Config, uri: Uri)
    requires Usable(c, uri)
    ensures CS.After(c, 0, Begin(c, uri), RENEWING) == Answered(c, uri)
    ensures var r := CS.After(c, 0, CS.Next(c, 0, Answered(c, uri), CS.Lost), [CS.Releasing, CS.Refused(5)]);
            r.wire.Sent? && RefreshReplayed(c, r.world, CS.Request(c, r, 0, 0, true), 2)
  {
    hide Inv, Connected, Step, RefreshReplayed, CS.InStep, LiveGrant;
    Renews(c, uri);
    AnsweredInStep(c, uri);
    ConnectedIs(c, uri, 2);
    var lost, tail := CS.Next(c, 0, Answered(c, uri), CS.Lost), [CS.Releasing, CS.Refused(5)];
    assert [] + [CS.Releasing] + [CS.Refused(5)] == tail;
    AfterPush(c, lost, [], CS.Releasing);
    AfterPush(c, lost, [] + [CS.Releasing], CS.Refused(5));
    CS.LostAnswerIsReplay(c, 0, 2, Answered(c, uri), tail, 0, true);
  }

  /** A second call that was refused the old token gets the new one while its save is still under way. */
  lemma UnsavedTokenHappens(c: Config, uri: Uri)
    requires Usable(c, uri)
    ensures CS.InOrder(Begin(c, uri)) && forall i :: 0 <= i < |RENEWING| ==> CS.Keeping(RENEWING[i])
    ensures var r := CS.After(c, 0, Begin(c, uri), RENEWING + [CS.Arrived(0, true)]);
            && CS.HandedOut(r.client, CS.Refused(5)) == Some(7) && r.client.flight.Saving?
            && r.stored == Some(PairOf(1)) && PairOf(1).access == 5
  {
    hide Connected, Step, Inv, CS.InStep, CS.InOrder, CS.Undisturbed, CS.After, Begin;
    BeginInStep(c, uri);
    Renews(c, uri);
    AfterPush(c, Begin(c, uri), RENEWING, CS.Arrived(0, true));
  }
}
