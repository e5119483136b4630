/** Consent bounds everything issued from it: token, grant, consented and server scopes nest (src/http/oauth.ts). */
module OAuthConsent {
  import opened Basics
  import opened OAuthModel
  import opened OAuthInvariants
  import opened OAuthRuns
  import opened OAuthLasting
  import opened OAuthReplay

  /** What the parent consents to: the scopes chosen, all that were asked for when none are named. */
  function Selection(t: Timed, request: Pending): set<Scope>
    requires t.op.OpApprove?
  {
    if t.op.scopes.Some? then t.op.scopes.value else request.scopes
  }

  /** What a consent that was answered with a code leaves: one new grant for exactly what was chosen, within what was
      asked for, and one unused code for it that is bound to the request. */
  lemma ApproveNarrows(c: Config, w: World, t: Timed) returns (g: Id)
    requires Inv(c, w) && t.op.OpApprove? && Step(c, w, t).1.Redirected?
    ensures PendingRequest(w.mem, t.at, t.op.id).Some?
    ensures var (r, a) := Step(c, w, t);
            var request := PendingRequest(w.mem, t.at, t.op.id).value;
            && r.disk == r.mem && w.supply <= g < r.supply
            && a.code in r.mem.codes && g in r.mem.grants
            && r.mem.codes[a.code] == Code(request.clientId, g, request.redirectUri, request.challenge, t.at + 60_000, false)
            && r.mem.grants[g] == Grant(c.resourceUrl, request.clientId, Selection(t, request), t.op.childIds, t.at, t.at + 30 * DAY)
            && t.op.childIds != {} && (forall child :: child in t.op.childIds ==> 0 < child <= MAX_SAFE_INTEGER)
            && {} < Selection(t, request) <= request.scopes <= c.scopes
            && r.mem.pending == WithoutPending(Prune(w.mem, t.at).pending, t.op.id)
  {
    hide Below, Linked, Agree, Prune, PendingRequest, WithoutPending;
    g := w.supply;
    FoundPending(w.mem, w.supply, c, t.at, t.op.id);
  }

  /** Whatever is issued or accepted for a grant lies within the grant's scopes. */
  lemma NamedWithin(c: Config, w: World, t: Timed, g: Id)
    requires Inv(c, w) && Names(Step(c, w, t).1, g)
    ensures g in w.mem.grants && Step(c, w, t).1.scopes <= w.mem.grants[g].scopes
    ensures Step(c, w, t).1.Verified? ==> Step(c, w, t).1.clientId == w.mem.grants[g].clientId
  {
    hide Inv, Step, Prune;
    if Step(c, w, t).1.Verified? {
      VerifiedWithin(c, w, t);
    } else {
      IssuedIsLive(c, w, t);
      var ch := StepChanges(c, w, t);
      IssueWithin(c, w, t, Step(c, w, t).0, ch);
      PruneGrants(w.mem, t.at);
    }
  }

  lemma VerifiedWithin(c: Config, w: World, t: Timed)
    requires Inv(c, w) && Step(c, w, t).1.Verified?
    ensures var a := Step(c, w, t).1;
            a.grantId in w.mem.grants && a.scopes <= w.mem.grants[a.grantId].scopes
            && a.clientId == w.mem.grants[a.grantId].clientId
  {
    hide CodesLinked, RefreshLinked, ScopesWithin, Agree;
    OnlyVerifyVerifies(c, w, t);
  }

  /** However long after a consent, no token is issued or accepted for its grant with a scope the parent did not
      choose, and none is accepted for another client. */
  lemma ConsentBounds(c: Config, w: World, run: seq<Timed>, i: nat, j: nat)
    requires Inv(c, w) && i < j < |run|
    requires run[i].op.OpApprove? && AnswerAt(c, w, run, i).Redirected?
    ensures PendingRequest(After(c, w, run[..i]).mem, run[i].at, run[i].op.id).Some?
    ensures var request := PendingRequest(After(c, w, run[..i]).mem, run[i].at, run[i].op.id).value;
            var store := After(c, w, run[..i + 1]).mem;
            var a := AnswerAt(c, w, run, j);
            && AnswerAt(c, w, run, i).code in store.codes
            && (Names(a, store.codes[AnswerAt(c, w, run, i).code].grantId) ==>
                  a.scopes <= Selection(run[i], request) <= request.scopes <= c.scopes && (a.Verified? ==> a.clientId == request.clientId))
  {
    hide Inv, Step, PendingRequest, WithoutPending, Prune;
    RunInv(c, w, run[..i]);
    var v := After(c, w, run[..i]);
    var g := ApproveNarrows(c, v, run[i]);
    assert run[..i + 1][..i] == run[..i] && run[..j][..i + 1] == run[..i + 1];
    var x := After(c, w, run[..i + 1]);
    assert x == Step(c, v, run[i]).0;
    RunInv(c, w, run[..i + 1]);
    RunInv(c, w, run[..j]);
    AfterParts(c, w, run[..j], i + 1);
    RunGrantIs(c, x, run[..j][i + 1..], g, x.mem.grants[g]);
    if Names(AnswerAt(c, w, run, j), g) {
      NamedWithin(c, After(c, w, run[..j]), run[j], g);
    }
  }
}
