/**
 * A spent refresh token or a used code presented again ends its grant (section 4.14.2 of RFC 9700, section
 * 4.1.2 of RFC 6749); an issuance that fails leaves what was presented redeemable (src/http/oauth.ts).
 */
module OAuthReplay {
  import opened OAuthModel
  import opened OAuthInvariants
  import opened OAuthRuns
  import opened OAuthLasting

  // ---------- A grant that is gone ----------

  /** Gone from memory, and from what a restart would read. */
  ghost predicate Ended(w: World, g: Id) {
    g < w.supply && g !in w.mem.grants && g !in w.disk.grants
  }

  /** The answer hands out or accepts something that belongs to grant `g`. */
  predicate Names(a: Answer, g: Id) {
    (a.Issued? && a.refresh.Signed? && a.refresh.id == g) || (a.Verified? && a.grantId == g)
  }

  lemma OnlyVerifyVerifies(c: Config, w: World, t: Timed)
    requires Step(c, w, t).1.Verified?
    ensures t.op.OpVerify?
  {
    hide Prune, DropStale, OldestIdle, InUse, MakeRoom, WithoutPending, PendingRequest, WithTokens, WithoutGrant, Granted;
  }

  lemma VerifiedIsLive(c: Config, w: World, t: Timed)
    requires Step(c, w, t).1.Verified?
    ensures t.op.OpVerify? && LiveGrant(c, w.mem, t.at, Step(c, w, t).1.grantId)
  {
    OnlyVerifyVerifies(c, w, t);
  }

  lemma StepEnded(c: Config, w: World, t: Timed, g: Id)
    requires Inv(c, w) && g < w.supply && g !in w.mem.grants
    ensures !Names(Step(c, w, t).1, g)
    ensures Ended(w, g) || !t.op.OpRestart? ==> g !in Step(c, w, t).0.mem.grants
    ensures Ended(w, g) ==> Ended(Step(c, w, t).0, g)
  {
    hide Inv, Step, Prune, Sound, Hands;
    var ch := StepChanges(c, w, t);
    var (r, a) := Step(c, w, t);
    if a.Verified? {
      VerifiedIsLive(c, w, t);
    }
    if a.Issued? {
      IssuedIsLive(c, w, t);
    }
    match ch
    case Kept =>
    case Reissued(_, _, _, _) => PruneOnly(w, t.at);
    case Restarted => RestartIs(c, w, t);
  }

  /** Once gone everywhere, a grant never returns, and nothing of it is handed out or accepted again. */
  lemma {:induction false} EndedForever(c: Config, w: World, run: seq<Timed>, g: Id)
    requires Inv(c, w) && Ended(w, g)
    ensures Ended(After(c, w, run), g)
    ensures forall i :: 0 <= i < |run| ==> !Names(AnswerAt(c, w, run, i), g)
    decreases |run|
  {
    hide Inv, Step, Ended, Names;
    if run != [] {
      var n := |run| - 1;
      EndedForever(c, w, run[..n], g);
      RunInv(c, w, run[..n]);
      EndedIs(After(c, w, run[..n]), g);
      StepEnded(c, After(c, w, run[..n]), run[n], g);
      forall i | 0 <= i < |run| ensures !Names(AnswerAt(c, w, run, i), g) {
        if i < n {
          assert run[..n][..i] == run[..i] && AnswerAt(c, w, run, i) == AnswerAt(c, w, run[..n], i);
        }
      }
    }
  }

  lemma EndedIs(w: World, g: Id)
    ensures Ended(w, g) <==> g < w.supply && g !in w.mem.grants && g !in w.disk.grants
  {
  }

  // ---------- Replays ----------

  /** The client of a live grant presents a refresh token of it that is not the current one. */
  ghost predicate RefreshReplayed(c: Config, w: World, t: Timed, g: Id) {
    && t.op.OpExchangeRefresh? && t.op.resource == c.resourceUrl
    && t.op.token.Signed? && t.op.token.id == g && Readable(w.mem, t.op.token)
    && LiveGrant(c, w.mem, t.at, g) && w.mem.grants[g].clientId == t.op.clientId
    && t.op.token.counter != w.mem.refresh[g].counter
  }

  /** The client of a used code presents it again while the server still knows it. */
  ghost predicate CodeReplayed(c: Config, w: World, t: Timed, g: Id) {
    && (t.op.OpChallenge? || (t.op.OpExchangeCode? && t.op.resource == c.resourceUrl))
    && (var client, code := t.op.clientId, t.op.code;
        CodePresented(w.mem, t.at, client, code) && w.mem.codes[code].used && w.mem.codes[code].grantId == g)
  }

  /** Nothing of grant `g` is left. */
  ghost predicate NothingOf(s: Store, g: Id) {
    && g !in s.grants && g !in s.refresh
    && (forall k :: k in s.codes ==> s.codes[k].grantId != g)
    && (forall k :: k in s.tokens ==> s.tokens[k].grantId != g)
  }

  lemma ReplayWithdraws(c: Config, w: World, t: Timed, g: Id)
    requires Inv(c, w) && (RefreshReplayed(c, w, t, g) || CodeReplayed(c, w, t, g))
    ensures var (r, a) := Step(c, w, t);
            a.Failed? && NothingOf(r.mem, g) && r.disk == (if t.ok then r.mem else w.disk) && g < r.supply
  {
    hide TokensLinked, ScopesWithin, Agree;
  }

  /** No run leads to a state in which the grant exists. */
  ghost predicate NeverBack(c: Config, w: World, g: Id) {
    forall run: seq<Timed> :: !Holds(After(c, w, run), g)
  }

  predicate Holds(w: World, g: Id) {
    g in w.mem.grants
  }

  /** After a replay no operation on any run brings the grant back, exactly when the withdrawal was written or
      the repository did not hold the grant. */
  lemma ReplayEndsForGood(c: Config, w: World, t: Timed, g: Id)
    requires Inv(c, w) && (RefreshReplayed(c, w, t, g) || CodeReplayed(c, w, t, g))
    ensures t.ok || g !in w.disk.grants <==>
            NeverBack(c, Step(c, w, t).0, g)
  {
    hide Inv, Step, RefreshReplayed, CodeReplayed;
    var r := Step(c, w, t).0;
    ReplayWithdraws(c, w, t, g);
    StepInv(c, w, t);
    if t.ok || g !in w.disk.grants {
      forall run: seq<Timed> ensures !Holds(After(c, r, run), g) {
        EndedForever(c, r, run, g);
      }
    } else {
      RestartIs(c, r, Timed(OpRestart, t.at, true));
      var run := [Timed(OpRestart, t.at, true)];
      assert run[..0] == [];
      assert After(c, r, run) == Step(c, r, run[0]).0;
      assert Holds(After(c, r, run), g);
    }
  }

  /** Once a replay's withdrawal is written, no later answer of the run names the grant. */
  lemma WrittenReplayIsFinal(c: Config, w: World, run: seq<Timed>, i: nat, j: nat, g: Id)
    requires Inv(c, w) && i < j < |run| && run[i].ok
    requires var v := After(c, w, run[..i]); RefreshReplayed(c, v, run[i], g) || CodeReplayed(c, v, run[i], g)
    ensures !Names(AnswerAt(c, w, run, j), g)
  {
    hide Inv, Step, RefreshReplayed, CodeReplayed, Names;
    var v := After(c, w, run[..i]);
    RunInv(c, w, run[..i]);
    ReplayWithdraws(c, v, run[i], g);
    StepInv(c, v, run[i]);
    var x, tail := Step(c, v, run[i]).0, run[i + 1..];
    assert run[..i + 1][..i] == run[..i];
    assert run[..j][..i + 1] == run[..i + 1] && run[..j][i + 1..] == tail[..j - i - 1];
    AfterParts(c, w, run[..j], i + 1);
    EndedForever(c, x, tail, g);
    assert AnswerAt(c, x, tail, j - i - 1) == AnswerAt(c, w, run, j);
  }

  // ---------- What has been redeemed counts as spent ----------

  /** Presenting a redeemed refresh token again, while its grant is live, is a replay: it ends the grant. */
  lemma SpentRefreshIsReplay(c: Config, w: World, run: seq<Timed>, i: nat, j: nat)
    requires Inv(c, w) && i < j < |run|
    requires run[i].op.OpExchangeRefresh? && AnswerAt(c, w, run, i).Issued?
    requires run[j].op.OpExchangeRefresh? && run[j].op.token == run[i].op.token && run[j].op.resource == c.resourceUrl
    ensures run[i].op.token.Signed?
    ensures var y, g := After(c, w, run[..j]), run[i].op.token.id;
            LiveGrant(c, y.mem, run[j].at, g) && y.mem.grants[g].clientId == run[j].op.clientId ==>
              RefreshReplayed(c, y, run[j], g)
  {
    hide Inv, Step, Onward;
    var x, y := Between(c, w, run, i, j);
    var v := After(c, w, run[..i]);
    var g := IssueLeaves(c, v, run[i]);
    RedeemedWasReadable(c, v, run[i]);
    IssueKeepsKey(c, v, run[i], g);
    if LiveGrant(c, y.mem, run[j].at, g) {
      OnwardKey(y.mem, x.mem, x.supply, g);
    }
  }

  lemma OnwardKey(s: Store, x: Store, n: nat, g: Id)
    requires Onward(s, x, n) && g in s.grants && g < n && g in x.refresh
    ensures g in s.refresh && s.refresh[g].key == x.refresh[g].key && s.refresh[g].counter >= x.refresh[g].counter
  {
  }

  lemma RedeemedWasReadable(c: Config, w: World, t: Timed)
    requires t.op.OpExchangeRefresh? && Step(c, w, t).1.Issued?
    ensures Readable(w.mem, t.op.token)
  {
  }

  lemma IssueKeepsKey(c: Config, w: World, t: Timed, g: Id)
    requires Inv(c, w) && Step(c, w, t).1.Issued? && t.op.OpExchangeRefresh? && t.op.token.Signed? && t.op.token.id == g
    requires g in w.mem.refresh
    ensures g in Step(c, w, t).0.mem.refresh && Step(c, w, t).0.mem.refresh[g].key == w.mem.refresh[g].key
  {
    hide Inv, Step, Prune;
    var ch := StepChanges(c, w, t);
    PruneAt(w, t.at);
  }

  lemma ExchangedIsRemembered(c: Config, w: World, t: Timed)
    requires Inv(c, w) && t.op.OpExchangeCode? && Step(c, w, t).1.Issued?
    ensures CodePresented(w.mem, t.at, t.op.clientId, t.op.code)
    ensures RememberedBy(Step(c, w, t).0, t.op.code, w.mem.codes[t.op.code].(used := true))
  {
    hide Inv, Step, Prune;
    var g := IssueLeaves(c, w, t);
    ExchangedWasPresented(c, w, t);
    var ch := StepChanges(c, w, t);
    PruneOnly(w, t.at);
  }

  /** A second presentation of an exchanged code by its client, before the code expires, withdraws what was
      issued from it, if anything was left. */
  lemma ExchangedCodeIsReplay(c: Config, w: World, run: seq<Timed>, i: nat, j: nat)
    requires Inv(c, w) && i < j < |run|
    requires run[i].op.OpExchangeCode? && AnswerAt(c, w, run, i).Issued?
    requires run[j].op.OpChallenge? || (run[j].op.OpExchangeCode? && run[j].op.resource == c.resourceUrl)
    requires run[j].op.code == run[i].op.code && run[j].op.clientId == run[i].op.clientId
    requires run[i].op.code in After(c, w, run[..i]).mem.codes
    requires forall m :: i <= m <= j ==> run[m].at < After(c, w, run[..i]).mem.codes[run[i].op.code].expiresAt
    ensures AnswerAt(c, w, run, i).refresh.Signed?
    ensures var y, g := After(c, w, run[..j]), AnswerAt(c, w, run, i).refresh.id;
            g in y.mem.grants ==> CodeReplayed(c, y, run[j], g)
  {
    hide Inv, Step;
    var x, y := Between(c, w, run, i, j);
    var v := After(c, w, run[..i]);
    ExchangedIsRemembered(c, v, run[i]);
    ExchangedWasPresented(c, v, run[i]);
    var entry := v.mem.codes[run[i].op.code].(used := true);
    var tail := run[..j][i + 1..];
    assert run[..j][..i + 1] == run[..i + 1] && run[..i + 1][..i] == run[..i];
    AfterParts(c, w, run[..j], i + 1);
    StepInv(c, v, run[i]);
    forall m | 0 <= m < |tail| ensures Spares(tail[m], run[i].op.code, entry) {
      assert tail[m] == run[i + 1 + m];
    }
    RunRemembers(c, x, tail, run[i].op.code, entry);
  }

  // ---------- A failed issuance changes nothing for the client ----------

  /** The full table or a throwing write: the same refresh token redeems later on, as long as the client has not
      presented it in between and the grant lives, as soon as neither stands in the way. */
  lemma FailedRefreshIsRetryable(c: Config, w: World, t: Timed, run: seq<Timed>, again: Timed)
    requires Inv(c, w) && t.op.OpExchangeRefresh? && again.op == t.op
    requires Step(c, w, t).1 in {Failed(TemporarilyUnavailable), Failed(WriteFailed)}
    requires t.op.token.Signed? && t.op.token.id in w.mem.refresh && t.op.token.counter == w.mem.refresh[t.op.token.id].counter
    requires NotPresented(c, Step(c, w, t).0, run, t.op.token.id)
    ensures var y, g := After(c, Step(c, w, t).0, run), t.op.token.id;
            again.ok && g in y.mem.grants && again.at < y.mem.grants[g].expiresAt
            && |Prune(y.mem, again.at).tokens| < MAX_TOKENS
            ==> Step(c, y, again).1.Issued?
  {
    hide Inv, Prune, NotPresented, GrantBy, RotationBy, KeptBy;
    var g := t.op.token.id;
    RotationOf(c, w, g);
    GrantOf(c, w, g);
    var rotation, grant := w.mem.refresh[g], w.mem.grants[g];
    FailedRefreshKept(c, w, t);
    var r := Step(c, w, t).0;
    KeptRotation(c, w, t.at, r, g, rotation);
    KeptGrant(c, w, t.at, r, g, grant);
    StepInv(c, w, t);
    RunRotation(c, r, run, g, rotation);
    RunGrantIs(c, r, run, g, grant);
    var y := After(c, r, run);
    if g in y.mem.grants {
      RotationByMem(y, g, rotation);
      GrantByMem(y, g, grant);
    }
    RefreshAgain(c, w, t, y, again);
  }

  lemma FailedRefreshKept(c: Config, w: World, t: Timed)
    requires Inv(c, w) && t.op.OpExchangeRefresh? && Step(c, w, t).1.Failed?
    ensures KeptBy(c, w, t.at, Step(c, w, t).0)
  {
    hide Inv, KeptBy, Step;
    var ch := ExchangeRefreshChanges(c, w, t);
  }

  lemma RefreshAgain(c: Config, w: World, t: Timed, y: World, again: Timed)
    requires t.op.OpExchangeRefresh? && again.op == t.op && t.op.token.Signed?
    requires Step(c, w, t).1 in {Failed(TemporarilyUnavailable), Failed(WriteFailed)}
    requires var g := t.op.token.id;
             g in w.mem.refresh && t.op.token.counter == w.mem.refresh[g].counter && g in w.mem.grants
             && (g in y.mem.grants ==>
                   y.mem.grants[g] == w.mem.grants[g] && g in y.mem.refresh && y.mem.refresh[g] == w.mem.refresh[g])
    ensures var g := t.op.token.id;
            again.ok && g in y.mem.grants && again.at < y.mem.grants[g].expiresAt
            && |Prune(y.mem, again.at).tokens| < MAX_TOKENS
            ==> Step(c, y, again).1.Issued?
  {
    hide Prune, WithTokens;
  }

  /** Likewise the same code, until it expires. */
  lemma FailedExchangeIsRetryable(c: Config, w: World, t: Timed, run: seq<Timed>, again: Timed)
    requires Inv(c, w) && t.op.OpExchangeCode? && again.op == t.op
    requires Step(c, w, t).1 in {Failed(TemporarilyUnavailable), Failed(WriteFailed)}
    requires t.op.code in w.mem.codes && !w.mem.codes[t.op.code].used
    requires forall i :: 0 <= i < |run| ==> Spares(run[i], t.op.code, w.mem.codes[t.op.code])
    ensures var y, entry := After(c, Step(c, w, t).0, run), w.mem.codes[t.op.code];
            again.ok && entry.grantId in y.mem.grants && again.at < entry.expiresAt
            && |Prune(y.mem, again.at).tokens| < MAX_TOKENS
            ==> Step(c, y, again).1.Issued?
  {
    hide Inv, Prune, GrantBy, RememberedBy, KeptBy, Spares;
    var code, entry := t.op.code, w.mem.codes[t.op.code];
    CodeOutlived(c, w, code);
    RememberedOf(c, w, code);
    GrantOf(c, w, entry.grantId);
    var grant := w.mem.grants[entry.grantId];
    FailedExchangeKept(c, w, t);
    var r := Step(c, w, t).0;
    FailedWasPresented(c, w, t);
    KeptCode(c, w, t.at, r, code, entry);
    KeptGrant(c, w, t.at, r, entry.grantId, grant);
    StepInv(c, w, t);
    RunRemembers(c, r, run, code, entry);
    RunGrantIs(c, r, run, entry.grantId, grant);
    var y := After(c, r, run);
    if entry.grantId in y.mem.grants {
      RememberedByMem(y, code, entry);
      GrantByMem(y, entry.grantId, grant);
    }
    ExchangeAgain(c, w, t, y, again);
  }

  lemma FailedExchangeKept(c: Config, w: World, t: Timed)
    requires Inv(c, w) && t.op.OpExchangeCode? && Step(c, w, t).1.Failed?
    ensures KeptBy(c, w, t.at, Step(c, w, t).0)
  {
    hide Inv, KeptBy, Step;
    var ch := ExchangeCodeChanges(c, w, t);
  }

  lemma FailedWasPresented(c: Config, w: World, t: Timed)
    requires t.op.OpExchangeCode? && Step(c, w, t).1 in {Failed(TemporarilyUnavailable), Failed(WriteFailed)}
    ensures CodePresented(w.mem, t.at, t.op.clientId, t.op.code)
  {
  }

  lemma ExchangeAgain(c: Config, w: World, t: Timed, y: World, again: Timed)
    requires t.op.OpExchangeCode? && again.op == t.op && t.op.code in w.mem.codes && !w.mem.codes[t.op.code].used
    requires Step(c, w, t).1 in {Failed(TemporarilyUnavailable), Failed(WriteFailed)}
    requires var entry := w.mem.codes[t.op.code];
             entry.grantId in w.mem.grants && entry.expiresAt <= w.mem.grants[entry.grantId].expiresAt
             && (entry.grantId in y.mem.grants ==>
                   y.mem.grants[entry.grantId] == w.mem.grants[entry.grantId]
                   && t.op.code in y.mem.codes && y.mem.codes[t.op.code] == entry)
    ensures var entry := w.mem.codes[t.op.code];
            again.ok && entry.grantId in y.mem.grants && again.at < entry.expiresAt
            && |Prune(y.mem, again.at).tokens| < MAX_TOKENS
            ==> Step(c, y, again).1.Issued?
  {
    hide Prune, WithTokens;
  }

  lemma CodeOutlived(c: Config, w: World, code: Id)
    requires Inv(c, w) && code in w.mem.codes
    ensures w.mem.codes[code].grantId in w.mem.grants
            && w.mem.codes[code].expiresAt <= w.mem.grants[w.mem.codes[code].grantId].expiresAt
  {
  }
}
