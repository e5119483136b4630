/** What the OAuth server guarantees over whole runs, restarts and failing writes included (src/http/oauth.ts). */
module OAuthRuns {
  import opened Basics
  import opened OAuthModel
  import opened OAuthInvariants

  lemma {:induction false} RunInv(c: Config, w: World, run: seq<Timed>)
    requires Inv(c, w)
    ensures Inv(c, After(c, w, run))
    decreases |run|
  {
    hide Inv, Step;
    if run != [] {
      var n := |run| - 1;
      RunInv(c, w, run[..n]);
      StepInv(c, After(c, w, run[..n]), run[n]);
    }
  }

  lemma StartInv(c: Config)
    ensures Inv(c, Start())
  {
    hide Linked, Agree;
    assert Linked(c, EMPTY) by {
      NothingLinked(c, EMPTY);
    }
    AgreesWithItself(EMPTY);
  }

  lemma NothingLinked(c: Config, s: Store)
    requires |s.codes| == |s.grants| == |s.tokens| == |s.refresh| == 0 && s.pending == []
    ensures Linked(c, s)
  {
    assert forall k :: k !in s.codes && k !in s.grants && k !in s.tokens && k !in s.refresh;
  }

  // ---------- Nothing spent comes back ----------

  /** Of the grants and codes known at `x`, a later store has only some, with rotations no lower and scopes no
      wider, and a used code is still used. */
  ghost predicate Onward(s: Store, x: Store, n: nat) {
    && (forall g :: g in s.grants && g < n ==>
          g in x.grants && (g in x.refresh ==>
            g in s.refresh && s.refresh[g].key == x.refresh[g].key && s.refresh[g].counter >= x.refresh[g].counter && s.refresh[g].scopes <= x.refresh[g].scopes))
    && (forall k :: k in s.codes && k < n ==> k in x.codes && (x.codes[k].used ==> s.codes[k].used))
  }

  /** Both what the process holds and what it would restart from lie onward of `x`. */
  ghost predicate Since(x: Store, n: nat, w: World) {
    n <= w.supply && Onward(w.mem, x, n) && Onward(w.disk, x, n)
  }

  lemma EvolvesOnward(next: Store, s: Store, x: Store, m: nat, n: nat, now: int)
    requires Evolves(next, s, m, now) && Onward(s, x, n) && n <= m
    ensures Onward(next, x, n)
  {
  }

  lemma IssueOnward(
    s: Store, x: Store, n: nat, g: Id, clientId: Id, scopes: set<Scope>, code: Option<Id>, key: Id, access: Id, until: int)
    requires Onward(s, x, n) && g in s.grants
    requires scopes <= if g in s.refresh then s.refresh[g].scopes else s.grants[g].scopes
    ensures Onward(WithTokens(s, g, clientId, scopes, code, key, access, until), x, n)
  {
  }

  lemma StepSince(c: Config, w: World, t: Timed, x: Store, n: nat)
    requires Inv(c, w) && Since(x, n, w)
    ensures Since(x, n, Step(c, w, t).0)
  {
    hide Inv, Step, Evolves, Prune, Onward, WithTokens, Sound, Hands;
    var ch := StepChanges(c, w, t);
    var r := Step(c, w, t).0;
    match ch
    case Kept => EvolvesOnward(r.mem, w.mem, x, w.supply, n, t.at);
    case Reissued(g, clientId, scopes, code) =>
      var s := Prune(w.mem, t.at);
      PrunedOnward(c, w, t.at, x, n);
      IssueWithin(c, w, t, r, ch);
      IssueOnward(s, x, n, g, clientId, scopes, code, w.supply, w.supply + 1, t.at + 5 * 60_000);
    case Restarted => RestartIs(c, w, t);
  }

  lemma PrunedOnward(c: Config, w: World, now: int, x: Store, n: nat)
    requires Inv(c, w) && Since(x, n, w)
    ensures Onward(Prune(w.mem, now), x, n)
  {
    hide Sound, Evolves, Prune, Onward, Agree;
    PruneKeeps(c, w.mem, now, w.supply);
    EvolvesOnward(Prune(w.mem, now), w.mem, x, w.supply, n, now);
  }

  lemma {:induction false} RunSince(c: Config, w: World, run: seq<Timed>, x: Store, n: nat)
    requires Inv(c, w) && Since(x, n, w)
    ensures Since(x, n, After(c, w, run))
    decreases |run|
  {
    hide Inv, Since, Step;
    if run != [] {
      var k := |run| - 1;
      RunSince(c, w, run[..k], x, n);
      RunInv(c, w, run[..k]);
      StepSince(c, After(c, w, run[..k]), run[k], x, n);
    }
  }

  lemma {:induction false} AfterParts(c: Config, w: World, run: seq<Timed>, i: nat)
    requires i <= |run|
    ensures After(c, w, run) == After(c, After(c, w, run[..i]), run[i..])
    decreases |run|
  {
    hide Step;
    if i < |run| {
      var n := |run| - 1;
      AfterParts(c, w, run[..n], i);
      assert run[..n][..i] == run[..i] && run[..n][i..] == run[i..][..n - i];
    } else {
      assert run[..i] == run;
    }
  }

  /** What a successful issue leaves: memory and repository alike, the rotation in the answer, the code used. */
  lemma IssueLeaves(c: Config, w: World, t: Timed) returns (g: Id)
    requires Inv(c, w) && Step(c, w, t).1.Issued?
    ensures var (r, a) := Step(c, w, t);
            && r.disk == r.mem && Since(r.mem, r.supply, r)
            && a.refresh.Signed? && a.refresh.id == g && g < r.supply && g in r.mem.refresh
            && r.mem.refresh[g].counter == a.refresh.counter && r.mem.refresh[g].scopes == a.scopes
            && (g in w.mem.refresh ==> a.refresh.counter == w.mem.refresh[g].counter + 1 && a.scopes <= w.mem.refresh[g].scopes)
            && (t.op.OpExchangeRefresh? ==> g in w.mem.refresh && t.op.token.Signed? && t.op.token.id == g
                                            && t.op.token.counter == w.mem.refresh[g].counter)
            && (t.op.OpExchangeCode? ==> t.op.code < r.supply && t.op.code in w.mem.codes && !w.mem.codes[t.op.code].used
                                         && t.op.code in r.mem.codes && r.mem.codes[t.op.code].used)
            && (t.op.OpExchangeRefresh? || t.op.OpExchangeCode?)
  {
    hide Step, Prune, Agree, Linked, Inv;
    var ch := StepChanges(c, w, t);
    g := ch.grantId;
    PruneAt(w, t.at);
    PruneOnly(w, t.at);
    IssueWithin(c, w, t, Step(c, w, t).0, ch);
    BelowSupply(c, w);
  }

  lemma BelowSupply(c: Config, w: World)
    requires Inv(c, w)
    ensures Below(w.mem, w.supply)
  {
  }

  lemma PruneOnly(w: World, now: int)
    ensures var s := Prune(w.mem, now);
            && (forall g :: g in s.grants ==> g in w.mem.grants)
            && (forall k :: k in s.codes ==> k in w.mem.codes && s.codes[k] == w.mem.codes[k])
  {
  }

  /** No refresh token redeems twice, however operations, failures and restarts interleave. */
  lemma RefreshRedeemedOnce(c: Config, w: World, run: seq<Timed>, i: nat, j: nat)
    requires Inv(c, w) && i < j < |run|
    requires run[i].op.OpExchangeRefresh? && run[j].op.OpExchangeRefresh?
    requires AnswerAt(c, w, run, i).Issued? && AnswerAt(c, w, run, j).Issued?
    ensures run[i].op.token != run[j].op.token
  {
    hide Inv, Step;
    var x, y := Between(c, w, run, i, j);
    var g := IssueLeaves(c, After(c, w, run[..i]), run[i]);
    var h := IssueLeaves(c, y, run[j]);
    assert g == h ==> g in y.mem.grants by { RefreshNamesGrant(c, y, h); }
  }

  lemma RefreshNamesGrant(c: Config, w: World, g: Id)
    requires Inv(c, w) && g in w.mem.refresh
    ensures g in w.mem.grants
  {
  }

  /** The world after a successful issue at `i`, and the world an operation at a later `j` meets. */
  lemma Between(c: Config, w: World, run: seq<Timed>, i: nat, j: nat) returns (x: World, y: World)
    requires Inv(c, w) && i < j < |run| && AnswerAt(c, w, run, i).Issued?
    ensures Inv(c, After(c, w, run[..i]))
    ensures x == Step(c, After(c, w, run[..i]), run[i]).0
    ensures y == After(c, w, run[..j]) && Inv(c, y)
    ensures Since(x.mem, x.supply, y)
  {
    hide Inv, Step, Since;
    RunInv(c, w, run[..i]);
    RunInv(c, w, run[..j]);
    x, y := After(c, w, run[..i + 1]), After(c, w, run[..j]);
    assert run[..i + 1][..i] == run[..i];
    RunInv(c, w, run[..i + 1]);
    var g := IssueLeaves(c, After(c, w, run[..i]), run[i]);
    assert run[..j][..i + 1] == run[..i + 1];
    AfterParts(c, w, run[..j], i + 1);
    RunSince(c, x, run[..j][i + 1..], x.mem, x.supply);
  }

  /** No authorization code is exchanged twice. */
  lemma CodeExchangedOnce(c: Config, w: World, run: seq<Timed>, i: nat, j: nat)
    requires Inv(c, w) && i < j < |run|
    requires run[i].op.OpExchangeCode? && run[j].op.OpExchangeCode?
    requires AnswerAt(c, w, run, i).Issued? && AnswerAt(c, w, run, j).Issued?
    ensures run[i].op.code != run[j].op.code
  {
    hide Inv, Step;
    var x, y := Between(c, w, run, i, j);
    var g := IssueLeaves(c, After(c, w, run[..i]), run[i]);
    var h := IssueLeaves(c, y, run[j]);
  }

  /** The scopes issued for one grant only shrink, and its counters only grow. */
  lemma ScopesOnlyShrink(c: Config, w: World, run: seq<Timed>, i: nat, j: nat)
    requires Inv(c, w) && i < j < |run|
    requires AnswerAt(c, w, run, i).Issued? && AnswerAt(c, w, run, j).Issued?
    requires AnswerAt(c, w, run, i).refresh.Signed? && AnswerAt(c, w, run, j).refresh.Signed?
    requires AnswerAt(c, w, run, i).refresh.id == AnswerAt(c, w, run, j).refresh.id
    ensures AnswerAt(c, w, run, j).scopes <= AnswerAt(c, w, run, i).scopes
    ensures AnswerAt(c, w, run, i).refresh.counter < AnswerAt(c, w, run, j).refresh.counter
  {
    hide Inv, Step;
    var x, y := Between(c, w, run, i, j);
    var g := IssueLeaves(c, After(c, w, run[..i]), run[i]);
    var h := IssueLeaves(c, y, run[j]);
    assert g in y.mem.grants by { IssuedIsLive(c, y, run[j]); }
  }

  lemma IssuedIsLive(c: Config, w: World, t: Timed)
    requires Inv(c, w) && Step(c, w, t).1.Issued?
    ensures Step(c, w, t).1.refresh.Signed? && LiveGrant(c, w.mem, t.at, Step(c, w, t).1.refresh.id)
  {
    hide Inv, Step;
    var ch := StepChanges(c, w, t);
  }
}
