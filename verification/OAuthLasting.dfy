/**
 * What stays as it is for as long as its grant exists, in memory and in the repository, whatever else happens:
 * the grant itself, its rotation, its authorization code and its access tokens (src/http/oauth.ts).
 */
module OAuthLasting {
  import opened Basics
  import opened OAuthModel
  import opened OAuthInvariants
  import opened OAuthRuns

  // ---------- A grant ----------

  /** Wherever the grant exists it is this one. */
  ghost predicate GrantBy(w: World, g: Id, grant: Grant) {
    && g < w.supply
    && (g in w.mem.grants ==> w.mem.grants[g] == grant)
    && (g in w.disk.grants ==> w.disk.grants[g] == grant)
  }

  lemma StepGrantIs(c: Config, w: World, t: Timed, g: Id, grant: Grant)
    requires Inv(c, w) && GrantBy(w, g, grant)
    ensures GrantBy(Step(c, w, t).0, g, grant)
  {
    hide Inv, Step, Prune, Sound, Hands;
    var ch := StepChanges(c, w, t);
    match ch
    case Kept =>
    case Reissued(_, _, _, _) => PruneGrants(w.mem, t.at);
    case Restarted => RestartIs(c, w, t);
  }

  lemma PruneGrants(s: Store, now: int)
    ensures forall g :: g in Prune(s, now).grants ==> g in s.grants && Prune(s, now).grants[g] == s.grants[g]
  {
  }

  lemma {:induction false} RunGrantIs(c: Config, w: World, run: seq<Timed>, g: Id, grant: Grant)
    requires Inv(c, w) && GrantBy(w, g, grant)
    ensures GrantBy(After(c, w, run), g, grant)
    decreases |run|
  {
    hide Inv, Step, GrantBy;
    if run != [] {
      var n := |run| - 1;
      RunGrantIs(c, w, run[..n], g, grant);
      RunInv(c, w, run[..n]);
      StepGrantIs(c, After(c, w, run[..n]), run[n], g, grant);
    }
  }

  lemma GrantOf(c: Config, w: World, g: Id)
    requires Inv(c, w) && g in w.mem.grants
    ensures GrantBy(w, g, w.mem.grants[g])
  {
  }

  lemma GrantByMem(w: World, g: Id, grant: Grant)
    requires GrantBy(w, g, grant) && g in w.mem.grants
    ensures w.mem.grants[g] == grant
  {
  }

  lemma KeptGrant(c: Config, w: World, now: int, r: World, g: Id, grant: Grant)
    requires KeptBy(c, w, now, r) && GrantBy(w, g, grant)
    ensures GrantBy(r, g, grant)
  {
    hide Sound;
  }

  // ---------- A grant's rotation ----------

  /** The client of grant `g` presents a refresh token signed for it, current or not. */
  predicate PresentsOwn(w: World, g: Id, op: Op) {
    && op.OpExchangeRefresh? && op.token.Signed? && op.token.id == g && Readable(w.mem, op.token)
    && g in w.mem.grants && w.mem.grants[g].clientId == op.clientId
  }

  ghost predicate RotationIs(s: Store, g: Id, rotation: Rotation) {
    g in s.grants ==> g in s.refresh && s.refresh[g] == rotation
  }

  ghost predicate RotationBy(w: World, g: Id, rotation: Rotation) {
    g < w.supply && RotationIs(w.mem, g, rotation) && RotationIs(w.disk, g, rotation)
  }

  /** In every world a grant that has been issued for has one rotation, the same in memory and repository. */
  lemma RotationOf(c: Config, w: World, g: Id)
    requires Inv(c, w) && g in w.mem.refresh
    ensures g in w.mem.grants && RotationBy(w, g, w.mem.refresh[g])
  {
  }

  lemma RotationByMem(w: World, g: Id, rotation: Rotation)
    requires RotationBy(w, g, rotation) && g in w.mem.grants
    ensures g in w.mem.refresh && w.mem.refresh[g] == rotation
  {
  }

  lemma KeptRotation(c: Config, w: World, now: int, r: World, g: Id, rotation: Rotation)
    requires KeptBy(c, w, now, r) && RotationBy(w, g, rotation)
    ensures RotationBy(r, g, rotation)
  {
    hide Sound;
  }

  lemma PruneRotations(s: Store, now: int)
    ensures var p := Prune(s, now);
            && (forall g :: g in p.refresh ==> g in s.refresh && p.refresh[g] == s.refresh[g])
            && (forall g :: g in p.grants && g in s.refresh ==> g in p.refresh)
  {
  }

  lemma IssuedGrant(c: Config, w: World, t: Timed, ch: Change)
    requires Inv(c, w) && IssuedBy(c, w, t, Step(c, w, t).0, ch)
    ensures ch.grantId in w.mem.grants
    ensures ch.code.Some? ==> ch.code.value in w.mem.codes && !w.mem.codes[ch.code.value].used
                              && w.mem.codes[ch.code.value].grantId == ch.grantId
  {
    hide Inv, Step, Prune, WithTokens;
    PruneOnly(w, t.at);
  }

  lemma FreshCode(c: Config, w: World, code: Id)
    requires Inv(c, w) && code in w.mem.codes && !w.mem.codes[code].used
    ensures w.mem.codes[code].grantId !in w.mem.refresh
  {
  }

  lemma RefreshIssuesToOwn(c: Config, w: World, t: Timed)
    requires t.op.OpExchangeRefresh? && Step(c, w, t).1.Issued? && t.op.token.Signed?
    ensures PresentsOwn(w, t.op.token.id, t.op)
  {
  }

  lemma IssueElsewhere(c: Config, w: World, t: Timed, r: World, ch: Change, g: Id, rotation: Rotation)
    requires Inv(c, w) && IssuedBy(c, w, t, r, ch) && RotationBy(w, g, rotation) && ch.grantId != g
    ensures RotationBy(r, g, rotation)
  {
    hide Inv, Prune;
    PruneOnly(w, t.at);
    PruneRotations(w.mem, t.at);
  }

  /** No operation changes a grant's rotation unless its own client presents a refresh token signed for it. */
  lemma StepRotation(c: Config, w: World, t: Timed, g: Id, rotation: Rotation)
    requires Inv(c, w) && RotationBy(w, g, rotation) && !PresentsOwn(w, g, t.op)
    ensures RotationBy(Step(c, w, t).0, g, rotation)
  {
    hide Inv, Step, Prune, Sound, WithTokens, KeptBy, PresentsOwn;
    var ch := StepChanges(c, w, t);
    var r := Step(c, w, t).0;
    match ch
    case Kept => KeptRotation(c, w, t.at, r, g, rotation);
    case Reissued(h, _, _, code) =>
      if h != g {
        IssueElsewhere(c, w, t, r, ch, g, rotation);
      } else {
        IssuedGrant(c, w, t, ch);
        if code.Some? {
          FreshCode(c, w, code.value);
        } else {
          RefreshIssuesToOwn(c, w, t);
        }
      }
    case Restarted => RestartIs(c, w, t);
  }

  /** Over a run in which that does not happen. */
  ghost predicate NotPresented(c: Config, w: World, run: seq<Timed>, g: Id) {
    forall i :: 0 <= i < |run| ==> !PresentsOwn(After(c, w, run[..i]), g, run[i].op)
  }

  lemma {:induction false} RunRotation(c: Config, w: World, run: seq<Timed>, g: Id, rotation: Rotation)
    requires Inv(c, w) && RotationBy(w, g, rotation) && NotPresented(c, w, run, g)
    ensures RotationBy(After(c, w, run), g, rotation)
    decreases |run|
  {
    hide Inv, Step, RotationBy, PresentsOwn;
    if run != [] {
      var n := |run| - 1;
      forall i | 0 <= i < n ensures !PresentsOwn(After(c, w, run[..n][..i]), g, run[..n][i].op) {
        assert run[..n][..i] == run[..i];
      }
      RunRotation(c, w, run[..n], g, rotation);
      RunInv(c, w, run[..n]);
      StepRotation(c, After(c, w, run[..n]), run[n], g, rotation);
    }
  }

  // ---------- An authorization code ----------

  /** While its grant is there, the code is remembered as it is. */
  ghost predicate Remembered(s: Store, code: Id, entry: Code) {
    entry.grantId in s.grants ==> code in s.codes && s.codes[code] == entry
  }

  ghost predicate RememberedBy(w: World, code: Id, entry: Code) {
    code < w.supply && entry.grantId < w.supply && Remembered(w.mem, code, entry) && Remembered(w.disk, code, entry)
  }

  /** Before the code expires, and unless its own client exchanges it. */
  predicate Spares(t: Timed, code: Id, entry: Code) {
    t.at < entry.expiresAt && (entry.used || !(t.op.OpExchangeCode? && t.op.code == code && t.op.clientId == entry.clientId))
  }

  lemma ExchangedWasPresented(c: Config, w: World, t: Timed)
    requires t.op.OpExchangeCode? && Step(c, w, t).1.Issued?
    ensures CodePresented(w.mem, t.at, t.op.clientId, t.op.code)
    ensures Step(c, w, t).1.refresh.Signed? && Step(c, w, t).1.refresh.id == w.mem.codes[t.op.code].grantId
  {
  }

  lemma RememberedOf(c: Config, w: World, code: Id)
    requires Inv(c, w) && code in w.mem.codes
    ensures RememberedBy(w, code, w.mem.codes[code])
  {
  }

  lemma RememberedByMem(w: World, code: Id, entry: Code)
    requires RememberedBy(w, code, entry) && entry.grantId in w.mem.grants
    ensures code in w.mem.codes && w.mem.codes[code] == entry
  {
  }

  lemma KeptCode(c: Config, w: World, now: int, r: World, code: Id, entry: Code)
    requires KeptBy(c, w, now, r) && RememberedBy(w, code, entry) && now < entry.expiresAt
    ensures RememberedBy(r, code, entry)
  {
    hide Sound;
  }

  lemma StepRemembers(c: Config, w: World, t: Timed, code: Id, entry: Code)
    requires Inv(c, w) && RememberedBy(w, code, entry) && Spares(t, code, entry)
    ensures RememberedBy(Step(c, w, t).0, code, entry)
  {
    hide Inv, Step, Prune, Sound, KeptBy;
    var ch := StepChanges(c, w, t);
    match ch
    case Kept => KeptCode(c, w, t.at, Step(c, w, t).0, code, entry);
    case Reissued(_, _, _, exchanged) =>
      PruneAt(w, t.at);
      PruneOnly(w, t.at);
      if exchanged == Some(code) {
        ExchangedWasPresented(c, w, t);
      }
    case Restarted => RestartIs(c, w, t);
  }

  lemma {:induction false} RunRemembers(c: Config, w: World, run: seq<Timed>, code: Id, entry: Code)
    requires Inv(c, w) && RememberedBy(w, code, entry)
    requires forall i :: 0 <= i < |run| ==> Spares(run[i], code, entry)
    ensures RememberedBy(After(c, w, run), code, entry)
    decreases |run|
  {
    hide Inv, Step, RememberedBy, Spares;
    if run != [] {
      var n := |run| - 1;
      RunRemembers(c, w, run[..n], code, entry);
      RunInv(c, w, run[..n]);
      StepRemembers(c, After(c, w, run[..n]), run[n], code, entry);
    }
  }

  // ---------- An access token ----------

  ghost predicate TokenIs(s: Store, access: Id, token: Token) {
    token.grantId in s.grants ==> access in s.tokens && s.tokens[access] == token
  }

  ghost predicate TokenBy(w: World, access: Id, token: Token) {
    access < w.supply && token.grantId < w.supply && TokenIs(w.mem, access, token) && TokenIs(w.disk, access, token)
  }

  lemma TokenByMem(w: World, access: Id, token: Token)
    requires TokenBy(w, access, token) && token.grantId in w.mem.grants
    ensures access in w.mem.tokens && w.mem.tokens[access] == token
  {
  }

  lemma KeptToken(c: Config, w: World, now: int, r: World, access: Id, token: Token)
    requires KeptBy(c, w, now, r) && TokenBy(w, access, token) && now < token.expiresAt
    ensures TokenBy(r, access, token)
  {
    hide Sound;
  }

  lemma PruneTokensAt(s: Store, now: int)
    ensures forall k :: k in s.tokens && s.tokens[k].expiresAt > now ==>
              k in Prune(s, now).tokens && Prune(s, now).tokens[k] == s.tokens[k]
  {
  }

  lemma StepHolds(c: Config, w: World, t: Timed, access: Id, token: Token)
    requires Inv(c, w) && TokenBy(w, access, token) && t.at < token.expiresAt
    ensures TokenBy(Step(c, w, t).0, access, token)
  {
    hide Inv, Step, Prune, Sound, KeptBy;
    var ch := StepChanges(c, w, t);
    match ch
    case Kept => KeptToken(c, w, t.at, Step(c, w, t).0, access, token);
    case Reissued(_, _, _, _) =>
      PruneTokensAt(w.mem, t.at);
      PruneOnly(w, t.at);
    case Restarted => RestartIs(c, w, t);
  }

  lemma {:induction false} RunHolds(c: Config, w: World, run: seq<Timed>, access: Id, token: Token)
    requires Inv(c, w) && TokenBy(w, access, token)
    requires forall i :: 0 <= i < |run| ==> run[i].at < token.expiresAt
    ensures TokenBy(After(c, w, run), access, token)
    decreases |run|
  {
    hide Inv, Step, TokenBy;
    if run != [] {
      var n := |run| - 1;
      RunHolds(c, w, run[..n], access, token);
      RunInv(c, w, run[..n]);
      StepHolds(c, After(c, w, run[..n]), run[n], access, token);
    }
  }
}
