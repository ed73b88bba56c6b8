/** The decision taken for one reclaim candidate: score, classify, fall back to the native outcome where
    the proposal is not allowed, check budgets, claim the page, charge the reservation. */
module TierDecision {
  import opened Common
  import opened PackedWords
  import opened PageMetadata
  import opened Scoring
  import History = PageHistory

  const ULONG_MAX: nat := 0xFFFF_FFFF_FFFF_FFFF
  const SEVERE_PRIORITY: int := 2

  datatype Mode = Off | Shadow | ProtectOnly | Bidirectional | RandomMatched | RecencyBaseline

  datatype Action = KeepReclaim | PredictiveUpgrade | KeepProtect | PredictiveDowngrade | SpecialProtect

  datatype Bypass =
    | NoBypass | ModelInvalid | MetadataMissing | StateUnstable | NotBoundary | StrongNative
    | UpgradeBudget | DowngradeBudget | RepeatUpgrade | RepeatDowngrade | Pressure | NoProgress | GenerationMoved

  datatype Config = Config(
    policy: Policy, upgradeBatch: nat, upgradeEpoch: nat, upgradeRatio: nat,
    downgradeBatch: nat, downgradeEpoch: nat, downgradeRatio: nat)
  {
    function BatchLimit(dir: Direction): nat {
      if dir.Upgrade? then upgradeBatch else downgradeBatch
    }

    function EpochLimit(dir: Direction): nat {
      if dir.Upgrade? then upgradeEpoch else downgradeEpoch
    }

    function Ratio(dir: Direction): nat {
      if dir.Upgrade? then upgradeRatio else downgradeRatio
    }
  }

  datatype Level = Low | Medium | High | Critical

  /** Per-batch context. */
  datatype Ctx = Ctx(
    mode: Mode, run: nat, epochTag: nat, severe: bool, noProgress: bool, level: Level,
    candidatePages: nat, upgradePages: nat, downgradePages: nat)
  {
    function Used(dir: Direction): nat {
      if dir.Upgrade? then upgradePages else downgradePages
    }

    function WithUsed(dir: Direction, pages: nat): Ctx {
      if dir.Upgrade? then this.(upgradePages := pages) else this.(downgradePages := pages)
    }
  }

  /** Per (lruvec, type) ledger of the current epoch. */
  datatype Ledger = Ledger(
    epochId: nat, sourceSeq: nat, stateEpoch: nat,
    candidatePages: nat, upgradePages: nat, downgradePages: nat, noProgressRounds: nat)
  {
    function Used(dir: Direction): nat {
      if dir.Upgrade? then upgradePages else downgradePages
    }

    function WithUsed(dir: Direction, pages: nat): Ledger {
      if dir.Upgrade? then this.(upgradePages := pages) else this.(downgradePages := pages)
    }
  }

  /** `bucket` is the keyed hash of page and batch, reduced modulo 10000. */
  datatype Candidate = Candidate(
    pages: nat, nativeTier: int, tierIdx: int, special: bool, now: nat, lruGen: int, bucket: nat)

  datatype Decision = Decision(
    modelValid: bool, score: int, nativeTier: int, nativeIdx: int, special: bool,
    rawDelta: int, delta: int, effectiveTier: int, nativeProtect: bool, effectiveProtect: bool,
    action: Action, bypass: Bypass, actualProtect: bool,
    reserved: bool, direction: Direction, pages: nat, sequence: nat)

  datatype Outcome = Outcome(ledger: Ledger, ctx: Ctx, decision: Decision)

  const NOTHING: Evaluation := Evaluation(NO_FEATURES, false, false, 0, NO_SNAPSHOT)

  // ----- classification -----

  function Classify(score: int, scored: bool, c: Candidate, policy: Policy): Decision {
    var valid := scored && PolicyValid(policy);
    var delta := if valid then ScoreToDelta(score, policy) else 0;
    var native := Clamp(c.nativeTier, 0, MAX_TIER);
    var idx := Clamp(c.tierIdx, 0, MAX_TIER);
    var effective := EffectiveTier(native, delta);
    var nativeProtect := native > idx;
    var effectiveProtect := effective > idx * TIER_SCALE;
    var action :=
      if c.special then SpecialProtect
      else if !nativeProtect && effectiveProtect then PredictiveUpgrade
      else if nativeProtect && !effectiveProtect then PredictiveDowngrade
      else if nativeProtect then KeepProtect
      else KeepReclaim;
    Decision(valid, if valid then score else 0, native, idx, c.special, delta, delta, effective,
             nativeProtect, effectiveProtect, action, if valid then NoBypass else ModelInvalid, false,
             false, Upgrade, 0, 0)
  }

  function NativeFallback(d: Decision, bypass: Bypass): Decision {
    d.(delta := 0, effectiveTier := d.nativeTier * TIER_SCALE, effectiveProtect := d.nativeProtect, bypass := bypass,
       action := if d.special then SpecialProtect else if d.nativeProtect then KeepProtect else KeepReclaim)
  }

  function RecencyScore(accessAge: nat, p: Policy): int {
    if accessAge <= 100 then p.hot2
    else if accessAge <= 500 then p.hot1
    else if accessAge >= 10000 then p.cold
    else 0
  }

  function RandomScore(config: Config, c: Candidate): int {
    if c.nativeTier == c.tierIdx + 1 && c.bucket < config.downgradeRatio then config.policy.cold
    else if c.nativeTier <= c.tierIdx && c.bucket < config.upgradeRatio then config.policy.hot2
    else 0
  }

  function ScoreFor(mode: Mode, values: Features, config: Config, c: Candidate): int {
    match mode
    case RecencyBaseline => RecencyScore(values.accessAge, config.policy)
    case RandomMatched => RandomScore(config, c)
    case _ => Score(values)
  }

  predicate Predictive(a: Action) {
    a.PredictiveUpgrade? || a.PredictiveDowngrade?
  }

  /** The proposal before any budget is consulted. `config` is None when the re-read failed or saw
      another sequence than the batch did. */
  function Propose(ctx: Ctx, faulted: bool, config: Option<Config>, ev: Evaluation, c: Candidate): Decision {
    if faulted then Classify(0, false, c, NO_POLICY).(bypass := StateUnstable)
    else if config.None? then Classify(0, false, c, NO_POLICY).(bypass := ModelInvalid)
    else if !ev.valid then
      Classify(0, false, c, config.value.policy).(bypass := if ev.uncertain then StateUnstable else MetadataMissing)
    else
      var policy := config.value.policy;
      var d := Classify(ScoreFor(ctx.mode, ev.values, config.value, c), true, c, policy);
      if c.special then d
      else if d.rawDelta < 0 && c.nativeTier != c.tierIdx + 1 then
        NativeFallback(d, if c.nativeTier >= c.tierIdx + 2 then StrongNative else NotBoundary)
      else if d.action.PredictiveDowngrade? && policy.requireTwoCold && ev.values.candidates < 2 then
        NativeFallback(d, StateUnstable)
      else if Predictive(d.action) && ctx.severe then NativeFallback(d, Pressure)
      else if Predictive(d.action) && ctx.noProgress then NativeFallback(d, NoProgress)
      else d
  }

  const NO_POLICY: Policy := Policy(0, 0, 0, 0, 0, 0, false)

  predicate Applies(mode: Mode, a: Action) {
    match a
    case PredictiveUpgrade => mode.ProtectOnly? || mode.Bidirectional? || mode.RandomMatched? || mode.RecencyBaseline?
    case PredictiveDowngrade => mode.Bidirectional? || mode.RandomMatched? || mode.RecencyBaseline?
    case _ => false
  }

  predicate ActualProtect(mode: Mode, d: Decision) {
    if d.special then true
    else
      match mode
      case ProtectOnly => d.nativeProtect || d.effectiveProtect
      case Bidirectional => d.effectiveProtect
      case RandomMatched => d.effectiveProtect
      case RecencyBaseline => d.effectiveProtect
      case _ => d.nativeProtect
  }

  // ----- budgets -----

  function SaturatingAdd(a: nat, b: nat): nat {
    Min(a + b, ULONG_MAX)
  }

  /** `ratio` parts in 10000 of the candidates, but never less than one page while there are candidates. */
  function RatioLimit(candidates: nat, ratio: nat): nat {
    var share := candidates * ratio / 10000;
    if candidates > 0 && share == 0 then 1 else share
  }

  predicate BudgetAllows(used: nat, candidates: nat, pages: nat, limit: nat, ratio: nat) {
    && pages > 0 && limit > 0 && 0 < ratio <= 10000
    && used + pages <= ULONG_MAX && used + pages <= limit
    && used + pages <= RatioLimit(candidates, ratio)
  }

  function DirectionOf(a: Action): Direction {
    if a.PredictiveUpgrade? then Upgrade else Downgrade
  }

  predicate Allowed(ledger: Ledger, ctx: Ctx, config: Config, a: Action, pages: nat) {
    var dir := DirectionOf(a);
    && BudgetAllows(ctx.Used(dir), ctx.candidatePages, pages, config.BatchLimit(dir), config.Ratio(dir))
    && (Applies(ctx.mode, a) ==>
          BudgetAllows(ledger.Used(dir), ledger.candidatePages, pages, config.EpochLimit(dir), config.Ratio(dir)))
  }

  function CountCandidate(ledger: Ledger, ctx: Ctx, pages: nat): (Ledger, Ctx) {
    (if ctx.mode.Shadow? then ledger
     else ledger.(candidatePages := SaturatingAdd(ledger.candidatePages, pages)),
     ctx.(candidatePages := SaturatingAdd(ctx.candidatePages, pages)))
  }

  function ClaimBypass(r: ClaimResult, dir: Direction): Bypass {
    match r
    case GenerationRace => GenerationMoved
    case Repeated => if dir.Upgrade? then RepeatUpgrade else RepeatDowngrade
    case _ => StateUnstable
  }

  /** Whether the decision goes on to claim the page. */
  predicate WantsClaim(ledger: Ledger, ctx: Ctx, config: Option<Config>, d: Decision, pages: nat) {
    && Predictive(d.action) && config.Some? && Applies(ctx.mode, d.action)
    && Allowed(ledger, ctx, config.value, d.action, pages)
  }

  /** Budget, claim result and charge for a proposal; the ledger and context already count the candidate. */
  function Settle(ledger: Ledger, ctx: Ctx, config: Option<Config>, d: Decision, claim: ClaimResult,
                  pages: nat): Outcome
  {
    if !Predictive(d.action) || config.None? then Outcome(ledger, ctx, d)
    else
      var dir := DirectionOf(d.action);
      if !Allowed(ledger, ctx, config.value, d.action, pages) then
        Outcome(ledger, ctx, NativeFallback(d, if dir.Upgrade? then UpgradeBudget else DowngradeBudget))
      else if !Applies(ctx.mode, d.action) then
        Outcome(ledger, ctx.WithUsed(dir, ctx.Used(dir) + pages), d)
      else if !claim.Claimed? then Outcome(ledger, ctx, NativeFallback(d, ClaimBypass(claim, dir)))
      else
        Outcome(ledger.WithUsed(dir, ledger.Used(dir) + pages), ctx.WithUsed(dir, ctx.Used(dir) + pages),
                d.(reserved := true, direction := dir, sequence := claim.sequence))
  }

  /** The decision for candidate `c`, given what its evaluation returned and how the claim (if one is
      attempted) ends. Anything may happen to the page between the two. */
  function Decide(ledger: Ledger, ctx: Ctx, faulted: bool, config: Option<Config>, ev: Evaluation,
                  claim: ClaimResult, c: Candidate): Outcome
  {
    var (ledger1, ctx1) := CountCandidate(ledger, ctx, c.pages);
    var d := Propose(ctx1, faulted, config, ev, c).(sequence := ev.sequence);
    var o := Settle(ledger1, ctx1, config, d, claim, c.pages);
    o.(decision := o.decision.(pages := c.pages, actualProtect := ActualProtect(ctx.mode, o.decision)))
  }

  // ----- theorems -----

  /** A decision departs from the native outcome exactly when it holds a reservation. */
  lemma DiffersIffReserved(ledger: Ledger, ctx: Ctx, faulted: bool, config: Option<Config>, ev: Evaluation,
                           claim: ClaimResult, c: Candidate)
    requires !c.special
    ensures
      var d := Decide(ledger, ctx, faulted, config, ev, claim, c).decision;
      d.actualProtect != d.nativeProtect <==> d.reserved
  {
    ProposalShape(CountCandidate(ledger, ctx, c.pages).1, faulted, config, ev, c);
  }

  /** A proposal either keeps the native outcome or is one of the two predictive actions. */
  lemma ProposalShape(ctx: Ctx, faulted: bool, config: Option<Config>, ev: Evaluation, c: Candidate)
    ensures
      var d := Propose(ctx, faulted, config, ev, c);
      && d.special == c.special && !d.reserved
      && d.nativeProtect == (Clamp(c.nativeTier, 0, MAX_TIER) > Clamp(c.tierIdx, 0, MAX_TIER))
      && (c.special ==> d.action == SpecialProtect)
      && (d.action.PredictiveUpgrade? ==> !d.nativeProtect && d.effectiveProtect)
      && (d.action.PredictiveDowngrade? ==> d.nativeProtect && !d.effectiveProtect)
      && (!Predictive(d.action) && !c.special ==> d.effectiveProtect == d.nativeProtect)
      && (Predictive(d.action) ==>
            && !faulted && config.Some? && ev.valid && !ctx.severe && !ctx.noProgress
            && PolicyValid(config.value.policy))
  {
  }

  /** Special native protection always protects and never reserves. */
  lemma SpecialAlwaysProtected(ledger: Ledger, ctx: Ctx, faulted: bool, config: Option<Config>, ev: Evaluation,
                               claim: ClaimResult, c: Candidate)
    requires c.special
    ensures
      var o := Decide(ledger, ctx, faulted, config, ev, claim, c);
      o.decision.actualProtect && !o.decision.reserved && o.ledger.Used(Upgrade) == ledger.Used(Upgrade)
      && o.ledger.Used(Downgrade) == ledger.Used(Downgrade)
  {
    ProposalShape(CountCandidate(ledger, ctx, c.pages).1, faulted, config, ev, c);
  }

  // ----- exactly when a decision departs, and why it does not -----

  /** A tier as the decision sees it, within 0..3. */
  function InTiers(tier: int): (t: int)
    ensures 0 <= t <= 3 && (0 <= tier <= 3 ==> t == tier) && (tier < 0 ==> t == 0) && (tier > 3 ==> t == 3)
  {
    if tier < 0 then 0 else if tier > 3 then 3 else tier
  }

  /** Nothing but the page's own evidence stands in the way of a predictive proposal. */
  predicate Ready(ctx: Ctx, faulted: bool, config: Option<Config>, ev: Evaluation, c: Candidate) {
    && !faulted && config.Some? && PolicyValid(config.value.policy) && ev.valid && !c.special
    && !ctx.severe && !ctx.noProgress
  }

  predicate CallsForDowngrade(score: int, p: Policy, candidates: nat, c: Candidate) {
    && score <= p.cold && c.nativeTier == c.tierIdx + 1 && 1 <= c.nativeTier <= 3
    && (p.requireTwoCold ==> candidates >= 2)
  }

  predicate CallsForUpgrade(score: int, p: Policy, c: Candidate) {
    var native, idx := InTiers(c.nativeTier), InTiers(c.tierIdx);
    native <= idx <= 2 && Wins(score, p, idx - native + 1)
  }

  /** A downgrade is proposed exactly for a cold page one tier above its index, twice cold if that is required. */
  lemma DowngradeIff(ctx: Ctx, faulted: bool, config: Option<Config>, ev: Evaluation, c: Candidate)
    ensures Propose(ctx, faulted, config, ev, c).action.PredictiveDowngrade? <==>
            Ready(ctx, faulted, config, ev, c)
            && CallsForDowngrade(ScoreFor(ctx.mode, ev.values, config.value, c), config.value.policy,
                                 ev.values.candidates, c)
  {
  }

  /** An upgrade is proposed exactly for a page not above its index that wins enough tiers to pass it. */
  lemma UpgradeIff(ctx: Ctx, faulted: bool, config: Option<Config>, ev: Evaluation, c: Candidate)
    ensures Propose(ctx, faulted, config, ev, c).action.PredictiveUpgrade? <==>
            Ready(ctx, faulted, config, ev, c)
            && CallsForUpgrade(ScoreFor(ctx.mode, ev.values, config.value, c), config.value.policy, c)
  {
    if config.Some? && PolicyValid(config.value.policy) {
      var native, idx := InTiers(c.nativeTier), InTiers(c.tierIdx);
      DeltaMeans(ScoreFor(ctx.mode, ev.values, config.value, c), config.value.policy, idx - native + 1);
    }
  }

  /** Which scorer a mode uses. */
  lemma ScorerByMode(mode: Mode, values: Features, config: Config, c: Candidate)
    ensures
      var score := ScoreFor(mode, values, config, c);
      && (mode in {Off, Shadow, ProtectOnly, Bidirectional} ==> score == Score(values))
      && (mode.RecencyBaseline? ==> score == RecencyScore(values.accessAge, config.policy))
      && (mode.RandomMatched? ==> score == RandomScore(config, c))
  {
  }

  /** The recency baseline: up to 100 ms two tiers, up to 500 ms one, from 10 s on down, in between as a score
      of 0. */
  lemma RecencyMeans(age: nat, p: Policy)
    requires PolicyValid(p)
    ensures
      var delta := ScoreToDelta(RecencyScore(age, p), p);
      && (age <= 100 ==> delta == Min(p.maxUpgrade, 2) * 256)
      && (101 <= age <= 500 ==> delta == 256)
      && (501 <= age <= 9999 ==> delta == ScoreToDelta(0, p))
      && (10000 <= age ==> delta == -256)
  {
  }

  /** The random baseline: pages that could go either way are drawn at the configured ratios of 10000 buckets. */
  lemma RandomMeans(config: Config, c: Candidate)
    requires PolicyValid(config.policy)
    ensures
      var delta := ScoreToDelta(RandomScore(config, c), config.policy);
      && (c.nativeTier == c.tierIdx + 1 && c.bucket < config.downgradeRatio ==> delta == -256)
      && (c.nativeTier <= c.tierIdx && c.bucket < config.upgradeRatio ==>
            delta == Min(config.policy.maxUpgrade, 2) * 256)
      && (c.nativeTier == c.tierIdx + 1 && c.bucket >= config.downgradeRatio ==>
            delta == ScoreToDelta(0, config.policy))
      && (c.nativeTier <= c.tierIdx && c.bucket >= config.upgradeRatio ==> delta == ScoreToDelta(0, config.policy))
      && (c.nativeTier >= c.tierIdx + 2 ==> delta == ScoreToDelta(0, config.policy))
  {
  }

  /** A budget in whole numbers: within the limit, and within its share of the candidates, in parts of 10000,
      or else a single first page. */
  predicate Fits(used: nat, candidates: nat, pages: nat, limit: nat, ratio: nat) {
    && 0 < pages && 0 < ratio <= 10000 && used + pages <= limit && used + pages <= 0xFFFF_FFFF_FFFF_FFFF
    && (10000 * (used + pages) <= candidates * ratio || (used + pages == 1 && candidates > 0))
  }

  lemma BudgetAllowsIff(used: nat, candidates: nat, pages: nat, limit: nat, ratio: nat)
    ensures BudgetAllows(used, candidates, pages, limit, ratio) <==> Fits(used, candidates, pages, limit, ratio)
  {
    var product := candidates * ratio;
    assert 10000 * (product / 10000) <= product < 10000 * (product / 10000) + 10000;
  }

  /** Counted candidates of the batch and of the epoch, the present one included. */
  function BatchCandidates(ctx: Ctx, pages: nat): nat {
    if ctx.candidatePages + pages > 0xFFFF_FFFF_FFFF_FFFF then 0xFFFF_FFFF_FFFF_FFFF else ctx.candidatePages + pages
  }

  function EpochCandidates(ledger: Ledger, ctx: Ctx, pages: nat): nat {
    if ctx.mode.Shadow? then ledger.candidatePages
    else if ledger.candidatePages + pages > 0xFFFF_FFFF_FFFF_FFFF then 0xFFFF_FFFF_FFFF_FFFF
    else ledger.candidatePages + pages
  }

  predicate UpgradeFits(ledger: Ledger, ctx: Ctx, config: Config, pages: nat) {
    && Fits(ctx.upgradePages, BatchCandidates(ctx, pages), pages, config.upgradeBatch, config.upgradeRatio)
    && Fits(ledger.upgradePages, EpochCandidates(ledger, ctx, pages), pages, config.upgradeEpoch, config.upgradeRatio)
  }

  predicate DowngradeFits(ledger: Ledger, ctx: Ctx, config: Config, pages: nat) {
    && Fits(ctx.downgradePages, BatchCandidates(ctx, pages), pages, config.downgradeBatch, config.downgradeRatio)
    && Fits(ledger.downgradePages, EpochCandidates(ledger, ctx, pages), pages, config.downgradeEpoch,
            config.downgradeRatio)
  }

  lemma AllowedIffFits(ledger: Ledger, ctx: Ctx, config: Config, a: Action, pages: nat)
    requires Predictive(a) && Applies(ctx.mode, a)
    ensures
      var (l1, ctx1) := CountCandidate(ledger, ctx, pages);
      Allowed(l1, ctx1, config, a, pages) <==>
      if a.PredictiveUpgrade? then UpgradeFits(ledger, ctx, config, pages)
      else DowngradeFits(ledger, ctx, config, pages)
  {
    var (l1, ctx1) := CountCandidate(ledger, ctx, pages);
    var dir := DirectionOf(a);
    BudgetAllowsIff(ctx1.Used(dir), ctx1.candidatePages, pages, config.BatchLimit(dir), config.Ratio(dir));
    BudgetAllowsIff(l1.Used(dir), l1.candidatePages, pages, config.EpochLimit(dir), config.Ratio(dir));
  }

  /** The actual outcome differs from the native one exactly when the mode acts on the proposal, both budgets
      have room, and the page accepts the claim. */
  lemma DepartureIff(ledger: Ledger, ctx: Ctx, faulted: bool, config: Option<Config>, ev: Evaluation,
                     claim: ClaimResult, c: Candidate)
    requires !c.special
    ensures Departs(Decide(ledger, ctx, faulted, config, ev, claim, c).decision) <==>
            && Ready(ctx, faulted, config, ev, c) && claim.Claimed?
            && var score := ScoreFor(ctx.mode, ev.values, config.value, c);
               || (ctx.mode in {ProtectOnly, Bidirectional, RandomMatched, RecencyBaseline}
                   && CallsForUpgrade(score, config.value.policy, c) && UpgradeFits(ledger, ctx, config.value, c.pages))
               || (ctx.mode in {Bidirectional, RandomMatched, RecencyBaseline}
                   && CallsForDowngrade(score, config.value.policy, ev.values.candidates, c)
                   && DowngradeFits(ledger, ctx, config.value, c.pages))
  {
    var (l1, ctx1) := CountCandidate(ledger, ctx, c.pages);
    var d := Propose(ctx1, faulted, config, ev, c).(sequence := ev.sequence);
    DowngradeIff(ctx1, faulted, config, ev, c);
    UpgradeIff(ctx1, faulted, config, ev, c);
    DiffersIffReserved(ledger, ctx, faulted, config, ev, claim, c);
    ReservedIff(l1, ctx1, config, d, claim, c.pages);
    if Predictive(d.action) && Applies(ctx.mode, d.action) && config.Some? {
      AllowedIffFits(ledger, ctx, config.value, d.action, c.pages);
    }
  }

  lemma ReservedIff(l: Ledger, ctx: Ctx, config: Option<Config>, d: Decision, claim: ClaimResult, pages: nat)
    requires !d.reserved
    ensures Settle(l, ctx, config, d, claim, pages).decision.reserved <==>
            WantsClaim(l, ctx, config, d, pages) && claim.Claimed?
  {
  }

  /** Over the page's log: a downgrade is proposed exactly when the log is good evidence, its features score
      cold, and, if two cold evaluations are required, one came before. */
  lemma DowngradeByLog(ctx: Ctx, config: Config, log: seq<History.Event>, c: Candidate)
    requires History.WellFormedLog(log)
    ensures
      var ev := EvaluationOf(History.Fold(log), c.now, c.lruGen, ctx.run);
      Propose(ctx, false, Some(config), ev, c).action.PredictiveDowngrade? <==>
      && PolicyValid(config.policy) && !c.special && !ctx.severe && !ctx.noProgress
      && History.EvidenceOk(log, c.now, c.lruGen, ctx.run)
      && ScoreFor(ctx.mode, History.FeaturesOf(log, c.now), config, c) <= config.policy.cold
      && c.nativeTier == c.tierIdx + 1 && 1 <= c.nativeTier <= 3
      && (config.policy.requireTwoCold ==> History.Evaluations(log) >= 1)
  {
    History.EvaluationFollowsLog(log, c.now, c.lruGen, ctx.run);
    DowngradeIff(ctx, false, Some(config), EvaluationOf(History.Fold(log), c.now, c.lruGen, ctx.run), c);
  }

  lemma UpgradeByLog(ctx: Ctx, config: Config, log: seq<History.Event>, c: Candidate)
    requires History.WellFormedLog(log)
    ensures
      var ev := EvaluationOf(History.Fold(log), c.now, c.lruGen, ctx.run);
      Propose(ctx, false, Some(config), ev, c).action.PredictiveUpgrade? <==>
      && PolicyValid(config.policy) && !c.special && !ctx.severe && !ctx.noProgress
      && History.EvidenceOk(log, c.now, c.lruGen, ctx.run)
      && CallsForUpgrade(ScoreFor(ctx.mode, History.FeaturesOf(log, c.now), config, c), config.policy, c)
  {
    History.EvaluationFollowsLog(log, c.now, c.lruGen, ctx.run);
    UpgradeIff(ctx, false, Some(config), EvaluationOf(History.Fold(log), c.now, c.lruGen, ctx.run), c);
  }

  /** Why a proposal is not predictive. Each reason holds exactly under its condition. */
  lemma ProposalReason(ctx: Ctx, faulted: bool, config: Option<Config>, ev: Evaluation, c: Candidate)
    ensures
      var reason := Propose(ctx, faulted, config, ev, c).bypass;
      && (faulted ==> reason == StateUnstable)
      && (!faulted && config.None? ==> reason == ModelInvalid)
      && (!faulted && config.Some? && !ev.valid ==> reason == if ev.uncertain then StateUnstable else MetadataMissing)
      && (!faulted && config.Some? && ev.valid && !PolicyValid(config.value.policy) ==> reason == ModelInvalid)
      && (!faulted && config.Some? && ev.valid && PolicyValid(config.value.policy) ==>
            reason == ReasonOnEvidence(ctx, config.value, ev, c))
  {
    if config.Some? && PolicyValid(config.value.policy) {
      DeltaMeans(ScoreFor(ctx.mode, ev.values, config.value, c), config.value.policy,
                 InTiers(c.tierIdx) - InTiers(c.nativeTier) + 1);
    }
  }

  /** With good evidence and a valid policy: a cold page off the boundary, one not cold for long enough, or a
      change under pressure. */
  function ReasonOnEvidence(ctx: Ctx, config: Config, ev: Evaluation, c: Candidate): Bypass {
    var p, score := config.policy, ScoreFor(ctx.mode, ev.values, config, c);
    if c.special then NoBypass
    else if score <= p.cold && c.nativeTier > c.tierIdx + 1 then StrongNative
    else if score <= p.cold && c.nativeTier <= c.tierIdx then NotBoundary
    else if score <= p.cold && 1 <= c.nativeTier <= 3 && p.requireTwoCold && ev.values.candidates <= 1 then
      StateUnstable
    else if CallsForUpgrade(score, p, c) || CallsForDowngrade(score, p, ev.values.candidates, c) then
      if ctx.severe then Pressure else if ctx.noProgress then NoProgress else NoBypass
    else NoBypass
  }

  /** What happens to a predictive proposal: no room, an unsuccessful claim, or nothing in its way. */
  lemma OutcomeReason(ledger: Ledger, ctx: Ctx, config: Config, d: Decision, claim: ClaimResult, pages: nat)
    requires Predictive(d.action) && !d.reserved
    ensures
      var up := d.action.PredictiveUpgrade?;
      var o := Settle(ledger, ctx, Some(config), d, claim, pages).decision;
      if !Allowed(ledger, ctx, config, d.action, pages) then o.bypass == if up then UpgradeBudget else DowngradeBudget
      else if !Applies(ctx.mode, d.action) then o == d
      else
        match claim
        case Claimed(sequence) => o.bypass == d.bypass && o.sequence == sequence
        case GenerationRace => o.bypass == GenerationMoved
        case Repeated => o.bypass == if up then RepeatUpgrade else RepeatDowngrade
        case Unstable => o.bypass == StateUnstable
  {
  }

  /** The numbers a decision reports fit together: score and deltas, the effective tier and protection, and the
      candidates counted on the way. */
  lemma DecisionCoheres(ledger: Ledger, ctx: Ctx, faulted: bool, config: Option<Config>, ev: Evaluation,
                        claim: ClaimResult, c: Candidate)
    ensures
      var o := Decide(ledger, ctx, faulted, config, ev, claim, c);
      var d := o.decision;
      && d.pages == c.pages && d.special == c.special
      && d.nativeTier == InTiers(c.nativeTier) && d.nativeIdx == InTiers(c.tierIdx)
      && (d.modelValid <==> !faulted && config.Some? && ev.valid && PolicyValid(config.value.policy))
      && (d.modelValid ==> d.score == ScoreFor(ctx.mode, ev.values, config.value, c)
                           && d.rawDelta == ScoreToDelta(d.score, config.value.policy))
      && (!d.modelValid ==> d.score == d.rawDelta == 0)
      && (d.delta == d.rawDelta || d.delta == 0)
      && d.effectiveTier == EffectiveTier(d.nativeTier, d.delta)
      && (d.effectiveProtect <==> d.effectiveTier > d.nativeIdx * 256)
      && (d.nativeProtect <==> d.nativeTier > d.nativeIdx)
      && (!d.reserved ==> d.sequence == ev.sequence)
      && o.ctx.candidatePages == BatchCandidates(ctx, c.pages)
      && o.ledger.candidatePages == EpochCandidates(ledger, ctx, c.pages)
  {
    var (l1, ctx1) := CountCandidate(ledger, ctx, c.pages);
    var d := Propose(ctx1, faulted, config, ev, c).(sequence := ev.sequence);
    ProposalCoheres(ctx1, faulted, config, ev, c);
    SettleCoheres(l1, ctx1, config, d, claim, c.pages);
  }

  predicate Coherent(d: Decision) {
    && 0 <= d.nativeTier <= 3 && 0 <= d.nativeIdx <= 3
    && (d.delta == d.rawDelta || d.delta == 0)
    && d.effectiveTier == EffectiveTier(d.nativeTier, d.delta)
    && (d.effectiveProtect <==> d.effectiveTier > d.nativeIdx * 256)
    && (d.nativeProtect <==> d.nativeTier > d.nativeIdx)
  }

  lemma ClassifyCoheres(score: int, scored: bool, c: Candidate, p: Policy)
    ensures Coherent(Classify(score, scored, c, p))
  {
    var d := Classify(score, scored, c, p);
    assert d.nativeTier == InTiers(c.nativeTier) && d.nativeIdx == InTiers(c.tierIdx);
  }

  lemma FallbackCoheres(d: Decision, bypass: Bypass)
    requires Coherent(d)
    ensures Coherent(NativeFallback(d, bypass))
  {
  }

  lemma ProposalCoherent(ctx: Ctx, faulted: bool, config: Option<Config>, ev: Evaluation, c: Candidate)
    ensures Coherent(Propose(ctx, faulted, config, ev, c))
  {
    ClassifyCoheres(0, false, c, NO_POLICY);
    if config.Some? {
      ClassifyCoheres(0, false, c, config.value.policy);
      var score := ScoreFor(ctx.mode, ev.values, config.value, c);
      ClassifyCoheres(score, true, c, config.value.policy);
      forall bypass: Bypass
        ensures Coherent(NativeFallback(Classify(score, true, c, config.value.policy), bypass))
      {
        FallbackCoheres(Classify(score, true, c, config.value.policy), bypass);
      }
    }
  }

  lemma ProposalCoheres(ctx: Ctx, faulted: bool, config: Option<Config>, ev: Evaluation, c: Candidate)
    ensures
      var d := Propose(ctx, faulted, config, ev, c);
      && Coherent(d) && !d.reserved && d.special == c.special
      && d.nativeTier == InTiers(c.nativeTier) && d.nativeIdx == InTiers(c.tierIdx)
      && (d.modelValid <==> !faulted && config.Some? && ev.valid && PolicyValid(config.value.policy))
      && (d.modelValid ==> d.score == ScoreFor(ctx.mode, ev.values, config.value, c)
                           && d.rawDelta == ScoreToDelta(d.score, config.value.policy))
      && (!d.modelValid ==> d.score == d.rawDelta == 0)
  {
    ProposalCoherent(ctx, faulted, config, ev, c);
  }

  /** Two decisions that report the same page, tiers, score and raw delta. */
  predicate SameReport(d: Decision, d': Decision) {
    && d'.special == d.special && d'.nativeTier == d.nativeTier && d'.nativeIdx == d.nativeIdx
    && d'.modelValid == d.modelValid && d'.score == d.score && d'.rawDelta == d.rawDelta
  }

  lemma SettleCoheres(l: Ledger, ctx: Ctx, config: Option<Config>, d: Decision, claim: ClaimResult, pages: nat)
    requires Coherent(d) && !d.reserved
    ensures
      var o := Settle(l, ctx, config, d, claim, pages);
      && Coherent(o.decision) && SameReport(d, o.decision)
      && (!o.decision.reserved ==> o.decision.sequence == d.sequence)
      && o.ctx.candidatePages == ctx.candidatePages && o.ledger.candidatePages == l.candidatePages
  {
    FallbackCoheres(d, UpgradeBudget);
    FallbackCoheres(d, DowngradeBudget);
    FallbackCoheres(d, ClaimBypass(claim, DirectionOf(d.action)));
    SettleCounts(l, ctx, config, d, claim, pages);
  }

  lemma SettleCounts(l: Ledger, ctx: Ctx, config: Option<Config>, d: Decision, claim: ClaimResult, pages: nat)
    ensures
      var o := Settle(l, ctx, config, d, claim, pages);
      o.ctx.candidatePages == ctx.candidatePages && o.ledger.candidatePages == l.candidatePages
  {
  }

  /** The kernel's CRITICAL level is exactly the domain in which predictive actions are bypassed. */
  function PressureLevel(priority: int, noProgress: bool, nrToReclaim: nat, nrReclaimed: nat): Level {
    if noProgress || priority <= SEVERE_PRIORITY then Critical
    else if priority <= 4 then High
    else if priority <= 8 || nrToReclaim > nrReclaimed then Medium
    else Low
  }

  predicate CtxPressureOk(ctx: Ctx) {
    ctx.level.Critical? <==> ctx.severe || ctx.noProgress
  }

  /** Shadow mode, a fault, critical pressure and a strongly protected page never depart from native. */
  lemma NeverDeparts(ledger: Ledger, ctx: Ctx, faulted: bool, config: Option<Config>, ev: Evaluation,
                     claim: ClaimResult, c: Candidate)
    requires !c.special && CtxPressureOk(ctx)
    requires ctx.mode.Shadow? || faulted || ctx.level.Critical? || (c.nativeTier >= c.tierIdx + 2 && c.nativeTier >= 1)
    ensures
      var d := Decide(ledger, ctx, faulted, config, ev, claim, c).decision;
      d.actualProtect == d.nativeProtect && !d.reserved
  {
    DiffersIffReserved(ledger, ctx, faulted, config, ev, claim, c);
    ProposalShape(CountCandidate(ledger, ctx, c.pages).1, faulted, config, ev, c);
    if c.nativeTier >= c.tierIdx + 2 && c.nativeTier >= 1 {
      StrongNativeKeeps(CountCandidate(ledger, ctx, c.pages).1, faulted, config, ev, c);
    }
  }

  lemma StrongNativeKeeps(ctx: Ctx, faulted: bool, config: Option<Config>, ev: Evaluation, c: Candidate)
    requires !c.special && c.nativeTier >= c.tierIdx + 2 && c.nativeTier >= 1
    ensures !Predictive(Propose(ctx, faulted, config, ev, c).action)
  {
    if !faulted && config.Some? && ev.valid {
      var d := Classify(ScoreFor(ctx.mode, ev.values, config.value, c), true, c, config.value.policy);
      if Clamp(c.nativeTier, 0, MAX_TIER) > Clamp(c.tierIdx, 0, MAX_TIER) {
        assert d.nativeProtect;
        assert d.rawDelta >= 0 ==> d.effectiveProtect;
      } else {
        assert d.nativeIdx == MAX_TIER;
        assert d.effectiveTier <= MAX_TIER * TIER_SCALE;
      }
    }
  }

  /** A one-page candidate at these tiers. */
  function At(nativeTier: int, tierIdx: int, now: nat, lruGen: int): Candidate {
    Candidate(1, nativeTier, tierIdx, false, now, lruGen, 0)
  }

  /** The decision for a page with history `log`, with the page's own evaluation and its own answer to the
      claim, nothing else touching it in between. */
  function DecideFor(ledger: Ledger, ctx: Ctx, config: Config, log: seq<History.Event>, c: Candidate): Decision
    requires History.WellFormedLog(log)
  {
    var p := History.Fold(log);
    var ev := EvaluationOf(p, c.now, c.lruGen, ctx.run);
    var (ledger1, ctx1) := CountCandidate(ledger, ctx, c.pages);
    var dir := DirectionOf(Propose(ctx1, false, Some(config), ev, c).action);
    var claim := ClaimOutcome(Evaluated(p, c.lruGen), dir, ctx.epochTag, ev.sequence, ctx.run);
    Decide(ledger, ctx, false, Some(config), ev, claim, c).decision
  }

  predicate Departs(d: Decision) {
    d.actualProtect != d.nativeProtect
  }

  /** Some valid policy, batch and page history make the page's actual protection differ from the native one. */
  ghost predicate CanDepart(nativeTier: int, tierIdx: int) {
    exists ledger: Ledger, ctx: Ctx, config: Config, log: seq<History.Event>, now: nat, lruGen: int ::
      CtxPressureOk(ctx) && PolicyValid(config.policy) && History.WellFormedLog(log)
      && Departs(DecideFor(ledger, ctx, config, log, At(nativeTier, tierIdx, now, lruGen)))
  }

  /** Among pages two or more tiers above their index, exactly those with a positive native tier are safe:
      clamping lifts a tier index of -2 or less to 0, so a page at tier 0 or less can be upgraded. */
  lemma StrongNativeNeedsPositiveTier(nativeTier: int, tierIdx: int)
    requires nativeTier >= tierIdx + 2
    ensures CanDepart(nativeTier, tierIdx) <==> nativeTier < 1
    ensures CanDepart(nativeTier, tierIdx) ==> tierIdx <= -2
  {
    if nativeTier < 1 {
      UpgradeWitness(nativeTier, tierIdx);
    } else {
      forall ledger: Ledger, ctx: Ctx, config: Config, log: seq<History.Event>, now: nat, lruGen: int
        | CtxPressureOk(ctx) && History.WellFormedLog(log)
        ensures !Departs(DecideFor(ledger, ctx, config, log, At(nativeTier, tierIdx, now, lruGen)))
      {
        StaysNative(ledger, ctx, config, log, At(nativeTier, tierIdx, now, lruGen));
      }
    }
  }

  lemma StaysNative(ledger: Ledger, ctx: Ctx, config: Config, log: seq<History.Event>, c: Candidate)
    requires CtxPressureOk(ctx) && History.WellFormedLog(log) && !c.special
    requires c.nativeTier >= c.tierIdx + 2 && c.nativeTier >= 1
    ensures !Departs(DecideFor(ledger, ctx, config, log, c))
  {
    var p := History.Fold(log);
    var ev := EvaluationOf(p, c.now, c.lruGen, ctx.run);
    var dir := DirectionOf(Propose(CountCandidate(ledger, ctx, c.pages).1, false, Some(config), ev, c).action);
    NeverDeparts(ledger, ctx, false, Some(config), ev,
                 ClaimOutcome(Evaluated(p, c.lruGen), dir, ctx.epochTag, ev.sequence, ctx.run), c);
  }

  /** A page accessed and moved once in activation 1, at time 1. */
  const WARM: seq<History.Event> := [History.Touch(1, 1, 1), History.Move(0, 1)]

  const WARM_PAGE: Page :=
    Page(1, 0, 0, 1, 0, StateWord(255, 0, 0, 0, true, false, 4), EpochWord(0, 0, 1))

  lemma WarmPage()
    ensures History.WellFormedLog(WARM) && History.Fold(WARM) == WARM_PAGE
  {
    assert WARM[..1] == [History.Touch(1, 1, 1)] && WARM[..1][..0] == [];
    assert History.Fold(WARM[..1]) == RealAccess(FRESH, 1, 1, 1);
    assert History.Fold(WARM) == Moved(RealAccess(FRESH, 1, 1, 1), 0, 1);
  }

  lemma UpgradeWitness(nativeTier: int, tierIdx: int)
    requires nativeTier >= tierIdx + 2 && nativeTier < 1
    ensures CanDepart(nativeTier, tierIdx)
  {
    var c := At(nativeTier, tierIdx, 1, 0);
    var ledger := Ledger(1, 0, 1, 0, 0, 0, 0);
    var ctx := Ctx(RecencyBaseline, 1, 1, false, false, Low, 0, 0, 0);
    var config := Config(Policy(-48, 48, 96, 144, 2, 1, true), 2, 8, 100, 1, 4, 50);
    WarmPage();
    var ev := EvaluationOf(WARM_PAGE, 1, 0, 1);
    assert ev.valid && ev.values.accessAge == 0 && ev.sequence == 6;
    UpgradeDeparts(ledger, ctx, config, ev, c);
    assert ClaimOutcome(Evaluated(WARM_PAGE, 0), Upgrade, 1, 6, 1) == Claimed(8);
    assert Departs(DecideFor(ledger, ctx, config, WARM, c));
  }

  lemma UpgradeDeparts(ledger: Ledger, ctx: Ctx, config: Config, ev: Evaluation, c: Candidate)
    requires ledger == Ledger(1, 0, 1, 0, 0, 0, 0) && ctx == Ctx(RecencyBaseline, 1, 1, false, false, Low, 0, 0, 0)
    requires config == Config(Policy(-48, 48, 96, 144, 2, 1, true), 2, 8, 100, 1, 4, 50)
    requires ev.valid && ev.values.accessAge == 0
    requires c.pages == 1 && !c.special && c.tierIdx <= c.nativeTier - 2 && c.nativeTier < 1
    ensures Propose(CountCandidate(ledger, ctx, 1).1, false, Some(config), ev, c).action == PredictiveUpgrade
    ensures Departs(Decide(ledger, ctx, false, Some(config), ev, Claimed(8), c).decision)
  {
    var d := Classify(96, true, c, config.policy);
    assert d.rawDelta == 512 && d.effectiveTier == 512 && d.action == PredictiveUpgrade;
    var counted := CountCandidate(ledger, ctx, 1);
    assert Propose(counted.1, false, Some(config), ev, c) == d;
    assert RatioLimit(1, 100) == 1;
    assert Allowed(counted.0, counted.1, config, PredictiveUpgrade, 1);
  }

  /** A reservation matches its action, was allowed by both budgets, and charged both counters by `pages`;
      everything else leaves the ledger alone and charges the batch at most by an allowed proposal. */
  predicate Charged(ledger: Ledger, ctx: Ctx, config: Option<Config>, claim: ClaimResult, o: Outcome, pages: nat) {
    var d := o.decision;
    && (d.reserved ==>
          && config.Some? && claim.Claimed? && d.sequence == claim.sequence
          && (if d.direction.Upgrade? then d.action.PredictiveUpgrade? else d.action.PredictiveDowngrade?)
          && Applies(ctx.mode, d.action) && Allowed(ledger, ctx, config.value, d.action, pages)
          && o.ledger == ledger.WithUsed(d.direction, ledger.Used(d.direction) + pages)
          && o.ctx == ctx.WithUsed(d.direction, ctx.Used(d.direction) + pages))
    && (!d.reserved ==> o.ledger == ledger && (o.ctx == ctx || ChargedBatch(ledger, ctx, config, o, pages)))
  }

  predicate ChargedBatch(ledger: Ledger, ctx: Ctx, config: Option<Config>, o: Outcome, pages: nat) {
    var a := o.decision.action;
    && Predictive(a) && config.Some? && Allowed(ledger, ctx, config.value, a, pages)
    && o.ctx == ctx.WithUsed(DirectionOf(a), ctx.Used(DirectionOf(a)) + pages)
  }

  lemma SettleCharges(ledger: Ledger, ctx: Ctx, config: Option<Config>, d: Decision, claim: ClaimResult, pages: nat)
    requires !d.reserved
    ensures Charged(ledger, ctx, config, claim, Settle(ledger, ctx, config, d, claim, pages), pages)
  {
    if Predictive(d.action) && config.Some? && Allowed(ledger, ctx, config.value, d.action, pages) {
      if Applies(ctx.mode, d.action) && claim.Claimed? {
        ClaimCharges(ledger, ctx, config, d, claim, pages);
      } else if !Applies(ctx.mode, d.action) {
        BatchCharges(ledger, ctx, config, d, claim, pages);
      }
    }
  }

  lemma BatchCharges(ledger: Ledger, ctx: Ctx, config: Option<Config>, d: Decision, claim: ClaimResult, pages: nat)
    requires !d.reserved && Predictive(d.action) && config.Some? && !Applies(ctx.mode, d.action)
    requires Allowed(ledger, ctx, config.value, d.action, pages)
    ensures Charged(ledger, ctx, config, claim, Settle(ledger, ctx, config, d, claim, pages), pages)
  {
    var dir := DirectionOf(d.action);
    var o := Outcome(ledger, ctx.WithUsed(dir, ctx.Used(dir) + pages), d);
    assert Settle(ledger, ctx, config, d, claim, pages) == o;
    assert ChargedBatch(ledger, ctx, config, o, pages);
  }

  lemma ClaimCharges(ledger: Ledger, ctx: Ctx, config: Option<Config>, d: Decision, claim: ClaimResult, pages: nat)
    requires Predictive(d.action) && config.Some? && Applies(ctx.mode, d.action) && claim.Claimed?
    requires Allowed(ledger, ctx, config.value, d.action, pages)
    ensures Charged(ledger, ctx, config, claim, Settle(ledger, ctx, config, d, claim, pages), pages)
  {
    var dir := DirectionOf(d.action);
    assert Settle(ledger, ctx, config, d, claim, pages)
        == Outcome(ledger.WithUsed(dir, ledger.Used(dir) + pages), ctx.WithUsed(dir, ctx.Used(dir) + pages),
                   d.(reserved := true, direction := dir, sequence := claim.sequence));
  }

  /** What one decision charges, after the candidate itself is counted. */
  lemma ReservationCharges(ledger: Ledger, ctx: Ctx, faulted: bool, config: Option<Config>, ev: Evaluation,
                           claim: ClaimResult, c: Candidate)
    ensures
      var o := Decide(ledger, ctx, faulted, config, ev, claim, c);
      var (ledger1, ctx1) := CountCandidate(ledger, ctx, c.pages);
      o.decision.pages == c.pages && Charged(ledger1, ctx1, config, claim, o, c.pages)
  {
    var (ledger1, ctx1) := CountCandidate(ledger, ctx, c.pages);
    ProposalShape(ctx1, faulted, config, ev, c);
    var d := Propose(ctx1, faulted, config, ev, c).(sequence := ev.sequence);
    SettleCharges(ledger1, ctx1, config, d, claim, c.pages);
  }

  /** With two-cold evidence required, a downgrade that survives the decision rests on the page's history
      in this activation: a real access, an earlier evaluation after it, the present evaluation, and no
      access between; and the page sits exactly one tier above the boundary. */
  lemma DowngradeNeedsTwoCold(ledger: Ledger, ctx: Ctx, faulted: bool, config: Option<Config>,
                              log: seq<History.Event>, claim: ClaimResult, c: Candidate) returns (k: nat)
    requires History.WellFormedLog(log)
    requires config.Some? && config.value.policy.requireTwoCold
    requires
      var ev := EvaluationOf(History.Fold(log), c.now, c.lruGen, ctx.run);
      Decide(ledger, ctx, faulted, config, ev, claim, c).decision.action.PredictiveDowngrade?
    ensures c.nativeTier == c.tierIdx + 1
    ensures History.StreakFrom(log, k, ctx.run)
    ensures History.CountEvaluations(log[k + 1..] + [History.Evaluate(c.lruGen)]) >= 2
  {
    var ev := EvaluationOf(History.Fold(log), c.now, c.lruGen, ctx.run);
    var ctx1 := CountCandidate(ledger, ctx, c.pages).1;
    var d := Propose(ctx1, faulted, config, ev, c);
    ProposalShape(ctx1, faulted, config, ev, c);
    assert d.action.PredictiveDowngrade?;
    DowngradeNeedsEvidence(ctx1, faulted, config, ev, c);
    k := History.ColdStreakInThisRun(log, c.now, c.lruGen, ctx.run);
    var streak := log[k + 1..];
    assert (streak + [History.Evaluate(c.lruGen)])[..|streak|] == streak;
  }

  lemma DowngradeNeedsEvidence(ctx: Ctx, faulted: bool, config: Option<Config>, ev: Evaluation, c: Candidate)
    requires Propose(ctx, faulted, config, ev, c).action.PredictiveDowngrade?
    ensures ev.valid && c.nativeTier == c.tierIdx + 1
    ensures config.Some? && (config.value.policy.requireTwoCold ==> ev.values.candidates >= 2)
  {
    ProposalShape(ctx, faulted, config, ev, c);
    var d := Classify(ScoreFor(ctx.mode, ev.values, config.value, c), true, c, config.value.policy);
    assert d.nativeProtect && !d.effectiveProtect ==> d.rawDelta < 0;
  }
}
