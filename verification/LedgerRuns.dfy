/** What every run of serialized reclaim batches keeps, with any other activity on the pages interleaved. */
module LedgerRuns {
  import opened Common
  import opened PageMetadata
  import opened Scoring
  import opened TierDecision
  import opened PageHistory
  import opened ReservationLedger

  /** Nonzero values of a 12-bit tag. */
  const TAGS: nat := 4095

  /** A reservation of the open batch that is not finished yet. */
  datatype Held = Held(page: nat, d: Decision)

  /** `kept` counts pages of reservations of the current epoch that can no longer be refunded. */
  datatype World = World(
    ledger: Ledger, ctx: Option<Ctx>, pages: seq<seq<Event>>, held: seq<Held>, keptUp: nat, keptDown: nat,
    mode: Mode, run: nat, config: Config, faulted: bool, invariantFault: bool)
  {
    function Kept(dir: Direction): nat {
      if dir.Upgrade? then keptUp else keptDown
    }

    function Keep(h: Held): World {
      if h.d.direction.Upgrade? then this.(keptUp := keptUp + h.d.pages) else this.(keptDown := keptDown + h.d.pages)
    }
  }

  datatype Label =
    | Prepare(minSeq: nat, priority: int, nrToReclaim: nat, nrReclaimed: nat)
    | Consider(page: nat, c: Candidate, others: seq<Event>, configSeen: bool)
    | Finish(i: nat, sortResult: bool)
    | EndBatch
    | PageEvent(page: nat, e: Event)
    | Feedback(batchRun: nat, isolated: nat, reclaimed: nat)
    | Fault
    | TurnOff
    | TurnOn(newMode: Mode, newConfig: Config)

  predicate ConfigOk(c: Config) {
    PolicyValid(c.policy) && 0 < c.upgradeRatio <= 10000 && 0 < c.downgradeRatio <= 10000
  }

  function Init(pages: nat, config: Config): World {
    World(Ledger(0, 0, 0, 0, 0, 0, 0), None, seq(pages, i => []), [], 0, 0, Off, 0, config, false, false)
  }

  predicate LogsOk(w: World) {
    && (forall p :: 0 <= p < |w.pages| ==> WellFormedLog(w.pages[p]))
    && (w.ctx.Some? ==> 1 <= w.ctx.value.epochTag < 4096)
    && (forall i :: 0 <= i < |w.held| ==> w.held[i].page < |w.pages|)
  }

  /** Batches on one list are serialized; a new activation starts only with the mode off and no batch
      inside its read-side section, as `ActivationProtocol.NoBatchWhileOpening` proves of the protocol. */
  predicate Enabled(w: World, l: Label) {
    match l
    case Prepare(_, _, _, _) => w.ctx.None?
    case Consider(page, c, others, _) => w.ctx.Some? && page < |w.pages| && WellFormedLog(others)
    case Finish(i, _) => w.ctx.Some? && i < |w.held|
    case EndBatch => w.ctx.Some?
    case PageEvent(page, e) => page < |w.pages| && WellFormed(e)
    case TurnOn(newMode, newConfig) => w.mode.Off? && w.ctx.None? && !newMode.Off? && w.run < 255 && ConfigOk(newConfig)
    case _ => true
  }

  function Remove<T>(s: seq<T>, i: nat): seq<T>
    requires i < |s|
  {
    s[..i] + s[i + 1..]
  }

  function SeenConfig(w: World, configSeen: bool): Option<Config> {
    if configSeen then Some(w.config) else None
  }

  function EvaluationHere(w: World, log: seq<Event>, c: Candidate, configSeen: bool): Evaluation
    requires w.ctx.Some? && WellFormedLog(log)
  {
    if !w.faulted && configSeen then EvaluationOf(Fold(log), c.now, c.lruGen, w.ctx.value.run) else NOTHING
  }

  /** The page's log when the claim is attempted: its evaluation, then whatever others did meanwhile. */
  function LogAtClaim(w: World, log: seq<Event>, c: Candidate, others: seq<Event>, configSeen: bool): (log': seq<Event>)
    requires WellFormedLog(log) && WellFormedLog(others)
    ensures WellFormedLog(log')
  {
    (if !w.faulted && configSeen then log + [Evaluate(c.lruGen)] else log) + others
  }

  function ProposalHere(w: World, log: seq<Event>, c: Candidate, configSeen: bool): Decision
    requires w.ctx.Some? && WellFormedLog(log)
  {
    Propose(CountCandidate(w.ledger, w.ctx.value, c.pages).1, w.faulted, SeenConfig(w, configSeen),
            EvaluationHere(w, log, c, configSeen), c)
  }

  function OutcomeHere(w: World, log: seq<Event>, c: Candidate, others: seq<Event>, configSeen: bool): Outcome
    requires w.ctx.Some? && WellFormedLog(log) && WellFormedLog(others)
  {
    var ev := EvaluationHere(w, log, c, configSeen);
    var claim := ClaimOutcome(Fold(LogAtClaim(w, log, c, others, configSeen)),
                              DirectionOf(ProposalHere(w, log, c, configSeen).action),
                              w.ctx.value.epochTag, ev.sequence, w.ctx.value.run);
    Decide(w.ledger, w.ctx.value, w.faulted, SeenConfig(w, configSeen), ev, claim, c)
  }

  function LogAfter(w: World, log: seq<Event>, c: Candidate, others: seq<Event>, configSeen: bool): (log': seq<Event>)
    requires w.ctx.Some? && 1 <= w.ctx.value.epochTag < 4096
    requires WellFormedLog(log) && WellFormedLog(others)
    ensures WellFormedLog(log')
  {
    var proposal := ProposalHere(w, log, c, configSeen);
    var (ledger1, ctx1) := CountCandidate(w.ledger, w.ctx.value, c.pages);
    var log1 := LogAtClaim(w, log, c, others, configSeen);
    if WantsClaim(ledger1, ctx1, SeenConfig(w, configSeen), proposal, c.pages)
    then log1 + [Claim(DirectionOf(proposal.action), w.ctx.value.epochTag,
                       EvaluationHere(w, log, c, configSeen).sequence, w.ctx.value.run)]
    else log1
  }

  function AfterPrepare(w: World, minSeq: nat, priority: int, nrToReclaim: nat, nrReclaimed: nat): (w': World)
    requires LogsOk(w) && w.ctx.None?
    ensures LogsOk(w')
  {
    if w.mode.Off? || w.faulted then w
    else
      var startsNew := StartsEpoch(w.ledger, minSeq, w.run);
      var ledger := OpenEpoch(w.ledger, minSeq, w.run);
      TaggedTag(if startsNew then NextId(w.ledger.epochId) else w.ledger.epochId);
      w.(ledger := ledger, ctx := Some(NewContext(ledger, w.mode, w.run, priority, nrToReclaim, nrReclaimed)),
         keptUp := if startsNew then 0 else w.keptUp, keptDown := if startsNew then 0 else w.keptDown)
  }

  function AfterConsider(w: World, page: nat, c: Candidate, others: seq<Event>, configSeen: bool): (w': World)
    requires LogsOk(w) && w.ctx.Some? && page < |w.pages| && WellFormedLog(others)
    ensures LogsOk(w')
  {
    var log := w.pages[page];
    var o := OutcomeHere(w, log, c, others, configSeen);
    OutcomeKeeps(w, log, c, others, configSeen);
    OutcomeLogsOk(w, page, LogAfter(w, log, c, others, configSeen), o);
    WithOutcome(w, page, LogAfter(w, log, c, others, configSeen), o)
  }

  function AfterFinish(w: World, i: nat, sortResult: bool): (w': World)
    requires LogsOk(w) && w.ctx.Some? && i < |w.held|
    ensures LogsOk(w')
  {
    var h := w.held[i];
    var w1 := w.(held := Remove(w.held, i));
    if Committed(h.d, sortResult) then w1.Keep(h)
    else
      var ctx := w.ctx.value;
      var closing := Close(w.ledger, ctx, h.d, sortResult, !Refused(Fold(w.pages[h.page])));
      w1.(ledger := closing.ledger, ctx := Some(closing.ctx),
          pages := w.pages[h.page := w.pages[h.page] + [Release(h.d.direction, ctx.epochTag, ctx.run)]],
          faulted := w.faulted || closing.faulted, invariantFault := w.invariantFault || closing.faulted)
  }

  function Next(w: World, l: Label): (w': World)
    requires LogsOk(w) && Enabled(w, l)
    ensures LogsOk(w')
  {
    match l
    case Prepare(minSeq, priority, nrToReclaim, nrReclaimed) =>
      AfterPrepare(w, minSeq, priority, nrToReclaim, nrReclaimed)
    case Consider(page, c, others, configSeen) => AfterConsider(w, page, c, others, configSeen)
    case Finish(i, sortResult) => AfterFinish(w, i, sortResult)
    case EndBatch =>
      w.(ctx := None, held := [], keptUp := w.keptUp + Sum(w.held, Upgrade),
         keptDown := w.keptDown + Sum(w.held, Downgrade))
    case PageEvent(page, e) => w.(pages := w.pages[page := w.pages[page] + [e]])
    case Feedback(batchRun, isolated, reclaimed) =>
      w.(ledger := Progress(w.ledger, batchRun, w.run, isolated, reclaimed))
    case Fault => w.(faulted := true)
    case TurnOff => w.(mode := Off)
    case TurnOn(newMode, newConfig) => w.(mode := newMode, run := w.run + 1, config := newConfig, faulted := false)
  }

  predicate Legal(w: World, ls: seq<Label>)
    requires LogsOk(w)
    decreases |ls|
  {
    |ls| == 0 || (Enabled(w, ls[0]) && Legal(Next(w, ls[0]), ls[1..]))
  }

  function Run(w: World, ls: seq<Label>): (w': World)
    requires LogsOk(w) && Legal(w, ls)
    ensures LogsOk(w')
    decreases |ls|
  {
    if |ls| == 0 then w else Run(Next(w, ls[0]), ls[1..])
  }

  // ----- sums of reservations -----

  function Sum(hs: seq<Held>, dir: Direction): nat {
    if |hs| == 0 then 0
    else Sum(hs[..|hs| - 1], dir) + (if hs[|hs| - 1].d.direction == dir then hs[|hs| - 1].d.pages else 0)
  }

  lemma {:induction false} SumRemove(hs: seq<Held>, i: nat, dir: Direction)
    requires i < |hs|
    ensures Sum(hs, dir) == Sum(Remove(hs, i), dir) + (if hs[i].d.direction == dir then hs[i].d.pages else 0)
  {
    var last := |hs| - 1;
    if i == last {
      assert Remove(hs, i) == hs[..last];
    } else {
      SumRemove(hs[..last], i, dir);
      assert Remove(hs, i)[..last - 1] == Remove(hs[..last], i);
    }
  }

  // ----- the invariant -----

  lemma ProductMonotone(a: nat, b: nat, r: nat)
    requires a <= b
    ensures a * r <= b * r
  {
  }

  lemma RatioLimitMonotone(a: nat, b: nat, ratio: nat)
    requires a <= b
    ensures RatioLimit(a, ratio) <= RatioLimit(b, ratio)
  {
    ProductMonotone(a, b, ratio);
  }

  predicate WithinEpochBudget(l: Ledger, config: Config, dir: Direction) {
    && l.Used(dir) <= ULONG_MAX
    && (l.Used(dir) > 0 ==> l.Used(dir) <= config.EpochLimit(dir)
                            && l.Used(dir) <= RatioLimit(l.candidatePages, config.Ratio(dir)))
  }

  predicate WithinBatchBudget(c: Ctx, config: Config, dir: Direction) {
    c.Used(dir) > 0 ==> c.Used(dir) <= config.BatchLimit(dir)
                        && c.Used(dir) <= RatioLimit(c.candidatePages, config.Ratio(dir))
  }

  predicate DirectionOk(w: World, dir: Direction) {
    && w.ledger.Used(dir) == w.Kept(dir) + Sum(w.held, dir)
    && (w.ledger.stateEpoch == w.run ==> WithinEpochBudget(w.ledger, w.config, dir))
    && (w.ctx.Some? ==>
          w.ctx.value.Used(dir) >= Sum(w.held, dir) && WithinBatchBudget(w.ctx.value, w.config, dir))
  }

  ghost predicate Inv(w: World) {
    && LogsOk(w) && !w.invariantFault
    && (w.ctx.None? ==> w.held == [])
    && (w.ctx.Some? ==>
          && w.ctx.value.run == w.run == w.ledger.stateEpoch && w.ctx.value.epochTag == Tag(w.ledger.epochId)
          && CtxPressureOk(w.ctx.value))
    && w.ledger.stateEpoch <= w.run
    && (forall i :: 0 <= i < |w.held| ==> Reservation(w.held[i].d))
    && w.ledger.candidatePages <= ULONG_MAX && (w.ctx.Some? ==> w.ctx.value.candidatePages <= ULONG_MAX)
    && DirectionOk(w, Upgrade) && DirectionOk(w, Downgrade)
  }

  lemma TaggedTag(id: nat)
    ensures 1 <= Tag(Tagged(id)) <= TAGS
  {
  }

  /** What one decision does to the counters of direction `dir`. */
  predicate ChargeOk(w: World, o: Outcome, pages: nat, dir: Direction)
    requires w.ctx.Some?
  {
    var d := o.decision;
    var charged := if d.reserved && d.direction == dir then pages else 0;
    && d.pages == pages
    && o.ledger.Used(dir) == w.ledger.Used(dir) + charged
    && o.ctx.Used(dir) >= w.ctx.value.Used(dir) + charged
    && (charged > 0 ==> WithinEpochBudget(o.ledger, w.config, dir))
    && (o.ctx.Used(dir) == w.ctx.value.Used(dir) || WithinBatchBudget(o.ctx, w.config, dir))
  }

  /** What a decision leaves alone, and the candidates it counts. */
  predicate ContextKept(w: World, o: Outcome)
    requires w.ctx.Some?
  {
    var ctx := w.ctx.value;
    && o.ledger.epochId == w.ledger.epochId && o.ledger.stateEpoch == w.ledger.stateEpoch
    && o.ctx.run == ctx.run && o.ctx.epochTag == ctx.epochTag
    && o.ctx.severe == ctx.severe && o.ctx.noProgress == ctx.noProgress && o.ctx.level == ctx.level
    && Min(w.ledger.candidatePages, ULONG_MAX) <= o.ledger.candidatePages <= Max(w.ledger.candidatePages, ULONG_MAX)
    && Min(ctx.candidatePages, ULONG_MAX) <= o.ctx.candidatePages <= ULONG_MAX
  }

  /** Counting the candidate touches neither the budgets' use nor anything else but the candidate counts. */
  lemma CountKeeps(l: Ledger, ctx: Ctx, pages: nat)
    ensures
      var (l1, ctx1) := CountCandidate(l, ctx, pages);
      && l1 == l.(candidatePages := l1.candidatePages) && ctx1 == ctx.(candidatePages := ctx1.candidatePages)
      && Min(l.candidatePages, ULONG_MAX) <= l1.candidatePages <= Max(l.candidatePages, ULONG_MAX)
      && Min(ctx.candidatePages, ULONG_MAX) <= ctx1.candidatePages <= ULONG_MAX
  {
  }

  lemma ChargedKeeps(w: World, l1: Ledger, ctx1: Ctx, o: Outcome, config: Option<Config>, claim: ClaimResult,
                     pages: nat)
    requires w.ctx.Some? && (l1, ctx1) == CountCandidate(w.ledger, w.ctx.value, pages)
    requires Charged(l1, ctx1, config, claim, o, pages)
    ensures ContextKept(w, o) && (o.decision.reserved ==> Reservation(o.decision))
  {
    CountKeeps(w.ledger, w.ctx.value, pages);
  }

  lemma AllowedStaysWithin(l: Ledger, ctx: Ctx, config: Config, a: Action, pages: nat)
    requires Predictive(a) && Allowed(l, ctx, config, a, pages)
    ensures
      var dir := DirectionOf(a);
      && WithinBatchBudget(ctx.WithUsed(dir, ctx.Used(dir) + pages), config, dir)
      && (Applies(ctx.mode, a) ==> WithinEpochBudget(l.WithUsed(dir, l.Used(dir) + pages), config, dir))
  {
  }

  lemma ChargedCharges(w: World, l1: Ledger, ctx1: Ctx, o: Outcome, config: Option<Config>, claim: ClaimResult,
                       pages: nat, dir: Direction)
    requires w.ctx.Some? && (l1, ctx1) == CountCandidate(w.ledger, w.ctx.value, pages)
    requires Charged(l1, ctx1, config, claim, o, pages) && o.decision.pages == pages
    requires config.None? || config.value == w.config
    ensures ChargeOk(w, o, pages, dir)
  {
    var d := o.decision;
    CountKeeps(w.ledger, w.ctx.value, pages);
    if d.reserved {
      ReservedCharges(w, l1, ctx1, o, pages, dir);
    } else if o.ctx != ctx1 {
      AllowedStaysWithin(l1, ctx1, w.config, d.action, pages);
      UsedElsewhere(l1, ctx1, DirectionOf(d.action), dir, pages);
    }
  }

  lemma ReservedCharges(w: World, l1: Ledger, ctx1: Ctx, o: Outcome, pages: nat, dir: Direction)
    requires w.ctx.Some? && o.decision.reserved && o.decision.pages == pages
    requires l1.Used(dir) == w.ledger.Used(dir) && ctx1.Used(dir) == w.ctx.value.Used(dir)
    requires Predictive(o.decision.action) && o.decision.direction == DirectionOf(o.decision.action)
    requires Applies(ctx1.mode, o.decision.action) && Allowed(l1, ctx1, w.config, o.decision.action, pages)
    requires o.ledger == l1.WithUsed(o.decision.direction, l1.Used(o.decision.direction) + pages)
    requires o.ctx == ctx1.WithUsed(o.decision.direction, ctx1.Used(o.decision.direction) + pages)
    ensures ChargeOk(w, o, pages, dir)
  {
    AllowedStaysWithin(l1, ctx1, w.config, o.decision.action, pages);
    UsedElsewhere(l1, ctx1, o.decision.direction, dir, pages);
  }

  /** Charging one direction shows in that direction only. */
  lemma UsedElsewhere(l: Ledger, ctx: Ctx, charged: Direction, dir: Direction, pages: nat)
    ensures l.WithUsed(charged, l.Used(charged) + pages).Used(dir) == l.Used(dir) + if charged == dir then pages else 0
    ensures ctx.WithUsed(charged, ctx.Used(charged) + pages).Used(dir)
            == ctx.Used(dir) + if charged == dir then pages else 0
  {
  }

  lemma OutcomeKeeps(w: World, log: seq<Event>, c: Candidate, others: seq<Event>, configSeen: bool)
    requires w.ctx.Some? && WellFormedLog(log) && WellFormedLog(others)
    ensures
      var o := OutcomeHere(w, log, c, others, configSeen);
      ContextKept(w, o) && (o.decision.reserved ==> Reservation(o.decision))
  {
    var claim := OutcomeCharged(w, log, c, others, configSeen);
    var (l1, ctx1) := CountCandidate(w.ledger, w.ctx.value, c.pages);
    ChargedKeeps(w, l1, ctx1, OutcomeHere(w, log, c, others, configSeen), SeenConfig(w, configSeen), claim, c.pages);
  }

  lemma OutcomeCharges(w: World, log: seq<Event>, c: Candidate, others: seq<Event>, configSeen: bool, dir: Direction)
    requires w.ctx.Some? && WellFormedLog(log) && WellFormedLog(others)
    ensures ChargeOk(w, OutcomeHere(w, log, c, others, configSeen), c.pages, dir)
  {
    var claim := OutcomeCharged(w, log, c, others, configSeen);
    var (l1, ctx1) := CountCandidate(w.ledger, w.ctx.value, c.pages);
    ChargedCharges(w, l1, ctx1, OutcomeHere(w, log, c, others, configSeen), SeenConfig(w, configSeen), claim,
                   c.pages, dir);
  }

  lemma OutcomeCharged(w: World, log: seq<Event>, c: Candidate, others: seq<Event>, configSeen: bool)
    returns (claim: ClaimResult)
    requires w.ctx.Some? && WellFormedLog(log) && WellFormedLog(others)
    ensures
      var (l1, ctx1) := CountCandidate(w.ledger, w.ctx.value, c.pages);
      var o := OutcomeHere(w, log, c, others, configSeen);
      o.decision.pages == c.pages && Charged(l1, ctx1, SeenConfig(w, configSeen), claim, o, c.pages)
  {
    var ev := EvaluationHere(w, log, c, configSeen);
    claim := ClaimOutcome(Fold(LogAtClaim(w, log, c, others, configSeen)),
                          DirectionOf(ProposalHere(w, log, c, configSeen).action),
                          w.ctx.value.epochTag, ev.sequence, w.ctx.value.run);
    ReservationCharges(w.ledger, w.ctx.value, w.faulted, SeenConfig(w, configSeen), ev, claim, c);
  }

  lemma BudgetsSurvive(w: World, o: Outcome, pages: nat, dir: Direction)
    requires Inv(w) && w.ctx.Some? && ChargeOk(w, o, pages, dir) && ContextKept(w, o)
    ensures WithinEpochBudget(o.ledger, w.config, dir)
    ensures WithinBatchBudget(o.ctx, w.config, dir)
  {
    assert DirectionOk(w, dir);
    RatioLimitMonotone(w.ledger.candidatePages, o.ledger.candidatePages, w.config.Ratio(dir));
    RatioLimitMonotone(w.ctx.value.candidatePages, o.ctx.candidatePages, w.config.Ratio(dir));
  }

  /** The world after a decision with outcome `o` on `page`, whose log becomes `log`. */
  function WithOutcome(w: World, page: nat, log: seq<Event>, o: Outcome): World
    requires page < |w.pages|
  {
    w.(ledger := o.ledger, ctx := Some(o.ctx), pages := w.pages[page := log],
       held := if o.decision.reserved then w.held + [Held(page, o.decision)] else w.held)
  }

  lemma OutcomeLogsOk(w: World, page: nat, log: seq<Event>, o: Outcome)
    requires LogsOk(w) && w.ctx.Some? && page < |w.pages| && WellFormedLog(log) && ContextKept(w, o)
    ensures LogsOk(WithOutcome(w, page, log, o))
  {
  }

  lemma OutcomeDirection(w: World, page: nat, log: seq<Event>, o: Outcome, pages: nat, dir: Direction)
    requires Inv(w) && w.ctx.Some? && page < |w.pages| && ChargeOk(w, o, pages, dir) && ContextKept(w, o)
    ensures DirectionOk(WithOutcome(w, page, log, o), dir)
  {
    BudgetsSurvive(w, o, pages, dir);
    assert DirectionOk(w, dir);
    if o.decision.reserved {
      var held := w.held + [Held(page, o.decision)];
      assert held[..|held| - 1] == w.held;
    }
  }

  lemma ConsiderStep(w: World, page: nat, c: Candidate, others: seq<Event>, configSeen: bool)
    requires Inv(w) && w.ctx.Some? && page < |w.pages| && WellFormedLog(others)
    ensures Inv(AfterConsider(w, page, c, others, configSeen))
  {
    var log := w.pages[page];
    var o := OutcomeHere(w, log, c, others, configSeen);
    OutcomeKeeps(w, log, c, others, configSeen);
    OutcomeCharges(w, log, c, others, configSeen, Upgrade);
    OutcomeCharges(w, log, c, others, configSeen, Downgrade);
    OutcomeDirection(w, page, LogAfter(w, log, c, others, configSeen), o, c.pages, Upgrade);
    OutcomeDirection(w, page, LogAfter(w, log, c, others, configSeen), o, c.pages, Downgrade);
  }

  lemma RefundFits(w: World, i: nat)
    requires Inv(w) && w.ctx.Some? && i < |w.held|
    ensures Refundable(w.ledger, w.ctx.value, w.held[i].d)
  {
    SumRemove(w.held, i, w.held[i].d.direction);
    assert DirectionOk(w, w.held[i].d.direction);
  }

  /** A held reservation can always be refunded: the page accepts the release and both counters hold it. */
  lemma RefundSucceeds(w: World, i: nat, sortResult: bool)
    requires Inv(w) && w.ctx.Some? && i < |w.held| && !Committed(w.held[i].d, sortResult)
    ensures
      var h := w.held[i];
      var dir := h.d.direction;
      && h.d.pages <= w.ledger.Used(dir) && h.d.pages <= w.ctx.value.Used(dir)
      && Close(w.ledger, w.ctx.value, h.d, sortResult, !Refused(Fold(w.pages[h.page]))) ==
         Closing(w.ledger.WithUsed(dir, w.ledger.Used(dir) - h.d.pages),
                 w.ctx.value.WithUsed(dir, w.ctx.value.Used(dir) - h.d.pages), h.d.(reserved := false), false)
  {
    RefundFits(w, i);
    NeverRefused(w.pages[w.held[i].page]);
    assert Reservation(w.held[i].d);
  }

  /** The world after a refund of `h`, before its page and its place among the held ones are updated. */
  function Refunded(w: World, h: Held): World
    requires w.ctx.Some? && Refundable(w.ledger, w.ctx.value, h.d)
  {
    var dir := h.d.direction;
    w.(ledger := w.ledger.WithUsed(dir, w.ledger.Used(dir) - h.d.pages),
       ctx := Some(w.ctx.value.WithUsed(dir, w.ctx.value.Used(dir) - h.d.pages)))
  }

  function ReleasedPages(w: World, h: Held): seq<seq<Event>>
    requires w.ctx.Some? && h.page < |w.pages|
  {
    w.pages[h.page := w.pages[h.page] + [Release(h.d.direction, w.ctx.value.epochTag, w.ctx.value.run)]]
  }

  lemma FinishIs(w: World, i: nat, sortResult: bool)
    requires Inv(w) && w.ctx.Some? && i < |w.held|
    ensures Refundable(w.ledger, w.ctx.value, w.held[i].d)
    ensures
      var h := w.held[i];
      AfterFinish(w, i, sortResult) ==
      if Committed(h.d, sortResult) then w.(held := Remove(w.held, i)).Keep(h)
      else Refunded(w, h).(held := Remove(w.held, i), pages := ReleasedPages(w, h))
  {
    RefundFits(w, i);
    if !Committed(w.held[i].d, sortResult) {
      RefundSucceeds(w, i, sortResult);
    }
  }

  lemma UsingLessStaysWithin(l: Ledger, l': Ledger, c: Ctx, c': Ctx, config: Config, dir: Direction)
    requires l'.Used(dir) <= l.Used(dir) && l'.candidatePages == l.candidatePages
    requires c'.Used(dir) <= c.Used(dir) && c'.candidatePages == c.candidatePages
    ensures WithinEpochBudget(l, config, dir) ==> WithinEpochBudget(l', config, dir)
    ensures WithinBatchBudget(c, config, dir) ==> WithinBatchBudget(c', config, dir)
  {
  }

  lemma KeepDirection(w: World, i: nat, dir: Direction)
    requires Inv(w) && w.ctx.Some? && i < |w.held|
    ensures DirectionOk(w.(held := Remove(w.held, i)).Keep(w.held[i]), dir)
  {
    SumRemove(w.held, i, dir);
    assert DirectionOk(w, dir);
  }

  lemma RefundDirection(w: World, i: nat, pages: seq<seq<Event>>, dir: Direction)
    requires Inv(w) && w.ctx.Some? && i < |w.held| && Refundable(w.ledger, w.ctx.value, w.held[i].d)
    ensures DirectionOk(Refunded(w, w.held[i]).(held := Remove(w.held, i), pages := pages), dir)
  {
    SumRemove(w.held, i, dir);
    assert DirectionOk(w, dir);
    var w' := Refunded(w, w.held[i]);
    UsingLessStaysWithin(w.ledger, w'.ledger, w.ctx.value, w'.ctx.value, w.config, dir);
  }

  lemma FinishStep(w: World, i: nat, sortResult: bool)
    requires Inv(w) && w.ctx.Some? && i < |w.held|
    ensures Inv(AfterFinish(w, i, sortResult))
  {
    FinishIs(w, i, sortResult);
    if Committed(w.held[i].d, sortResult) {
      KeepDirection(w, i, Upgrade);
      KeepDirection(w, i, Downgrade);
    } else {
      RefundDirection(w, i, ReleasedPages(w, w.held[i]), Upgrade);
      RefundDirection(w, i, ReleasedPages(w, w.held[i]), Downgrade);
    }
  }

  lemma PrepareStep(w: World, minSeq: nat, priority: int, nrToReclaim: nat, nrReclaimed: nat)
    requires Inv(w) && w.ctx.None?
    ensures Inv(AfterPrepare(w, minSeq, priority, nrToReclaim, nrReclaimed))
  {
  }

  lemma StepKeepsInv(w: World, l: Label)
    requires Inv(w) && Enabled(w, l)
    ensures Inv(Next(w, l))
  {
    match l
    case Prepare(minSeq, priority, nrToReclaim, nrReclaimed) =>
      PrepareStep(w, minSeq, priority, nrToReclaim, nrReclaimed);
    case Consider(page, c, others, configSeen) => ConsiderStep(w, page, c, others, configSeen);
    case Finish(i, sortResult) => FinishStep(w, i, sortResult);
    case EndBatch => EndBatchStep(w);
    case PageEvent(page, e) => PageEventStep(w, page, e);
    case TurnOn(newMode, newConfig) => TurnOnStep(w, newMode, newConfig);
    case Feedback(batchRun, isolated, reclaimed) => FeedbackStep(w, batchRun, isolated, reclaimed);
    case _ =>
  }

  lemma FeedbackStep(w: World, batchRun: nat, isolated: nat, reclaimed: nat)
    requires Inv(w)
    ensures Inv(Next(w, Feedback(batchRun, isolated, reclaimed)))
  {
  }

  lemma EndBatchStep(w: World)
    requires Inv(w) && w.ctx.Some?
    ensures Inv(Next(w, EndBatch))
  {
  }

  lemma PageEventStep(w: World, page: nat, e: Event)
    requires Inv(w) && page < |w.pages| && WellFormed(e)
    ensures Inv(Next(w, PageEvent(page, e)))
  {
  }

  lemma TurnOnStep(w: World, newMode: Mode, newConfig: Config)
    requires Inv(w) && Enabled(w, TurnOn(newMode, newConfig))
    ensures Inv(Next(w, TurnOn(newMode, newConfig)))
  {
  }

  lemma {:induction false} RunKeepsInv(w: World, ls: seq<Label>)
    requires Inv(w) && Legal(w, ls)
    ensures Inv(Run(w, ls))
    decreases |ls|
  {
    if |ls| > 0 {
      StepKeepsInv(w, ls[0]);
      RunKeepsInv(Next(w, ls[0]), ls[1..]);
    }
  }

  // ----- theorems -----

  lemma InitInv(pages: nat, config: Config)
    ensures Inv(Init(pages, config))
  {
  }

  /** Over every run, the epoch counter of each direction is exactly the pages of the reservations still
      held or no longer refundable since the epoch began; it stays within the epoch limit and the ratio
      of the candidates seen; and the refund branch that would find too little to refund is never taken. */
  lemma LedgerBalances(pages: nat, config: Config, ls: seq<Label>, dir: Direction)
    requires Legal(Init(pages, config), ls)
    ensures
      var w := Run(Init(pages, config), ls);
      && w.ledger.Used(dir) == w.Kept(dir) + Sum(w.held, dir)
      && (w.ledger.stateEpoch == w.run && w.ledger.Used(dir) > 0 ==>
            && w.ledger.Used(dir) <= w.config.EpochLimit(dir)
            && w.ledger.Used(dir) <= Max(1, w.ledger.candidatePages * w.config.Ratio(dir) / 10000))
      && (w.ctx.Some? && w.ctx.value.Used(dir) > 0 ==> w.ctx.value.Used(dir) <= w.config.BatchLimit(dir))
      && !w.invariantFault
  {
    InitInv(pages, config);
    RunKeepsInv(Init(pages, config), ls);
  }

  /** Cancelling a reservation takes back exactly what it was charged, in both counters of its direction,
      and leaves the other direction alone. */
  lemma CancelRefundsExactly(pages: nat, config: Config, ls: seq<Label>, i: nat, sortResult: bool, dir: Direction)
    requires Legal(Init(pages, config), ls)
    requires Enabled(Run(Init(pages, config), ls), Finish(i, sortResult))
    requires !Committed(Run(Init(pages, config), ls).held[i].d, sortResult)
    ensures
      var w := Run(Init(pages, config), ls);
      var w' := Next(w, Finish(i, sortResult));
      var h := w.held[i];
      var refund := if h.d.direction == dir then h.d.pages else 0;
      && w'.ledger.Used(dir) == w.ledger.Used(dir) - refund
      && w'.ctx.Some? && w'.ctx.value.Used(dir) == w.ctx.value.Used(dir) - refund
      && w'.faulted == w.faulted && w'.held == Remove(w.held, i) && w'.Kept(dir) == w.Kept(dir)
  {
    InitInv(pages, config);
    RunKeepsInv(Init(pages, config), ls);
    RefundSucceeds(Run(Init(pages, config), ls), i, sortResult);
  }

  /** In every run, finishing a held reservation keeps it for the rest of the epoch, pages and counters
      untouched, exactly when it is a downgrade or the page was sorted; otherwise its page is released. */
  lemma FinishKeepsIff(pages: nat, config: Config, ls: seq<Label>, i: nat, sortResult: bool)
    requires Legal(Init(pages, config), ls)
    requires Enabled(Run(Init(pages, config), ls), Finish(i, sortResult))
    ensures
      var w := Run(Init(pages, config), ls);
      var w' := Next(w, Finish(i, sortResult));
      var h := w.held[i];
      if h.d.direction.Downgrade? || sortResult then
        && w'.ledger == w.ledger && w'.ctx == w.ctx && w'.pages == w.pages
        && w'.keptUp == w.keptUp + (if h.d.direction.Upgrade? then h.d.pages else 0)
        && w'.keptDown == w.keptDown + (if h.d.direction.Downgrade? then h.d.pages else 0)
      else
        && w'.keptUp == w.keptUp && w'.keptDown == w.keptDown
        && w'.ctx.Some? && w'.ledger.upgradePages == w.ledger.upgradePages - h.d.pages
        && w'.pages[h.page] == w.pages[h.page] + [Release(Upgrade, w.ctx.value.epochTag, w.ctx.value.run)]
  {
    InitInv(pages, config);
    RunKeepsInv(Init(pages, config), ls);
    FinishedIs(Run(Init(pages, config), ls), i, sortResult);
  }

  lemma FinishedIs(w: World, i: nat, sortResult: bool)
    requires Inv(w) && w.ctx.Some? && i < |w.held|
    ensures
      var w' := AfterFinish(w, i, sortResult);
      var h := w.held[i];
      if h.d.direction.Downgrade? || sortResult then w' == w.(held := Remove(w.held, i)).Keep(h)
      else
        && Refundable(w.ledger, w.ctx.value, h.d) && h.d.direction.Upgrade?
        && w' == Refunded(w, h).(held := Remove(w.held, i), pages := ReleasedPages(w, h))
  {
    FinishIs(w, i, sortResult);
    assert Reservation(w.held[i].d);
    KeptIff(w.ledger, w.ctx.value, w.held[i].d, sortResult, true);
  }

  /** A batch opens exactly with the mode on and no fault, over the ledger's epoch for the present generation and
      activation; a new activation takes the next number, its own mode and config, and starts without a fault. */
  lemma BatchOpensIff(w: World, minSeq: nat, priority: int, nrToReclaim: nat, nrReclaimed: nat)
    requires LogsOk(w) && w.ctx.None?
    ensures
      var w' := Next(w, Prepare(minSeq, priority, nrToReclaim, nrReclaimed));
      && (w'.ctx.Some? <==> !w.mode.Off? && !w.faulted)
      && (w'.ctx.None? ==> w' == w)
      && (w'.ctx.Some? ==>
            && w'.ledger.sourceSeq == minSeq && w'.ledger.stateEpoch == w.run
            && w'.ctx.value.mode == w.mode && w'.ctx.value.run == w.run
            && w'.ctx.value.epochTag == w'.ledger.epochId % 4096 && w'.held == w.held && w'.pages == w.pages)
  {
  }

  lemma ActivationStarts(w: World, newMode: Mode, newConfig: Config)
    requires LogsOk(w) && Enabled(w, TurnOn(newMode, newConfig))
    ensures
      var w' := Next(w, TurnOn(newMode, newConfig));
      && w'.mode == newMode && w'.config == newConfig && w'.run == w.run + 1 && !w'.faulted
      && w'.ledger == w.ledger && w'.pages == w.pages
  {
  }

  // ----- epoch tags -----

  /** The id of the `n`-th epoch after the one with id `id`. */
  function EpochAfter(id: nat, n: nat): nat {
    if n == 0 then id else Tagged(NextId(EpochAfter(id, n - 1)))
  }

  lemma TagAdvances(id: nat)
    requires 1 <= Tag(id) && id < ID_LIMIT
    ensures Tag(Tagged(NextId(id))) == Tag(id) % TAGS + 1
    ensures Tagged(NextId(id)) < ID_LIMIT
  {
    NextTag(id);
    if id + 1 < ID_LIMIT {
      assert NextId(id) == id + 1;
      if Tag(id) == TAGS {
        NextTag(id + 1);
      }
    } else {
      assert NextId(id) == 1;
    }
  }

  lemma NextTag(id: nat)
    ensures Tag(id + 1) == if Tag(id) == TAGS then 0 else Tag(id) + 1
  {
    var block, tag := id / 0x1000, id % 0x1000;
    if tag == TAGS {
      assert id + 1 == 0x1000 * (block + 1);
    } else {
      assert id + 1 == 0x1000 * block + (tag + 1);
    }
  }

  lemma ModuloStep(a: nat)
    ensures (a % TAGS + 1) % TAGS == (a + 1) % TAGS
  {
  }

  lemma ModuloReturns(t: nat, n: nat)
    requires t < TAGS
    ensures (t + n) % TAGS == t <==> n % TAGS == 0
  {
    assert t + n == t + n % TAGS + TAGS * (n / TAGS);
    assert (t + n) % TAGS == (t + n % TAGS) % TAGS;
  }

  lemma {:induction false} TagAfter(id: nat, n: nat)
    requires 1 <= Tag(id) && id < ID_LIMIT
    ensures EpochAfter(id, n) < ID_LIMIT
    ensures Tag(EpochAfter(id, n)) == (Tag(id) - 1 + n) % TAGS + 1
  {
    if n > 0 {
      TagAfter(id, n - 1);
      TagAdvances(EpochAfter(id, n - 1));
      ModuloStep(Tag(id) - 1 + (n - 1));
    }
  }

  /** Tags are never zero, and two epochs of one list carry the same tag exactly when they are a multiple
      of 4095 epochs apart. */
  lemma TagsDistinct(id: nat, n: nat)
    requires 1 <= Tag(id) && id < ID_LIMIT
    ensures 1 <= Tag(EpochAfter(id, n)) <= TAGS
    ensures Tag(EpochAfter(id, n)) == Tag(id) <==> n % TAGS == 0
  {
    TagAfter(id, n);
    ModuloReturns(Tag(id) - 1, n);
  }

  /** Within an epoch the id and the tag stay; a new epoch takes the next id that has a nonzero tag. */
  lemma PrepareTags(l: Ledger, minSeq: nat, run: nat)
    requires l.epochId == 0 || 1 <= Tag(l.epochId)
    ensures
      var l' := OpenEpoch(l, minSeq, run);
      && 1 <= Tag(l'.epochId) <= TAGS
      && (!StartsEpoch(l, minSeq, run) ==> l' == l)
      && (StartsEpoch(l, minSeq, run) ==>
            l'.epochId == EpochAfter(l.epochId, 1) && l'.upgradePages == 0 && l'.downgradePages == 0)
  {
    assert EpochAfter(l.epochId, 1) == Tagged(NextId(EpochAfter(l.epochId, 0)));
  }

  // ----- epoch tags over runs -----

  predicate StartsHere(w: World, l: Label) {
    l.Prepare? && !w.mode.Off? && !w.faulted && StartsEpoch(w.ledger, l.minSeq, w.run)
  }

  /** How many epochs of the list begin during a run. */
  function Started(w: World, ls: seq<Label>): nat
    requires LogsOk(w) && Legal(w, ls)
    decreases |ls|
  {
    if |ls| == 0 then 0 else (if StartsHere(w, ls[0]) then 1 else 0) + Started(Next(w, ls[0]), ls[1..])
  }

  predicate IdOk(l: Ledger) {
    l.epochId < ID_LIMIT && (l.epochId == 0 || 1 <= Tag(l.epochId))
  }

  lemma IdStep(w: World, l: Label)
    requires LogsOk(w) && Enabled(w, l) && IdOk(w.ledger)
    ensures Next(w, l).ledger.epochId == EpochAfter(w.ledger.epochId, if StartsHere(w, l) then 1 else 0)
    ensures IdOk(Next(w, l).ledger)
  {
    match l
    case Prepare(minSeq, _, _, _) => OpenEpochId(w.ledger, minSeq, w.run);
    case Consider(page, c, others, configSeen) => OutcomeKeeps(w, w.pages[page], c, others, configSeen);
    case Finish(i, sortResult) => FinishKeepsId(w, i, sortResult);
    case _ =>
  }

  lemma FinishKeepsId(w: World, i: nat, sortResult: bool)
    requires LogsOk(w) && w.ctx.Some? && i < |w.held|
    ensures AfterFinish(w, i, sortResult).ledger.epochId == w.ledger.epochId
  {
  }

  lemma OpenEpochId(l: Ledger, minSeq: nat, run: nat)
    requires IdOk(l)
    ensures
      var l' := OpenEpoch(l, minSeq, run);
      IdOk(l') && l'.epochId == EpochAfter(l.epochId, if StartsEpoch(l, minSeq, run) then 1 else 0)
  {
    assert EpochAfter(l.epochId, 1) == Tagged(NextId(EpochAfter(l.epochId, 0)));
    if l.epochId > 0 {
      TagAdvances(l.epochId);
    }
  }

  lemma {:induction false} EpochAfterAdds(id: nat, a: nat, b: nat)
    ensures EpochAfter(EpochAfter(id, a), b) == EpochAfter(id, a + b)
  {
    if b > 0 {
      EpochAfterAdds(id, a, b - 1);
    }
  }

  lemma {:induction false} IdsInOrder(w: World, ls: seq<Label>)
    requires LogsOk(w) && Legal(w, ls) && IdOk(w.ledger)
    ensures Run(w, ls).ledger.epochId == EpochAfter(w.ledger.epochId, Started(w, ls))
    ensures IdOk(Run(w, ls).ledger)
    decreases |ls|
  {
    if |ls| > 0 {
      IdStep(w, ls[0]);
      IdsInOrder(Next(w, ls[0]), ls[1..]);
      EpochAfterAdds(w.ledger.epochId, if StartsHere(w, ls[0]) then 1 else 0, Started(Next(w, ls[0]), ls[1..]));
    }
  }

  /** In every run the k-th epoch of the list carries the k-th id; so its tag stays within the epoch, is never
      zero, and comes back exactly after a multiple of 4095 further epochs. */
  lemma TagsOverRuns(pages: nat, config: Config, before: seq<Label>, after: seq<Label>)
    requires Legal(Init(pages, config), before) && Legal(Run(Init(pages, config), before), after)
    requires Started(Init(pages, config), before) > 0
    ensures
      var s := Run(Init(pages, config), before);
      var s' := Run(s, after);
      var started := Started(s, after);
      && s.ledger.epochId == EpochAfter(0, Started(Init(pages, config), before))
      && s'.ledger.epochId == EpochAfter(s.ledger.epochId, started)
      && (started == 0 ==> s'.ledger.epochId == s.ledger.epochId)
      && 1 <= Tag(s.ledger.epochId) <= TAGS
      && (Tag(s'.ledger.epochId) == Tag(s.ledger.epochId) <==> started % TAGS == 0)
  {
    var s := Run(Init(pages, config), before);
    IdsInOrder(Init(pages, config), before);
    IdsInOrder(s, after);
    StartedIdPositive(Started(Init(pages, config), before));
    TagsDistinct(s.ledger.epochId, Started(s, after));
  }

  lemma StartedIdPositive(n: nat)
    requires n > 0
    ensures EpochAfter(0, n) > 0
  {
  }
}
