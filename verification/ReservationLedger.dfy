/** Reclaim batches over one (lruvec, type): epochs, budgets, reservations and refunds.
    The classes hold the counters the kernel updates in place, each method proved against a function of
    their old values. */
module ReservationLedger {
  import opened Common
  import opened PackedWords
  import opened PageMetadata
  import opened TierDecision

  const ID_LIMIT: nat := 0x1_0000_0000_0000_0000
  const NO_PROGRESS_LIMIT: nat := 3

  // ----- epochs -----

  /** Increment a 64-bit id, skipping zero. */
  function NextId(id: nat): nat {
    if (id + 1) % ID_LIMIT == 0 then 1 else (id + 1) % ID_LIMIT
  }

  function Tag(id: nat): nat {
    id % 0x1000
  }

  /** An id whose tag would be zero is passed over. */
  function Tagged(id: nat): nat {
    if Tag(id) == 0 then id + 1 else id
  }

  predicate StartsEpoch(l: Ledger, sourceSeq: nat, run: nat) {
    l.epochId == 0 || l.sourceSeq != sourceSeq || l.stateEpoch != run
  }

  function OpenEpoch(l: Ledger, sourceSeq: nat, run: nat): Ledger {
    if StartsEpoch(l, sourceSeq, run) then Ledger(Tagged(NextId(l.epochId)), sourceSeq, run, 0, 0, 0, 0)
    else l.(epochId := Tagged(l.epochId))
  }

  function NewContext(l: Ledger, mode: Mode, run: nat, priority: int, nrToReclaim: nat, nrReclaimed: nat): Ctx {
    var noProgress := l.noProgressRounds >= NO_PROGRESS_LIMIT;
    Ctx(mode, run, Tag(l.epochId), priority <= SEVERE_PRIORITY, noProgress,
        PressureLevel(priority, noProgress, nrToReclaim, nrReclaimed), 0, 0, 0)
  }

  const CLOSED: Ctx := Ctx(Off, 0, 0, false, false, Low, 0, 0, 0)

  /** An epoch restarts, with a new id and nothing used, exactly for the first batch of a list and when the
      generation or the activation is another one than the ledger last saw. */
  lemma EpochRestartsIff(l: Ledger, sourceSeq: nat, run: nat)
    requires l.epochId < ID_LIMIT && (l.epochId == 0 || 1 <= Tag(l.epochId))
    ensures
      var l' := OpenEpoch(l, sourceSeq, run);
      && l'.sourceSeq == sourceSeq && l'.stateEpoch == run && 1 <= Tag(l'.epochId)
      && (l'.epochId == l.epochId <==> l.epochId > 0 && l.sourceSeq == sourceSeq && l.stateEpoch == run)
      && (l'.epochId == l.epochId ==> l' == l)
      && (l'.epochId != l.epochId ==>
            l'.candidatePages == l'.upgradePages == l'.downgradePages == l'.noProgressRounds == 0)
  {
    if StartsEpoch(l, sourceSeq, run) {
      NextIdMoves(l.epochId);
    }
  }

  lemma NextIdMoves(id: nat)
    requires id < ID_LIMIT && (id == 0 || 1 <= Tag(id))
    ensures Tagged(NextId(id)) != id && Tag(Tagged(NextId(id))) >= 1
  {
  }

  /** The pressure a batch works under: severe up to priority 2, no progress after three fruitless rounds,
      critical in either case; high up to 4, medium up to 8 or while the goal is not met, low otherwise. */
  lemma ContextPressure(l: Ledger, mode: Mode, run: nat, priority: int, nrToReclaim: nat, nrReclaimed: nat)
    ensures
      var ctx := NewContext(l, mode, run, priority, nrToReclaim, nrReclaimed);
      && ctx.mode == mode && ctx.run == run && ctx.epochTag == l.epochId % 4096
      && (ctx.severe <==> priority < 3) && (ctx.noProgress <==> l.noProgressRounds > 2)
      && (ctx.level.Critical? <==> ctx.severe || ctx.noProgress)
      && (ctx.level.High? <==> !ctx.noProgress && 3 <= priority <= 4)
      && (ctx.level.Low? <==> !ctx.noProgress && priority >= 9 && nrReclaimed >= nrToReclaim)
      && ctx.candidatePages == ctx.upgradePages == ctx.downgradePages == 0
  {
  }

  /** What a reclaim round reports back. */
  datatype Round = Round(batchRun: nat, isolated: nat, reclaimed: nat)

  function AfterRounds(l: Ledger, run: nat, rounds: seq<Round>): Ledger {
    if |rounds| == 0 then l
    else
      var r := rounds[|rounds| - 1];
      Progress(AfterRounds(l, run, rounds[..|rounds| - 1]), r.batchRun, run, r.isolated, r.reclaimed)
  }

  /** Rounds of activation `run` that isolated pages and reclaimed none, since the last one that reclaimed some;
      `before` counts the ones already known. */
  function Fruitless(before: nat, run: nat, rounds: seq<Round>): nat {
    if |rounds| == 0 then before
    else
      var r, earlier := rounds[|rounds| - 1], Fruitless(before, run, rounds[..|rounds| - 1]);
      if r.batchRun != run || r.isolated == 0 then earlier
      else if r.reclaimed > 0 then 0
      else earlier + 1
  }

  /** The ledger's no-progress count is exactly that, saturated, and the rounds touch nothing else. */
  lemma {:induction false} ProgressCountsFruitless(l: Ledger, run: nat, rounds: seq<Round>)
    requires l.stateEpoch == run > 0 && l.noProgressRounds <= U16_MAX
    ensures AfterRounds(l, run, rounds) ==
            l.(noProgressRounds := Min(Fruitless(l.noProgressRounds, run, rounds), U16_MAX))
  {
    if |rounds| > 0 {
      ProgressCountsFruitless(l, run, rounds[..|rounds| - 1]);
    }
  }

  /** Rounds of a batch that opened in another activation than the ledger's change nothing. */
  lemma StaleRoundIgnored(l: Ledger, run: nat, r: Round)
    requires r.batchRun == 0 || r.batchRun != run || l.stateEpoch != run
    ensures Progress(l, r.batchRun, run, r.isolated, r.reclaimed) == l
  {
  }

  // ----- commit and refund -----

  predicate Committed(d: Decision, sortResult: bool) {
    && d.reserved
    && ((d.direction.Upgrade? && sortResult && d.action.PredictiveUpgrade?)
        || (d.direction.Downgrade? && d.action.PredictiveDowngrade?))
  }

  function ActionCode(a: Action): nat {
    match a
    case KeepReclaim => 0
    case PredictiveUpgrade => 1
    case KeepProtect => 2
    case PredictiveDowngrade => 3
    case SpecialProtect => 4
  }

  /** What the report of an outcome reads off a page: nothing at 0, otherwise the action numbered one less. */
  function ReadAction(pending: nat): Option<Action> {
    match pending
    case 1 => Some(KeepReclaim)
    case 2 => Some(PredictiveUpgrade)
    case 3 => Some(KeepProtect)
    case 4 => Some(PredictiveDowngrade)
    case 5 => Some(SpecialProtect)
    case _ => None
  }

  /** The stored code stands for the action, within its three bits, and never reads as none. */
  lemma ActionReadsBack(a: Action)
    ensures ReadAction(ActionCode(a) + 1) == Some(a) && 1 <= ActionCode(a) + 1 < 8
  {
  }

  datatype Closing = Closing(ledger: Ledger, ctx: Ctx, decision: Decision, faulted: bool)

  predicate Refundable(ledger: Ledger, ctx: Ctx, d: Decision) {
    ctx.Used(d.direction) >= d.pages && ledger.Used(d.direction) >= d.pages
  }

  /** What finishing does to the counters and to the decision, which no longer holds a reservation once it is
      cancelled; `released` is whether the page accepted the release. */
  function Close(ledger: Ledger, ctx: Ctx, d: Decision, sortResult: bool, released: bool): Closing {
    if !d.reserved || Committed(d, sortResult) then Closing(ledger, ctx, d, false)
    else if !released || !Refundable(ledger, ctx, d) then Closing(ledger, ctx, d.(reserved := false), true)
    else
      Closing(ledger.WithUsed(d.direction, ledger.Used(d.direction) - d.pages),
              ctx.WithUsed(d.direction, ctx.Used(d.direction) - d.pages), d.(reserved := false), false)
  }

  /** A cancelled decision is refunded once: closing it again, whatever is reported then, changes nothing. */
  lemma CancelledOnce(ledger: Ledger, ctx: Ctx, d: Decision, sortResult: bool, released: bool,
                      ledger': Ledger, ctx': Ctx, sortResult': bool, released': bool)
    requires d.reserved && !Committed(d, sortResult)
    ensures
      var cancelled := Close(ledger, ctx, d, sortResult, released).decision;
      !cancelled.reserved
      && Close(ledger', ctx', cancelled, sortResult', released') == Closing(ledger', ctx', cancelled, false)
  {
  }

  function Progress(l: Ledger, batchRun: nat, run: nat, isolated: nat, reclaimed: nat): Ledger {
    if batchRun == 0 || batchRun != run || l.stateEpoch != batchRun || isolated == 0 then l
    else if reclaimed > 0 then l.(noProgressRounds := 0)
    else l.(noProgressRounds := Min(l.noProgressRounds + 1, U16_MAX))
  }

  /** The reservations that decisions make: an upgrade reserves in its direction, a downgrade in its own. */
  predicate Reservation(d: Decision) {
    d.reserved && if d.direction.Upgrade? then d.action.PredictiveUpgrade? else d.action.PredictiveDowngrade?
  }

  lemma DecideReserves(ledger: Ledger, ctx: Ctx, faulted: bool, config: Option<Config>, ev: Evaluation,
                       claim: ClaimResult, c: Candidate)
    ensures
      var d := Decide(ledger, ctx, faulted, config, ev, claim, c).decision;
      d.pages == c.pages && (d.reserved ==> Reservation(d))
  {
    ReservationCharges(ledger, ctx, faulted, config, ev, claim, c);
  }

  /** Finishing keeps a reservation, with counters and page as they are, exactly when it is a downgrade or the
      page was sorted; an upgrade left unsorted is taken back from both upgrade counters. */
  lemma KeptIff(ledger: Ledger, ctx: Ctx, d: Decision, sortResult: bool, released: bool)
    requires Reservation(d)
    ensures
      var closing := Close(ledger, ctx, d, sortResult, released);
      && (Committed(d, sortResult) <==> d.direction.Downgrade? || sortResult)
      && (closing.decision.reserved <==> d.direction.Downgrade? || sortResult)
      && (closing.decision.reserved ==> closing == Closing(ledger, ctx, d, false))
      && (!closing.decision.reserved && released && Refundable(ledger, ctx, d) ==>
            && closing.ledger == ledger.(upgradePages := ledger.upgradePages - d.pages)
            && closing.ctx == ctx.(upgradePages := ctx.upgradePages - d.pages) && !closing.faulted)
  {
  }

  // ----- the counters updated in place -----

  class LruvecLedger {
    var epochId: nat
    var sourceSeq: nat
    var stateEpoch: nat
    var candidatePages: nat
    var upgradePages: nat
    var downgradePages: nat
    var noProgressRounds: nat

    function View(): Ledger
      reads this
    {
      Ledger(epochId, sourceSeq, stateEpoch, candidatePages, upgradePages, downgradePages, noProgressRounds)
    }

    constructor ()
      ensures View() == Ledger(0, 0, 0, 0, 0, 0, 0)
    {
      epochId, sourceSeq, stateEpoch, candidatePages := 0, 0, 0, 0;
      upgradePages, downgradePages, noProgressRounds := 0, 0, 0;
    }

    /** Start a new epoch when the generation or the activation moved on, and settle on a nonzero tag. */
    method OpenBatch(minSeq: nat, activation: nat)
      modifies this
      ensures View() == old(OpenEpoch(View(), minSeq, activation))
    {
      if epochId == 0 || sourceSeq != minSeq || stateEpoch != activation {
        sourceSeq := minSeq;
        stateEpoch := activation;
        candidatePages := 0;
        upgradePages := 0;
        downgradePages := 0;
        noProgressRounds := 0;
        epochId := NextId(epochId);
      }
      if epochId % 0x1000 == 0 {
        epochId := epochId + 1;
      }
    }

    method Feedback(batchRun: nat, run: nat, isolated: nat, reclaimed: nat)
      requires noProgressRounds <= U16_MAX
      modifies this`noProgressRounds
      ensures View() == old(Progress(View(), batchRun, run, isolated, reclaimed))
    {
      if batchRun == 0 || batchRun != run || stateEpoch != batchRun || isolated == 0 {
        return;
      }
      if reclaimed > 0 {
        noProgressRounds := 0;
      } else if noProgressRounds < U16_MAX {
        noProgressRounds := noProgressRounds + 1;
      }
    }
  }

  class ScanContext {
    var enabled: bool
    var mode: Mode
    var run: nat
    var epochTag: nat
    var severe: bool
    var noProgress: bool
    var level: Level
    var candidatePages: nat
    var upgradePages: nat
    var downgradePages: nat

    function View(): Ctx
      reads this
    {
      Ctx(mode, run, epochTag, severe, noProgress, level, candidatePages, upgradePages, downgradePages)
    }

    constructor ()
      ensures !enabled && View() == CLOSED
    {
      enabled, mode, run, epochTag := false, Off, 0, 0;
      severe, noProgress, level := false, false, Low;
      candidatePages, upgradePages, downgradePages := 0, 0, 0;
    }

    method Clear()
      modifies this
      ensures !enabled && View() == CLOSED
    {
      enabled, mode, run, epochTag := false, Off, 0, 0;
      severe, noProgress, level := false, false, Low;
      candidatePages, upgradePages, downgradePages := 0, 0, 0;
    }

    /** Open a batch. The batch stays disabled when tracking is off or faulted or the config read failed. */
    method Prepare(ledger: LruvecLedger, current: Mode, faulted: bool, configRead: bool, activation: nat,
                   minSeq: nat, priority: int, nrToReclaim: nat, nrReclaimed: nat)
      modifies this, ledger
      ensures enabled <==> !current.Off? && !faulted && configRead
      ensures enabled ==>
                && ledger.View() == OpenEpoch(old(ledger.View()), minSeq, activation)
                && View() == NewContext(ledger.View(), current, activation, priority, nrToReclaim, nrReclaimed)
      ensures !enabled ==> ledger.View() == old(ledger.View()) && View() == CLOSED.(mode := current)
    {
      Clear();
      mode := current;
      if current.Off? || faulted || !configRead {
        return;
      }
      enabled := true;
      run := activation;
      severe := priority <= SEVERE_PRIORITY;
      ledger.OpenBatch(minSeq, activation);
      epochTag := ledger.epochId % 0x1000;
      noProgress := ledger.noProgressRounds >= NO_PROGRESS_LIMIT;
      level := PressureLevel(priority, noProgress, nrToReclaim, nrReclaimed);
    }

    /** Decide one candidate: evaluate the page, propose, check budgets, claim, charge. */
    method DecideCandidate(ledger: LruvecLedger, page: ReusePage, faulted: bool, config: Option<Config>, c: Candidate)
      returns (d: Decision)
      requires page.Valid() && c.now < WORD_LIMIT && epochTag < 4096
      modifies this`candidatePages, this`upgradePages, this`downgradePages
      modifies ledger`candidatePages, ledger`upgradePages, ledger`downgradePages, page
      ensures page.Valid()
      ensures
        var touched := !faulted && config.Some?;
        var p := old(page.View());
        var ev := if touched then EvaluationOf(p, c.now, c.lruGen, run) else NOTHING;
        var p1 := if touched then Evaluated(p, c.lruGen) else p;
        var (ledger1, ctx1) := CountCandidate(old(ledger.View()), old(View()), c.pages);
        var proposal := Propose(ctx1, faulted, config, ev, c);
        var dir := DirectionOf(proposal.action);
        var claim := ClaimOutcome(p1, dir, epochTag, ev.sequence, run);
        && Outcome(ledger.View(), View(), d) == Decide(old(ledger.View()), old(View()), faulted, config, ev, claim, c)
        && page.View() == if WantsClaim(ledger1, ctx1, config, proposal, c.pages)
                          then AfterClaim(p1, dir, epochTag, ev.sequence, run) else p1
    {
      var ev;
      ev, d := CountAndPropose(ledger, page, faulted, config, c);
      d := d.(sequence := ev.sequence);
      if Predictive(d.action) && config.Some? {
        d := ChargeProposal(ledger, page, config.value, d, ev.sequence, c.pages);
      }
      d := d.(pages := c.pages, actualProtect := ActualProtect(mode, d));
    }

    method CountAndPropose(ledger: LruvecLedger, page: ReusePage, faulted: bool, config: Option<Config>, c: Candidate)
      returns (ev: Evaluation, d: Decision)
      requires page.Valid() && c.now < WORD_LIMIT
      modifies this`candidatePages, ledger`candidatePages, page
      ensures page.Valid()
      ensures ev == if !faulted && config.Some? then old(EvaluationOf(page.View(), c.now, c.lruGen, run))
                    else NOTHING
      ensures page.View() == if !faulted && config.Some? then old(Evaluated(page.View(), c.lruGen))
                             else old(page.View())
      ensures (ledger.View(), View()) == old(CountCandidate(ledger.View(), View(), c.pages))
      ensures d == Propose(View(), faulted, config, ev, c)
    {
      candidatePages := SaturatingAdd(candidatePages, c.pages);
      if !mode.Shadow? {
        ledger.candidatePages := SaturatingAdd(ledger.candidatePages, c.pages);
      }
      ev := NOTHING;
      if !faulted && config.Some? {
        ev := page.CandidateFeatures(c.now, c.lruGen, run);
      }
      d := Propose(View(), faulted, config, ev, c);
    }

    /** The budget, claim and charge part of a predictive proposal. */
    method ChargeProposal(ledger: LruvecLedger, page: ReusePage, config: Config, proposal: Decision,
                          expected: nat, pages: nat)
      returns (d: Decision)
      requires page.Valid() && epochTag < 4096 && Predictive(proposal.action)
      modifies this`upgradePages, this`downgradePages, ledger`upgradePages, ledger`downgradePages, page
      ensures page.Valid()
      ensures
        var dir := DirectionOf(proposal.action);
        var p := old(page.View());
        var claim := ClaimOutcome(p, dir, epochTag, expected, run);
        && Outcome(ledger.View(), View(), d) ==
           Settle(old(ledger.View()), old(View()), Some(config), proposal, claim, pages)
        && page.View() == if WantsClaim(old(ledger.View()), old(View()), Some(config), proposal, pages)
                          then AfterClaim(p, dir, epochTag, expected, run) else p
    {
      var dir := DirectionOf(proposal.action);
      var applies := Applies(mode, proposal.action);
      if !Allowed(ledger.View(), View(), config, proposal.action, pages) {
        return NativeFallback(proposal, if dir.Upgrade? then UpgradeBudget else DowngradeBudget);
      }
      d := proposal;
      if applies {
        var claim := page.ClaimEpoch(dir, epochTag, expected, run);
        if !claim.Claimed? {
          return NativeFallback(proposal, ClaimBypass(claim, dir));
        }
        d := d.(reserved := true, direction := dir, sequence := claim.sequence);
      }
      Charge(ledger, dir, pages, applies);
    }

    /** The batch pays for every allowed proposal, the epoch for those that apply. */
    method Charge(ledger: LruvecLedger, dir: Direction, pages: nat, applies: bool)
      modifies this`upgradePages, this`downgradePages, ledger`upgradePages, ledger`downgradePages
      ensures View() == old(View()).WithUsed(dir, old(View()).Used(dir) + pages)
      ensures ledger.View() == if applies then old(ledger.View()).WithUsed(dir, old(ledger.View()).Used(dir) + pages)
                               else old(ledger.View())
    {
      if dir.Upgrade? {
        upgradePages := upgradePages + pages;
        if applies {
          ledger.upgradePages := ledger.upgradePages + pages;
        }
      } else {
        downgradePages := downgradePages + pages;
        if applies {
          ledger.downgradePages := ledger.downgradePages + pages;
        }
      }
    }

    /** Close a decision, then note on an isolated page which action was proposed for it. */
    method Finish(ledger: LruvecLedger, page: ReusePage, d: Decision, sortResult: bool, isolateResult: bool)
      returns (d': Decision, faulted: bool)
      requires page.Valid()
      modifies this`upgradePages, this`downgradePages, ledger`upgradePages, ledger`downgradePages, page
      ensures page.Valid()
      ensures
        var released := d.reserved && !Committed(d, sortResult);
        var p := old(page.View());
        var p1 := if released then AfterRelease(p, d.direction, epochTag, run) else p;
        var closing := Close(old(ledger.View()), old(View()), d, sortResult, !Refused(p));
        && ledger.View() == closing.ledger && View() == closing.ctx && d' == closing.decision
        && page.View() == (if isolateResult then WithAction(p1, ActionCode(d.action) + 1) else p1)
        && faulted == (closing.faulted || (isolateResult && Refused(p1)))
        && (isolateResult && !Refused(p1) ==> ReadAction(page.View().state.action) == Some(d.action))
    {
      ActionReadsBack(d.action);
      d', faulted := CloseReservation(ledger, page, d, sortResult);
      if isolateResult {
        var ok := page.SetAction(ActionCode(d.action) + 1);
        faulted := faulted || !ok;
      }
    }

    /** Close a decision: keep the reservation when the move took place, otherwise release and refund. */
    method CloseReservation(ledger: LruvecLedger, page: ReusePage, d: Decision, sortResult: bool)
      returns (d': Decision, faulted: bool)
      requires page.Valid()
      modifies this`upgradePages, this`downgradePages, ledger`upgradePages, ledger`downgradePages, page
      ensures page.Valid()
      ensures Closing(ledger.View(), View(), d', faulted) ==
              Close(old(ledger.View()), old(View()), d, sortResult, !Refused(old(page.View())))
      ensures page.View() == if d.reserved && !Committed(d, sortResult)
                             then AfterRelease(old(page.View()), d.direction, epochTag, run) else old(page.View())
    {
      if !d.reserved || Committed(d, sortResult) {
        return d, false;
      }
      d' := d.(reserved := false);
      var released := page.ReleaseEpoch(d.direction, epochTag, run);
      if !released {
        return d', true;
      }
      var refunded := Refund(ledger, d.direction, d.pages);
      faulted := !refunded;
    }

    /** Take the pages back from both counters of the direction, unless one of them holds too few. */
    method Refund(ledger: LruvecLedger, dir: Direction, pages: nat) returns (ok: bool)
      modifies this`upgradePages, this`downgradePages, ledger`upgradePages, ledger`downgradePages
      ensures ok <==> old(View()).Used(dir) >= pages && old(ledger.View()).Used(dir) >= pages
      ensures ok ==>
                && View() == old(View()).WithUsed(dir, old(View()).Used(dir) - pages)
                && ledger.View() == old(ledger.View()).WithUsed(dir, old(ledger.View()).Used(dir) - pages)
      ensures !ok ==> View() == old(View()) && ledger.View() == old(ledger.View())
    {
      if dir.Upgrade? {
        if upgradePages < pages || ledger.upgradePages < pages {
          return false;
        }
        upgradePages := upgradePages - pages;
        ledger.upgradePages := ledger.upgradePages - pages;
      } else {
        if downgradePages < pages || ledger.downgradePages < pages {
          return false;
        }
        downgradePages := downgradePages - pages;
        ledger.downgradePages := ledger.downgradePages - pages;
      }
      ok := true;
    }
  }
}
