/** The planner composed with the marketplace contract: a won job is driven from assignment to payout.
    The contract is a small model of the transitions and guards the lifecycle documentation gives. An
    emitted write is in flight until it lands in some later block or is lost; meanwhile the driver keeps
    planning, on fresh or stale reads, and requester and network may interfere at any point. */
module JobRun {
  import opened Prelude
  import opened Marketplace
  import opened Proof
  import opened Lifecycle
  import K = ContractCalls

  /** One job on chain, and what is under way for it. Block numbers are 64-bit. The last three fields are
      what is left of the bad luck a run may have: ticks that bring nothing new, requests that are lost,
      disputes that are resolved. */
  datatype World = World(
    job: Job,
    tier: Option<Tier>,
    head: u64,
    committed: bool,
    commitBlock: u64,
    verifiedAt: u64,
    disputeResolved: bool,
    artifacts: Option<Artifacts>,
    inFlight: set<WriteIntent>,
    log: seq<WriteIntent>,
    lag: nat,
    drops: nat,
    resolutions: nat)

  datatype Setup = Setup(me: Address, marketplace: Address, chainId: u64)

  /** What the driver reads at the current head. */
  function View(c: Setup, w: World): PlanInput {
    PlanInput(w.job, c.me, w.head, c.marketplace, c.chainId, w.committed, w.artifacts,
              ChainGates(w.tier, if w.committed then w.commitBlock else 0, w.verifiedAt, w.disputeResolved))
  }

  // ---- the contract (assumed) ----

  /** The contract accepts the write in this block. */
  predicate Guard(intent: WriteIntent, w: World, block: u64) {
    match intent
    case IntentStart => w.job.state == Assigned
    case IntentCommit => (w.job.state == Assigned || w.job.state == Executing) && !w.committed
    case IntentResult =>
      w.job.state == Executing && w.committed && w.commitBlock < block <= w.job.executionDeadline
    case IntentComplete =>
      w.job.state == Verifying && w.verifiedAt != 0
      && (w.disputeResolved || w.verifiedAt + 100 <= block)
    case _ => false
  }

  function Applied(intent: WriteIntent, w: World, block: u64): World {
    var w := w.(head := block, log := w.log + [intent]);
    match intent
    case IntentStart => w.(job := w.job.(state := Executing))
    case IntentCommit => w.(committed := true, commitBlock := block)
    case IntentResult => w.(job := w.job.(state := Verifying), verifiedAt := block)
    case _ => w.(job := w.job.(state := Completed))
  }

  /** Landing in a block: applied if the guard holds there, reverted otherwise. */
  function Landed(intent: WriteIntent, w: World, block: u64): World {
    var rest := w.(inFlight := w.inFlight - {intent});
    if Guard(intent, w, block) then Applied(intent, rest, block) else rest.(head := block)
  }

  // ---- the steps of a run ----

  /** A tick on a fresh read; later blocks may arrive. A write that is already in flight is emitted again
      and deduplicated, which brings nothing new. */
  ghost predicate Ticks(c: Setup, a: World, b: World) {
    && a.head <= b.head
    && match Plan(View(c, a))
       case Sign(req) =>
         if req.intent in a.inFlight then a.lag > 0 && b == a.(head := b.head, lag := a.lag - 1)
         else b == a.(head := b.head, inFlight := a.inFlight + {req.intent})
       case RunInference => b.artifacts.Some? && b == a.(head := b.head, artifacts := b.artifacts)
       case Wait(_) => b.head > a.head && b == a.(head := b.head)
       case _ => false
  }

  /** Writes some earlier state of the job could have called for. */
  function Earlier(w: World): set<WriteIntent> {
    {IntentStart} + (if w.artifacts.Some? then {IntentCommit} else {})
    + (if w.committed then {IntentResult} else {}) + (if w.verifiedAt != 0 then {IntentComplete} else {})
  }

  /** A tick on a stale or incomplete read: a write that is out of date, or premature, or nothing. */
  ghost predicate TicksStale(a: World, b: World) {
    && a.lag > 0 && a.head <= b.head
    && a.inFlight <= b.inFlight <= a.inFlight + Earlier(a) && |b.inFlight| <= |a.inFlight| + 1
    && b == a.(head := b.head, lag := a.lag - 1, inFlight := b.inFlight)
  }

  ghost predicate Lands(a: World, b: World) {
    exists intent :: intent in a.inFlight && a.head < b.head && b == Landed(intent, a, b.head)
  }

  ghost predicate Loses(a: World, b: World) {
    exists intent :: intent in a.inFlight && a.drops > 0
                     && b == a.(inFlight := a.inFlight - {intent}, drops := a.drops - 1)
  }

  /** Anyone may time out an overdue job; the requester may dispute a verified one, also while the final
      write is in flight; a dispute is resolved for the provider or against it. */
  ghost predicate Interferes(a: World, b: World) {
    || (b == a.(job := a.job.(state := Timeout))
        && (a.job.state == Assigned || a.job.state == Executing) && a.head > a.job.executionDeadline)
    || (b == a.(job := a.job.(state := Disputed)) && a.job.state == Verifying)
    || (b == a.(job := a.job.(state := Failed)) && a.job.state == Disputed)
    || (a.resolutions > 0 && a.job.state == Disputed
        && b == a.(job := a.job.(state := Verifying), disputeResolved := true, resolutions := a.resolutions - 1))
  }

  ghost predicate Moves(c: Setup, a: World, b: World) {
    Ticks(c, a, b) || TicksStale(a, b) || Lands(a, b) || Loses(a, b) || Interferes(a, b)
  }

  function Budget(w: World): nat {
    w.lag + w.drops + w.resolutions
  }

  /** A step that needs neither bad luck nor interference. */
  ghost predicate Proceeds(c: Setup, a: World, b: World) {
    (Ticks(c, a, b) || Lands(a, b)) && Budget(b) == Budget(a)
  }

  ghost predicate Start(c: Setup, w: World) {
    && w.job.state == Assigned && w.job.assignedProvider == c.me
    && !w.committed && w.verifiedAt == 0 && w.artifacts.None? && w.log == [] && !w.disputeResolved
    && w.inFlight == {}
  }

  ghost predicate IsRun(c: Setup, run: seq<World>) {
    && |run| > 0 && Start(c, run[0])
    && forall i :: 0 <= i < |run| - 1 ==> Moves(c, run[i], run[i + 1])
  }

  // ---- invariant: the landed writes are the protocol's, in its order ----

  const ORDER: seq<WriteIntent> := [IntentStart, IntentCommit, IntentResult, IntentComplete]

  predicate Consistent(c: Setup, w: World) {
    && w.job.assignedProvider == c.me
    && w.inFlight <= Earlier(w)
    && (w.committed ==> w.artifacts.Some? && 0 < w.commitBlock <= w.head)
    && (w.verifiedAt != 0 ==> w.verifiedAt <= w.head && w.committed)
    && (w.artifacts.Some? ==> w.job.state != Assigned)
    && (match w.job.state
        case Assigned => w.log == [] && !w.committed
        case Executing => w.log == (if w.committed then ORDER[..2] else ORDER[..1]) && w.verifiedAt == 0
        case Verifying => w.log == ORDER[..3] && w.verifiedAt != 0
        case Completed => w.log == ORDER
        case Timeout => w.log <= ORDER[..2]
        case Disputed => w.log == ORDER[..3] && w.verifiedAt != 0
        case Failed => w.log == ORDER[..3]
        case _ => false)
  }

  /** What is left when the driver has given up: only the chain can still move the job. */
  function Settling(s: JobState): nat {
    match s
    case Assigned => 4
    case Executing => 3
    case Verifying => 2
    case Disputed => 1
    case _ => 0
  }

  /** The planner's choice without the request around it. */
  datatype Next = Write(intent: WriteIntent) | Infer | Hold | Finished | GiveUp

  function NextOf(c: Setup, w: World): Next {
    match w.job.state
    case Completed => Finished
    case Assigned => if Provable(c, w) then Write(IntentStart) else GiveUp
    case Executing =>
      if !Provable(c, w) then GiveUp
      else if w.artifacts.None? then Infer
      else if !w.committed then Write(IntentCommit)
      else if w.head > w.job.executionDeadline then GiveUp
      else if w.head <= w.commitBlock then Hold
      else Write(IntentResult)
    case Verifying =>
      if !Provable(c, w) then GiveUp
      else if !w.disputeResolved && w.head < w.verifiedAt + DISPUTE_WINDOW then Hold
      else Write(IntentComplete)
    case _ => GiveUp
  }

  predicate Provable(c: Setup, w: World) {
    EffectiveTier(View(c, w)) == Commitment
  }

  ghost predicate Chooses(a: Action, n: Next) {
    match a
    case Sign(req) => n == Write(req.intent)
    case RunInference => n == Infer
    case Wait(_) => n == Hold
    case Done => n == Finished
    case Abort(_) => n == GiveUp
    case Idle => false
  }

  lemma PlanChooses(c: Setup, w: World)
    requires Consistent(c, w)
    ensures Chooses(Plan(View(c, w)), NextOf(c, w))
  {
  }

  /** What is left of the protocol: the phase, inside a wait the blocks until it ends, and whether the
      planned write has yet to be emitted. */
  function Ahead(c: Setup, w: World): nat {
    match NextOf(c, w)
    case GiveUp => Settling(w.job.state)
    case Write(intent) => (if intent in w.inFlight then 0 else 2) + Phase(w)
    case _ => Phase(w)
  }

  function Phase(w: World): nat {
    match w.job.state
    case Assigned => 900
    case Executing =>
      if w.artifacts.None? then 800 else if !w.committed then 700 else if w.head <= w.commitBlock then 604 else 600
    case Verifying =>
      if !w.disputeResolved && w.verifiedAt + DISPUTE_WINDOW > w.head
      then 10 + 3 * (w.verifiedAt + DISPUTE_WINDOW - w.head) else 10
    case _ => 0
  }

  /** A bound on the steps left. */
  function Remaining(c: Setup, w: World): nat {
    1000 * Budget(w) + |w.inFlight| + Ahead(c, w)
  }

  /** Every write the planner emits is accepted in every later block, except that a result is accepted
      exactly up to the deadline. */
  lemma EmittedWritesStayAcceptable(c: Setup, w: World, req: SignatureRequest, block: u64)
    requires Consistent(c, w) && Plan(View(c, w)) == Sign(req) && block > w.head
    ensures Guard(req.intent, w, block) <==> (req.intent == IntentResult ==> block <= w.job.executionDeadline)
  {
  }

  /** Every request is for the marketplace; a result expires exactly with the last block in which the
      contract can still accept it, a completion never, and the other two with the job's deadline. */
  lemma ExpiryMatchesGuard(c: Setup, w: World, req: SignatureRequest, block: u64)
    requires Consistent(c, w) && Plan(View(c, w)) == Sign(req) && block > w.head
    ensures req.to == c.marketplace && req.chainId == c.chainId && req.value == 0
    ensures req.intent == IntentResult ==> (Guard(IntentResult, w, block) <==> block <= req.expiresBlock)
    ensures req.intent == IntentComplete ==> Guard(IntentComplete, w, block) && req.expiresBlock == 0
    ensures req.intent == IntentStart || req.intent == IntentCommit ==> req.expiresBlock == w.job.executionDeadline
  {
  }

  /** What lands under a name is what a contract reads in the request's calldata. */
  lemma RequestIsItsName(c: Setup, w: World, req: SignatureRequest)
    requires Consistent(c, w) && Plan(View(c, w)) == Sign(req)
    ensures match req.intent
            case IntentStart => K.ReadStartExecution(req.calldata) == Some(w.job.id)
            case IntentCommit =>
              w.artifacts.Some?
              && K.ReadSubmitCommitment(req.calldata) == Some(K.CommitmentCall(w.job.id, w.artifacts.value.commitment))
            case IntentResult =>
              w.artifacts.Some?
              && K.ReadSubmitResult(req.calldata)
                 == Some(K.ResultCall(w.job.id, w.artifacts.value.outputHash, w.artifacts.value.proof))
            case IntentComplete => K.ReadCompleteJob(req.calldata) == Some(w.job.id)
            case _ => false
  {
    PlanChooses(c, w);
    match NextOf(c, w) {
      case Write(IntentCommit) => K.CommitmentReads(w.job.id, w.artifacts.value.commitment);
      case Write(IntentResult) =>
        K.ResultReads(w.job.id, w.artifacts.value.outputHash, w.artifacts.value.proof);
      case _ => K.JobCallsRead(w.job.id);
    }
  }

  lemma AheadBounded(c: Setup, w: World)
    requires Consistent(c, w)
    ensures Ahead(c, w) <= 902
    ensures NextOf(c, w) != GiveUp ==> Ahead(c, w) <= Phase(w) + 2
    ensures w.job.state == Verifying ==> Ahead(c, w) <= 312
  {
  }

  lemma LessAhead(c: Setup, a: World, b: World)
    requires Budget(b) == Budget(a) && |b.inFlight| + Ahead(c, b) < |a.inFlight| + Ahead(c, a)
    ensures Remaining(c, b) < Remaining(c, a)
  {
  }

  /** A unit of bad luck pays for whatever it undoes. */
  lemma LessBudget(c: Setup, a: World, b: World)
    requires Consistent(c, b) && Budget(b) + 1 == Budget(a) && |b.inFlight| <= |a.inFlight| + 1
    ensures Remaining(c, b) < Remaining(c, a)
  {
    AheadBounded(c, b);
  }

  lemma TickProgresses(c: Setup, a: World, b: World)
    requires Consistent(c, a) && Ticks(c, a, b)
    ensures Consistent(c, b) && Remaining(c, b) < Remaining(c, a)
  {
    PlanChooses(c, a);
    match NextOf(c, a) {
      case Write(intent) => EmissionProgresses(c, a, intent, b);
      case Infer => InferenceProgresses(c, a, b);
      case Hold => WaitProgresses(c, a, b);
    }
  }

  lemma InferenceProgresses(c: Setup, a: World, b: World)
    requires Consistent(c, a) && NextOf(c, a) == Infer && a.head <= b.head
    requires b.artifacts.Some? && b == a.(head := b.head, artifacts := b.artifacts)
    ensures Consistent(c, b) && Remaining(c, b) < Remaining(c, a)
  {
    LessAhead(c, a, b);
  }

  lemma EmissionProgresses(c: Setup, a: World, intent: WriteIntent, b: World)
    requires Consistent(c, a) && NextOf(c, a) == Write(intent) && a.head <= b.head
    requires if intent in a.inFlight then a.lag > 0 && b == a.(head := b.head, lag := a.lag - 1)
             else b == a.(head := b.head, inFlight := a.inFlight + {intent})
    ensures Consistent(c, b) && Remaining(c, b) < Remaining(c, a)
  {
    EmissionConsistent(c, a, intent, b);
    if intent in a.inFlight {
      LessBudget(c, a, b);
    } else {
      assert |b.inFlight| == |a.inFlight| + 1;
      EmissionAhead(c, a, intent, b);
      LessAhead(c, a, b);
    }
  }

  lemma EmissionConsistent(c: Setup, a: World, intent: WriteIntent, b: World)
    requires Consistent(c, a) && NextOf(c, a) == Write(intent) && a.head <= b.head
    requires b == a.(head := b.head, lag := b.lag, inFlight := b.inFlight)
    requires b.inFlight <= a.inFlight + {intent}
    ensures Consistent(c, b)
  {
  }

  lemma EmissionAhead(c: Setup, a: World, intent: WriteIntent, b: World)
    requires Consistent(c, a) && NextOf(c, a) == Write(intent) && a.head <= b.head
    requires intent !in a.inFlight && b == a.(head := b.head, inFlight := a.inFlight + {intent})
    ensures Ahead(c, b) + 2 <= Ahead(c, a)
  {
    LaterPhase(a, b);
    assert NextOf(c, b) == Write(intent) || NextOf(c, b) == GiveUp;
  }

  /** Time alone never moves the phase back. */
  lemma LaterPhase(a: World, b: World)
    requires a.head <= b.head && b == a.(head := b.head, inFlight := b.inFlight)
    ensures Phase(b) <= Phase(a)
  {
  }

  lemma WaitProgresses(c: Setup, a: World, b: World)
    requires Consistent(c, a) && NextOf(c, a) == Hold && b.head > a.head && b == a.(head := b.head)
    ensures Consistent(c, b) && Remaining(c, b) < Remaining(c, a)
  {
  }

  lemma StaleProgresses(c: Setup, a: World, b: World)
    requires Consistent(c, a) && TicksStale(a, b)
    ensures Consistent(c, b) && Remaining(c, b) < Remaining(c, a)
  {
    LessBudget(c, a, b);
  }

  lemma LossProgresses(c: Setup, a: World, b: World)
    requires Consistent(c, a) && Loses(a, b)
    ensures Consistent(c, b) && Remaining(c, b) < Remaining(c, a)
  {
    LessBudget(c, a, b);
  }

  lemma Prefixes()
    ensures ORDER[..1] == [] + [IntentStart] && ORDER[..2] == ORDER[..1] + [IntentCommit]
    ensures ORDER[..3] == ORDER[..2] + [IntentResult] && ORDER == ORDER[..3] + [IntentComplete]
    ensures [] <= ORDER[..2] && ORDER[..1] <= ORDER[..2]
  {
  }

  lemma InterferenceConsistent(c: Setup, a: World, b: World)
    requires Consistent(c, a) && Interferes(a, b)
    ensures Consistent(c, b)
  {
    Prefixes();
  }

  lemma InterferenceProgresses(c: Setup, a: World, b: World)
    requires Consistent(c, a) && Interferes(a, b)
    ensures Consistent(c, b) && Remaining(c, b) < Remaining(c, a)
  {
    InterferenceConsistent(c, a, b);
    if b.job.state == Verifying {
      LessBudget(c, a, b);
    } else {
      GivesUp(c, a, b);
      LessAhead(c, a, b);
    }
  }

  lemma GivesUp(c: Setup, a: World, b: World)
    requires Consistent(c, a) && b == a.(job := a.job.(state := b.job.state))
    requires b.job.state == Timeout || b.job.state == Failed || b.job.state == Disputed
    requires Settling(b.job.state) < Settling(a.job.state)
    ensures Ahead(c, b) < Ahead(c, a)
  {
    assert NextOf(c, b) == GiveUp;
  }

  lemma AcceptedProgresses(c: Setup, a: World, intent: WriteIntent, b: World)
    requires Consistent(c, a) && intent in a.inFlight && a.head < b.head && b == Landed(intent, a, b.head)
    requires Guard(intent, a, b.head)
    ensures Consistent(c, b) && Remaining(c, b) < Remaining(c, a)
  {
    AcceptedInOrder(c, a, intent, b);
    PhaseDrops(c, a, intent, b);
    LessAhead(c, a, b);
  }

  lemma AcceptedInOrder(c: Setup, a: World, intent: WriteIntent, b: World)
    requires Consistent(c, a) && intent in a.inFlight && a.head < b.head && b == Landed(intent, a, b.head)
    requires Guard(intent, a, b.head)
    ensures Consistent(c, b)
  {
    Prefixes();
  }

  lemma PhaseDrops(c: Setup, a: World, intent: WriteIntent, b: World)
    requires Consistent(c, a) && intent in a.inFlight && a.head < b.head && b == Landed(intent, a, b.head)
    requires Guard(intent, a, b.head)
    ensures Ahead(c, b) <= Ahead(c, a) && |b.inFlight| < |a.inFlight| && Budget(b) == Budget(a)
  {
    LandedUses(a, intent, b);
    match intent {
      case IntentStart => StartDrops(c, a, b);
      case IntentCommit => CommitDrops(c, a, b);
      case IntentResult => ResultDrops(c, a, b);
      case IntentComplete => assert b.job.state == Completed;
      case _ =>
    }
  }

  lemma LandedUses(a: World, intent: WriteIntent, b: World)
    requires intent in a.inFlight && b == Landed(intent, a, b.head)
    ensures |b.inFlight| == |a.inFlight| - 1 && Budget(b) == Budget(a)
  {
    assert b.inFlight == a.inFlight - {intent};
  }

  lemma StartDrops(c: Setup, a: World, b: World)
    requires Consistent(c, a) && a.job.state == Assigned && b == Landed(IntentStart, a, b.head)
    ensures Ahead(c, b) <= Ahead(c, a)
  {
    assert Provable(c, a) == Provable(c, b);
  }

  lemma CommitDrops(c: Setup, a: World, b: World)
    requires Consistent(c, a) && IntentCommit in a.inFlight && Guard(IntentCommit, a, b.head)
    requires b == Landed(IntentCommit, a, b.head)
    ensures Ahead(c, b) <= Ahead(c, a)
  {
    assert a.job.state == Executing && Provable(c, a) == Provable(c, b);
  }

  lemma ResultDrops(c: Setup, a: World, b: World)
    requires Consistent(c, a) && a.head < b.head && Guard(IntentResult, a, b.head)
    requires b == Landed(IntentResult, a, b.head)
    ensures Ahead(c, b) <= Ahead(c, a)
  {
    assert Provable(c, a) == Provable(c, b);
  }

  lemma RevertedProgresses(c: Setup, a: World, intent: WriteIntent, b: World)
    requires Consistent(c, a) && intent in a.inFlight && a.head < b.head && b == Landed(intent, a, b.head)
    requires !Guard(intent, a, b.head)
    ensures Consistent(c, b) && Remaining(c, b) < Remaining(c, a)
  {
    assert |b.inFlight| == |a.inFlight| - 1;
    RevertedAhead(c, a, intent, b);
    LessAhead(c, a, b);
  }

  /** A write that reverts was out of date, or a result past the deadline. */
  lemma RevertedAhead(c: Setup, a: World, intent: WriteIntent, b: World)
    requires Consistent(c, a) && intent in a.inFlight && a.head < b.head
    requires !Guard(intent, a, b.head) && b == a.(inFlight := a.inFlight - {intent}, head := b.head)
    ensures Ahead(c, b) <= Ahead(c, a)
  {
  }

  /** Every step keeps the order of the landed writes and brings the end nearer. */
  lemma StepProgresses(c: Setup, a: World, b: World)
    requires Consistent(c, a) && Moves(c, a, b)
    ensures Consistent(c, b) && Remaining(c, b) < Remaining(c, a)
  {
    if Ticks(c, a, b) {
      TickProgresses(c, a, b);
    } else if TicksStale(a, b) {
      StaleProgresses(c, a, b);
    } else if Loses(a, b) {
      LossProgresses(c, a, b);
    } else if Interferes(a, b) {
      InterferenceProgresses(c, a, b);
    } else {
      var intent :| intent in a.inFlight && a.head < b.head && b == Landed(intent, a, b.head);
      if Guard(intent, a, b.head) {
        AcceptedProgresses(c, a, intent, b);
      } else {
        RevertedProgresses(c, a, intent, b);
      }
    }
  }

  /** Until the driver is done or has aborted it proceeds by itself: a fresh tick, or the landing of the
      planned write. */
  lemma NeverStuck(c: Setup, w: World)
    requires Consistent(c, w) && w.head < U64_MAX
    requires !Plan(View(c, w)).Done? && !Plan(View(c, w)).Abort?
    ensures exists w' :: Proceeds(c, w, w')
  {
    PlanChooses(c, w);
    var plan, next := Plan(View(c, w)), w.(head := w.head + 1);
    match plan {
      case Sign(req) =>
        if req.intent in w.inFlight {
          var landed := Landed(req.intent, w, w.head + 1);
          assert Lands(w, landed);
          assert Proceeds(c, w, landed);
        } else {
          assert Proceeds(c, w, next.(inFlight := w.inFlight + {req.intent}));
        }
      case RunInference =>
        assert Proceeds(c, w, next.(artifacts := Some(Artifacts(Zeros(32), Zeros(32), []))));
      case Wait(_) =>
        assert Proceeds(c, w, next);
      case _ =>
    }
  }

  lemma {:induction false} RunInvariant(c: Setup, run: seq<World>, k: nat)
    requires IsRun(c, run) && k < |run|
    ensures Consistent(c, run[k]) && Remaining(c, run[k]) + k <= Remaining(c, run[0])
  {
    if k > 0 {
      RunInvariant(c, run, k - 1);
      assert Moves(c, run[k - 1], run[k - 1 + 1]);
      StepProgresses(c, run[k - 1], run[k]);
    }
  }

  lemma RunLength(c: Setup, run: seq<World>)
    requires IsRun(c, run)
    ensures |run| - 1 <= 1000 * Budget(run[0]) + 902
  {
    RunInvariant(c, run, |run| - 1);
    RunInvariant(c, run, 0);
    AheadBounded(c, run[0]);
  }

  lemma LogInOrder(c: Setup, w: World)
    requires Consistent(c, w)
    ensures w.log <= ORDER
  {
    Prefixes();
  }

  lemma StuckIsOver(c: Setup, w: World)
    requires Consistent(c, w) && w.head < U64_MAX && (forall w' :: !Proceeds(c, w, w'))
    ensures Plan(View(c, w)).Abort? || (w.job.state == Completed && w.log == ORDER)
  {
    if !Plan(View(c, w)).Done? && !Plan(View(c, w)).Abort? {
      NeverStuck(c, w);
    }
  }

  /** Every run from assignment ends, within 902 steps and 1000 more for each unit of bad luck; throughout,
      the landed writes are start, commit, result, complete, in that order; and a run that does not proceed
      by itself has either been paid out, with all four landed, or has aborted. */
  lemma JobReachesPayoutOrAborts(c: Setup, run: seq<World>)
    requires IsRun(c, run)
    ensures |run| - 1 <= 1000 * Budget(run[0]) + 902
    ensures forall k :: 0 <= k < |run| ==> run[k].log <= ORDER
    ensures var last := run[|run| - 1];
            last.head < U64_MAX && (forall w :: !Proceeds(c, last, w)) ==>
              || Plan(View(c, last)).Abort?
              || (last.job.state == Completed && last.log == ORDER)
  {
    RunLength(c, run);
    forall k | 0 <= k < |run|
      ensures run[k].log <= ORDER
    {
      RunInvariant(c, run, k);
      LogInOrder(c, run[k]);
    }
    var last := run[|run| - 1];
    RunInvariant(c, run, |run| - 1);
    if last.head < U64_MAX && forall w :: !Proceeds(c, last, w) {
      StuckIsOver(c, last);
    }
  }

  /** A run only aborts for a reason outside the driver: an unprovable tier, a passed deadline, a timeout,
      or a dispute, open or lost. */
  lemma AbortHasCause(c: Setup, run: seq<World>)
    requires IsRun(c, run) && Plan(View(c, run[|run| - 1])).Abort?
    ensures var last := run[|run| - 1];
            || EffectiveTier(View(c, last)) != Commitment
            || (last.job.state == Executing && last.head > last.job.executionDeadline)
            || last.job.state == Timeout || last.job.state == Disputed || last.job.state == Failed
  {
    RunInvariant(c, run, |run| - 1);
  }

  /** A dispute resolved for the provider is not the end: the payout is planned again at once, whatever is
      left of the dispute window. */
  lemma ResolvedDisputePaysOut(c: Setup, a: World, b: World)
    requires Consistent(c, a) && a.job.state == Disputed && Interferes(a, b) && b.job.state == Verifying
    requires EffectiveTier(View(c, b)) == Commitment
    ensures Plan(View(c, b)).Sign? && Plan(View(c, b)).request.intent == IntentComplete
    ensures forall block: u64 :: Guard(IntentComplete, b, block)
  {
  }
}
