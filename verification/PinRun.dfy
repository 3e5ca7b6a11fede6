/** The pin planner composed with a cooperative incentives contract: from any start it vests every
    round, claims everything and gets its bond back, in a bounded number of writes. */
module PinRun {
  import opened Prelude
  import opened Pinning
  import opened Abi

  datatype PinConfig = PinConfig(
    me: Address, cid: Word, sector: u128, incentives: Address, chainId: u64,
    quorum: u128, rounds: u128, perRound: u128, bond: u128, slotSeed: u128)

  datatype PinWorld = PinWorld(
    registered: bool, pin: PinState, slot: SlotState, unallocated: u128, head: u128)

  function View(c: PinConfig, w: PinWorld): PinInput {
    PinInput(c.me, c.cid, c.sector, w.registered, w.pin, w.slot, c.quorum, c.rounds, c.perRound, w.head,
             c.incentives, c.bond, c.chainId, c.slotSeed, w.unallocated)
  }

  // ---- the contract (assumed) ----

  /** The write a plan leads to. */
  ghost function IntentOf(a: PinAction): Option<PinIntent> {
    match a
    case Sign(req) => Some(req.intent)
    case Seal => Some(SealIntent)
    case Prove(_, _) => Some(PoStIntent)
    case _ => None
  }

  /** `b` is `a` after the write landed, at `b`'s head or before it. */
  ghost predicate Lands(c: PinConfig, intent: PinIntent, a: PinWorld, b: PinWorld) {
    && a.head <= b.head
    && match intent
       case RegisterIntent => b == a.(registered := true, head := b.head)
       case SealIntent =>
         && b.pin == PinState(Active, 0, 0, 0, c.bond, false, 0, b.pin.challengeNonce)
         && b.registered == a.registered
       case ChallengeIntent =>
         && b.pin == a.pin.(challengeOpen := true, challengeDeadline := b.pin.challengeDeadline,
                            challengeNonce := b.pin.challengeNonce)
         && b.registered == a.registered
       case PoStIntent =>
         && a.pin.round < U128_MAX && a.head <= a.pin.challengeDeadline
         && b.pin == a.pin.(round := a.pin.round + 1, challengeOpen := false,
                            status := if a.pin.round + 1 == c.rounds then Fulfilled else Active)
         && b.registered == a.registered
       case ClaimIntent =>
         b.pin == a.pin.(claimed := SatMul(a.pin.round, c.perRound)) && b.registered == a.registered
       case ReturnBondIntent => b.pin == a.pin.(bondHeld := 0) && b.registered == a.registered
  }

  /** The node is given time: while a challenge is open, it is looked at before the deadline. */
  ghost predicate InTime(w: PinWorld) {
    w.pin.challengeOpen ==> w.head <= w.pin.challengeDeadline
  }

  ghost predicate Tick(c: PinConfig, a: PinWorld, b: PinWorld) {
    && IntentOf(PlanPin(View(c, a))).Some?
    && Lands(c, IntentOf(PlanPin(View(c, a))).value, a, b)
    && InTime(b)
  }

  ghost predicate IsRun(c: PinConfig, run: seq<PinWorld>) {
    && |run| > 0 && Sound(c, run[0])
    && forall i :: 0 <= i < |run| - 1 ==> Tick(c, run[i], run[i + 1])
  }

  predicate Economy(c: PinConfig) {
    c.rounds >= 1 && c.rounds * c.perRound <= U128_MAX
  }

  /** Any state the contract can be in for this pin, short of slashed; before sealing the slot must be
      backed and below its quorum. */
  ghost predicate Sound(c: PinConfig, w: PinWorld) {
    && Economy(c) && InTime(w)
    && match w.pin.status
       case Unpinned =>
         && !w.pin.challengeOpen
         && (w.slot.funded || w.unallocated >= c.slotSeed) && w.slot.liveCount < c.quorum
       case Active => w.pin.round < c.rounds && w.pin.claimed <= w.pin.round * c.perRound
       case Fulfilled =>
         w.pin.round == c.rounds && w.pin.claimed <= c.rounds * c.perRound && !w.pin.challengeOpen
       case Slashed => false
  }

  /** When the prover and the signing surface answer, the daemon's tick requests exactly the write the run
      takes, and requests nothing exactly when the planner rests or holds. */
  lemma AnsweredTickTakesTheStep(c: PinConfig, w: PinWorld, o: PinOracle)
    requires Sealable(o) && o.postProof.Some? && o.signer == Accepted
    ensures var request, intent := RequestOf(View(c, w), o), IntentOf(PlanPin(View(c, w)));
            (request.Some? <==> intent.Some?) && (request.Some? ==> request.value.intent == intent.value)
  {
  }

  lemma VestedExact(c: PinConfig, round: u128)
    requires Economy(c) && round <= c.rounds
    ensures SatMul(round, c.perRound) == round * c.perRound
  {
    assert round * c.perRound <= c.rounds * c.perRound;
  }

  lemma NextVested(c: PinConfig, round: u128)
    requires Economy(c) && round < c.rounds
    ensures round * c.perRound <= (round + 1) * c.perRound
  {
  }

  /** Writes still needed, at most. */
  function Remaining(c: PinConfig, w: PinWorld): int {
    var unclaimed := if w.pin.claimed < w.pin.round * c.perRound then 1 else 0;
    match w.pin.status
    case Unpinned => 3 * c.rounds + 2 + (if w.registered then 0 else 1)
    case Active => 3 * (c.rounds - w.pin.round) + unclaimed - (if w.pin.challengeOpen then 1 else 0) + 1
    case Fulfilled => unclaimed + (if w.pin.bondHeld > 0 then 1 else 0)
    case Slashed => 0
  }

  lemma RemainingBounded(c: PinConfig, w: PinWorld)
    requires Sound(c, w)
    ensures 0 <= Remaining(c, w) <= 3 * c.rounds + 3
  {
    if w.pin.status == Active && w.pin.round == 0 {
      assert w.pin.round * c.perRound == 0;
    }
  }

  /** Each landed write keeps the state sound and brings the end one write nearer. */
  lemma TickProgresses(c: PinConfig, a: PinWorld, b: PinWorld)
    requires Sound(c, a) && Tick(c, a, b)
    ensures Sound(c, b) && Remaining(c, b) < Remaining(c, a)
  {
    if a.pin.status == Active || a.pin.status == Fulfilled {
      VestedExact(c, a.pin.round);
    }
    if a.pin.status == Active {
      NextVested(c, a.pin.round);
    }
  }

  /** When nothing is left to write, everything has been earned and returned. */
  lemma RestMeansDone(c: PinConfig, w: PinWorld)
    requires Sound(c, w) && IntentOf(PlanPin(View(c, w))).None?
    ensures w.pin.status == Fulfilled && w.pin.claimed == c.rounds * c.perRound && w.pin.bondHeld == 0
    ensures PlanPin(View(c, w)) == Idle
  {
    if w.pin.status == Active || w.pin.status == Fulfilled {
      VestedExact(c, w.pin.round);
    }
  }

  /** Otherwise the contract can always take the next write in time. */
  lemma NeverStuck(c: PinConfig, w: PinWorld)
    requires Sound(c, w) && IntentOf(PlanPin(View(c, w))).Some?
    ensures exists w' :: Tick(c, w, w')
  {
    var p := w.pin;
    if p.status == Active || p.status == Fulfilled {
      VestedExact(c, p.round);
    }
    var w' := match IntentOf(PlanPin(View(c, w))).value
      case RegisterIntent => w.(registered := true)
      case SealIntent => w.(pin := PinState(Active, 0, 0, 0, c.bond, false, 0, p.challengeNonce))
      case ChallengeIntent => w.(pin := p.(challengeOpen := true, challengeDeadline := w.head))
      case PoStIntent => w.(pin := p.(round := p.round + 1, challengeOpen := false,
                                      status := if p.round + 1 == c.rounds then Fulfilled else Active))
      case ClaimIntent => w.(pin := p.(claimed := SatMul(p.round, c.perRound)))
      case ReturnBondIntent => w.(pin := p.(bondHeld := 0));
    assert Tick(c, w, w');
  }

  lemma {:induction false} RunProgresses(c: PinConfig, run: seq<PinWorld>, k: nat)
    requires IsRun(c, run) && k < |run|
    ensures Sound(c, run[k]) && Remaining(c, run[k]) + k <= Remaining(c, run[0])
  {
    if k > 0 {
      RunProgresses(c, run, k - 1);
      assert Tick(c, run[k - 1], run[k - 1 + 1]);
      TickProgresses(c, run[k - 1], run[k]);
    }
  }

  /** From any start, every run ends within 3·rounds + 3 writes, and a run that can go no further has
      vested every round, claimed rounds · per_round and holds no bond. */
  lemma PinReachesPayout(c: PinConfig, run: seq<PinWorld>)
    requires IsRun(c, run)
    ensures |run| - 1 <= Remaining(c, run[0]) <= 3 * c.rounds + 3
    ensures var last := run[|run| - 1];
            (forall w :: !Tick(c, last, w)) ==>
              last.pin.status == Fulfilled && last.pin.claimed == c.rounds * c.perRound && last.pin.bondHeld == 0
  {
    var last := run[|run| - 1];
    RunProgresses(c, run, |run| - 1);
    RemainingBounded(c, last);
    RemainingBounded(c, run[0]);
    if IntentOf(PlanPin(View(c, last))).Some? {
      NeverStuck(c, last);
    } else {
      RestMeansDone(c, last);
    }
  }

  /** A challenge nonce the contract drew below its own modulus indexes the circuit unchanged. */
  lemma NonceIndexesItself(nonce: Word, n: u64)
    requires Number(nonce) < n
    ensures NonceToIndex(nonce, n) == Number(nonce) < n
  {
    LowEightBytes(nonce);
    SmallModulus(Number(nonce), n);
  }

  lemma SmallModulus(x: nat, n: nat)
    requires x < n
    ensures x % n == x
  {
  }
}
