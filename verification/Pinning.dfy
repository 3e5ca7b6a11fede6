/** The pinning daemon: the pure planner, the tick that turns its decision into at most one request,
    and the pacing of retries. */
module Pinning {
  import opened Prelude
  import opened Calldata
  import K = ContractCalls

  datatype PinStatus = Unpinned | Active | Fulfilled | Slashed

  datatype PinState = PinState(
    status: PinStatus,
    round: u128,
    missed: u128,
    claimed: u128,
    bondHeld: u128,
    challengeOpen: bool,
    challengeDeadline: u128,
    challengeNonce: Word)

  datatype SlotState = SlotState(funded: bool, budget: u128, liveCount: u128)

  datatype PinIntent = RegisterIntent | SealIntent | ChallengeIntent | PoStIntent | ClaimIntent | ReturnBondIntent

  datatype PinRequest = PinRequest(
    intent: PinIntent, to: Address, calldata: Bytes, value: u128, chainId: u64, expiresBlock: u128)

  datatype HoldReason = SlotAtQuorum | SlotUnfunded | PinSlashed | ChallengeWindowClosed

  datatype PinAction =
    | Idle
    | Sign(request: PinRequest)
    | Seal
    | Prove(nonce: Word, deadline: u128)
    | Hold(why: HoldReason)

  datatype PinInput = PinInput(
    me: Address,
    cid: Word,
    sector: u128,
    registered: bool,
    pin: PinState,
    slot: SlotState,
    quorum: u128,
    rounds: u128,
    perRound: u128,
    currentBlock: u128,
    incentives: Address,
    bond: u128,
    chainId: u64,
    slotSeed: u128,
    unallocated: u128)

  ghost function Request(i: PinInput, intent: PinIntent, w: Write, value: u128, expires: u128): PinRequest {
    PinRequest(intent, i.incentives, CalldataOf(w), value, i.chainId, expires)
  }

  /** `plan_pin`: the single most urgent step. */
  ghost function PlanPin(i: PinInput): PinAction {
    var p := i.pin;
    var vested := SatMul(p.round, i.perRound);
    if p.status == Active && p.challengeOpen then
      if i.currentBlock > p.challengeDeadline then Hold(ChallengeWindowClosed)
      else Prove(p.challengeNonce, p.challengeDeadline)
    else if p.status == Slashed then Hold(PinSlashed)
    else if p.status == Unpinned then
      if !i.registered then Sign(Request(i, RegisterIntent, RegisterPinner, 0, 0))
      else if !i.slot.funded && i.unallocated < i.slotSeed then Hold(SlotUnfunded)
      else if i.slot.liveCount >= i.quorum then Hold(SlotAtQuorum)
      else Seal
    else if vested > p.claimed then Sign(Request(i, ClaimIntent, Claim(i.cid, i.sector), 0, 0))
    else if p.status == Fulfilled && p.claimed == vested && p.bondHeld > 0
    then Sign(Request(i, ReturnBondIntent, ReturnBond(i.cid, i.sector), 0, 0))
    else if p.status == Active && p.round < i.rounds
    then Sign(Request(i, ChallengeIntent, Challenge(i.cid, i.sector), 0, 0))
    else Idle
  }

  ghost predicate Signs(i: PinInput, intent: PinIntent) {
    PlanPin(i).Sign? && PlanPin(i).request.intent == intent
  }

  /** When each thing is planned: an answer before anything else, a claim before a new challenge. */
  lemma PlanPinIff(i: PinInput)
    ensures var p := i.pin;
            var vested := Min(p.round * i.perRound, U128_MAX);
            var open := p.status == Active && p.challengeOpen;
            var backed := i.slot.funded || i.unallocated >= i.slotSeed;
            var sealable := p.status == Unpinned && i.registered;
            var settled := !open && (p.status == Active || p.status == Fulfilled) && vested <= p.claimed;
            && (forall n, d :: PlanPin(i) == Prove(n, d) <==>
                  open && n == p.challengeNonce && d == p.challengeDeadline && i.currentBlock <= d)
            && (PlanPin(i) == Hold(ChallengeWindowClosed) <==> open && i.currentBlock > p.challengeDeadline)
            && (PlanPin(i) == Hold(PinSlashed) <==> p.status == Slashed)
            && (Signs(i, RegisterIntent) <==> p.status == Unpinned && !i.registered)
            && (PlanPin(i) == Hold(SlotUnfunded) <==> sealable && !backed)
            && (PlanPin(i) == Hold(SlotAtQuorum) <==> sealable && backed && i.slot.liveCount >= i.quorum)
            && (PlanPin(i) == Seal <==> sealable && backed && i.slot.liveCount < i.quorum)
            && (Signs(i, ClaimIntent) <==>
                  !open && (p.status == Active || p.status == Fulfilled) && vested > p.claimed)
            && (Signs(i, ReturnBondIntent) <==>
                  settled && p.status == Fulfilled && vested == p.claimed && p.bondHeld > 0)
            && (Signs(i, ChallengeIntent) <==> settled && p.status == Active && p.round < i.rounds)
  {
  }

  /** `plan_pin` as the code runs it. */
  method PlanPinNext(i: PinInput) returns (a: PinAction)
    ensures a == PlanPin(i)
  {
    var p := i.pin;
    if p.status == Active && p.challengeOpen {
      if i.currentBlock > p.challengeDeadline { return Hold(ChallengeWindowClosed); }
      return Prove(p.challengeNonce, p.challengeDeadline);
    }
    if p.status == Slashed { return Hold(PinSlashed); }
    if p.status == Unpinned {
      if !i.registered {
        var register := EncodeNoArgs(RegisterPinner);
        return Sign(PinRequest(RegisterIntent, i.incentives, register, 0, i.chainId, 0));
      }
      if !i.slot.funded && i.unallocated < i.slotSeed { return Hold(SlotUnfunded); }
      if i.slot.liveCount >= i.quorum { return Hold(SlotAtQuorum); }
      return Seal;
    }
    var vested := SatMul(p.round, i.perRound);
    if vested > p.claimed {
      var claim := EncodePinCall(Claim(i.cid, i.sector));
      return Sign(PinRequest(ClaimIntent, i.incentives, claim, 0, i.chainId, 0));
    }
    if p.status == Fulfilled && p.claimed == vested && p.bondHeld > 0 {
      var giveBack := EncodePinCall(ReturnBond(i.cid, i.sector));
      return Sign(PinRequest(ReturnBondIntent, i.incentives, giveBack, 0, i.chainId, 0));
    }
    if p.status == Active && !p.challengeOpen && p.round < i.rounds {
      var challenge := EncodePinCall(Challenge(i.cid, i.sector));
      return Sign(PinRequest(ChallengeIntent, i.incentives, challenge, 0, i.chainId, 0));
    }
    a := Idle;
  }

  // ---- one tick ----

  datatype SealArtifacts = SealArtifacts(replicaId: Word, commD: Word, commR: Word, commC: Word, porepProof: Vec)

  datatype SignerAnswer = Accepted | Declined | Reverted(insufficientFunding: bool)

  /** The answers of the replica store, the sealer and the signing surface during one tick. */
  datatype PinOracle = PinOracle(
    replica: Option<Bytes>, sealed: Option<SealArtifacts>, epoch: u128, postProof: Option<Vec>, signer: SignerAnswer)

  datatype TickOutcome =
    | TickIdle
    | TickHold(why: HoldReason)
    | Requested(intent: PinIntent)
    | Sealed
    | Proved
    | TickError

  /** Bytes to seal are stored and the sealer produced the artifacts. */
  predicate Sealable(o: PinOracle) {
    o.replica.Some? && o.replica.value != [] && o.sealed.Some?
  }

  /** What a tick makes of a plan. */
  function OutcomeOf(a: PinAction, o: PinOracle): TickOutcome {
    match a
    case Idle => TickIdle
    case Hold(why) => TickHold(why)
    case Sign(req) => if o.signer == Accepted then Requested(req.intent) else TickError
    case Seal =>
      if !Sealable(o) then TickError
      else if o.signer == Accepted then Sealed
      else if o.signer == Reverted(true) then TickHold(SlotUnfunded)
      else TickError
    case Prove(_, _) => if Sealable(o) && o.postProof.Some? && o.signer == Accepted then Proved else TickError
  }

  /** The request a tick makes, if any. */
  ghost function RequestOf(i: PinInput, o: PinOracle): Option<PinRequest> {
    match PlanPin(i)
    case Sign(req) => if o.signer == Accepted then Some(req) else None
    case Seal =>
      if !Sealable(o) || o.signer != Accepted then None
      else
        var a := o.sealed.value;
        Some(Request(i, SealIntent,
          SealCommit(i.cid, i.sector, a.replicaId, o.epoch, a.commD, a.commR, a.commC, a.porepProof), i.bond, 0))
    case Prove(nonce, deadline) =>
      if !Sealable(o) || o.postProof.None? || o.signer != Accepted then None
      else
        var a := o.sealed.value;
        Some(Request(i, PoStIntent,
          SubmitPoSt(i.cid, i.sector, a.commR, a.commC, nonce, o.postProof.value), 0, deadline))
    case _ => None
  }

  class PinDaemon {
    /** Requests the signing surface has accepted, oldest first. */
    var requests: seq<PinRequest>

    constructor ()
      ensures requests == []
    {
      requests := [];
    }

    /** `tick_pin`; `read` is `None` when a chain read failed. At most one request, and exactly the one the
        plan calls for when the signing surface and the prover answer. */
    method TickPin(read: Option<PinInput>, o: PinOracle) returns (outcome: TickOutcome)
      modifies this
      ensures outcome == if read.Some? then OutcomeOf(PlanPin(read.value), o) else TickError
      ensures var request := if read.Some? then RequestOf(read.value, o) else None;
              requests == old(requests) + (if request.Some? then [request.value] else [])
    {
      if read.None? {
        return TickError;
      }
      var i := read.value;
      var action := PlanPinNext(i);
      match action {
        case Idle => return TickIdle;
        case Hold(why) => return TickHold(why);
        case Sign(req) =>
          if o.signer != Accepted { return TickError; }
          requests := requests + [req];
          return Requested(req.intent);
        case Seal =>
          if o.replica.None? || o.replica.value == [] || o.sealed.None? { return TickError; }
          var a := o.sealed.value;
          var calldata := EncodeSealCommit(i.cid, i.sector, a.replicaId, o.epoch,
                                           a.commD, a.commR, a.commC, a.porepProof);
          if o.signer == Reverted(true) { return TickHold(SlotUnfunded); }
          if o.signer != Accepted { return TickError; }
          requests := requests + [PinRequest(SealIntent, i.incentives, calldata, i.bond, i.chainId, 0)];
          return Sealed;
        case Prove(nonce, deadline) =>
          if o.replica.None? || o.replica.value == [] || o.sealed.None? || o.postProof.None? { return TickError; }
          var a := o.sealed.value;
          var calldata := EncodeSubmitPoSt(i.cid, i.sector, a.commR, a.commC, nonce, o.postProof.value);
          if o.signer != Accepted { return TickError; }
          requests := requests + [PinRequest(PoStIntent, i.incentives, calldata, 0, i.chainId, deadline)];
          return Proved;
      }
    }
  }

  /** The write behind a planned signature: never a bond, never a proof. */
  lemma SignedWrite(i: PinInput) returns (w: Write)
    requires PlanPin(i).Sign?
    ensures PlanPin(i).request.calldata == CalldataOf(w) && PlanPin(i).request.value == 0
    ensures w.RegisterPinner? || w.Claim? || w.ReturnBond? || w.Challenge?
  {
    match PlanPin(i).request.intent {
      case RegisterIntent => w := RegisterPinner;
      case ClaimIntent => w := Claim(i.cid, i.sector);
      case ReturnBondIntent => w := ReturnBond(i.cid, i.sector);
      case _ => w := Challenge(i.cid, i.sector);
    }
  }

  /** The write behind any request of a tick. */
  lemma RequestedWrite(i: PinInput, o: PinOracle) returns (w: Write)
    requires RequestOf(i, o).Some?
    ensures RequestOf(i, o).value.calldata == CalldataOf(w)
    ensures w.SubmitPoSt? <==> PlanPin(i).Prove?
    ensures w.SealCommit? <==> PlanPin(i) == Seal
    ensures w.SubmitPoSt? ==> w.nonce == i.pin.challengeNonce
  {
    match PlanPin(i) {
      case Sign(_) => w := SignedWrite(i);
      case Seal =>
        var a := o.sealed.value;
        w := SealCommit(i.cid, i.sector, a.replicaId, o.epoch, a.commD, a.commR, a.commC, a.porepProof);
      case Prove(nonce, _) =>
        w := SubmitPoSt(i.cid, i.sector, o.sealed.value.commR, o.sealed.value.commC, nonce, o.postProof.value);
    }
  }

  lemma SealIsRead(i: PinInput, o: PinOracle, a: SealArtifacts)
    requires RequestOf(i, o).Some? && PlanPin(i) == Seal && o.sealed == Some(a)
    ensures K.ReadSealCommit(RequestOf(i, o).value.calldata)
         == Some(K.SealCall(i.cid, i.sector, a.replicaId, o.epoch, a.commD, a.commR, a.commC, a.porepProof))
  {
    K.SealReads(i.cid, i.sector, a.replicaId, o.epoch, a.commD, a.commR, a.commC, a.porepProof);
  }

  lemma PoStIsRead(i: PinInput, o: PinOracle, a: SealArtifacts, proof: Vec)
    requires RequestOf(i, o).Some? && PlanPin(i).Prove? && o.sealed == Some(a) && o.postProof == Some(proof)
    ensures K.ReadSubmitPoSt(RequestOf(i, o).value.calldata)
         == Some(K.PoStCall(i.cid, i.sector, a.commR, a.commC, i.pin.challengeNonce, proof))
  {
    K.PoStReads(i.cid, i.sector, a.commR, a.commC, i.pin.challengeNonce, proof);
  }

  lemma SignedIsRead(i: PinInput)
    requires PlanPin(i).Sign?
    ensures var req := PlanPin(i).request;
            match req.intent
            case RegisterIntent => K.IsRegisterPinner(req.calldata)
            case ChallengeIntent => K.ReadChallenge(req.calldata) == Some(K.PinCall(i.cid, i.sector))
            case ClaimIntent => K.ReadClaim(req.calldata) == Some(K.PinCall(i.cid, i.sector))
            case ReturnBondIntent => K.ReadReturnBond(req.calldata) == Some(K.PinCall(i.cid, i.sector))
            case _ => false
  {
    if PlanPin(i).request.intent == RegisterIntent {
      K.BareCallsRead();
    } else {
      K.PinCallsRead(i.cid, i.sector);
    }
  }

  lemma RequestedFor(i: PinInput, o: PinOracle)
    requires RequestOf(i, o).Some?
    ensures RequestOf(i, o).value.to == i.incentives && RequestOf(i, o).value.chainId == i.chainId
    ensures RequestOf(i, o).value.intent == SealIntent <==> PlanPin(i) == Seal
    ensures RequestOf(i, o).value.intent == PoStIntent <==> PlanPin(i).Prove?
  {
  }

  /** Every request of a tick goes to the incentives contract on its chain, and what the contract reads in
      it is this pin and, argument by argument, what the sealer and the prover produced. */
  lemma RequestsCarryTheSeal(i: PinInput, o: PinOracle)
    requires RequestOf(i, o).Some?
    ensures RequestOf(i, o).value.to == i.incentives && RequestOf(i, o).value.chainId == i.chainId
    ensures var data := RequestOf(i, o).value.calldata;
            match RequestOf(i, o).value.intent
            case RegisterIntent => K.IsRegisterPinner(data)
            case SealIntent =>
              && o.sealed.Some?
              && var a := o.sealed.value;
                 K.ReadSealCommit(data)
                   == Some(K.SealCall(i.cid, i.sector, a.replicaId, o.epoch, a.commD, a.commR, a.commC, a.porepProof))
            case PoStIntent =>
              && o.sealed.Some? && o.postProof.Some?
              && K.ReadSubmitPoSt(data)
                   == Some(K.PoStCall(i.cid, i.sector, o.sealed.value.commR, o.sealed.value.commC,
                                      i.pin.challengeNonce, o.postProof.value))
            case ChallengeIntent => K.ReadChallenge(data) == Some(K.PinCall(i.cid, i.sector))
            case ClaimIntent => K.ReadClaim(data) == Some(K.PinCall(i.cid, i.sector))
            case ReturnBondIntent => K.ReadReturnBond(data) == Some(K.PinCall(i.cid, i.sector))
  {
    RequestedFor(i, o);
    match PlanPin(i) {
      case Seal => SealIsRead(i, o, o.sealed.value);
      case Prove(_, _) => PoStIsRead(i, o, o.sealed.value, o.postProof.value);
      case Sign(_) => SignedIsRead(i);
    }
  }

  /** Whatever a tick requests, if a contract reads a proof in its calldata then a challenge is open, the
      proof answers its nonce, its deadline has not passed and is the request's expiry, and the bytes
      proved are stored here. */
  lemma ProofsAreInTime(i: PinInput, o: PinOracle, w: Write)
    requires RequestOf(i, o).Some? && RequestOf(i, o).value.calldata == CalldataOf(w) && w.SubmitPoSt?
    ensures i.pin.status == Active && i.pin.challengeOpen && w.nonce == i.pin.challengeNonce
    ensures i.currentBlock <= i.pin.challengeDeadline == RequestOf(i, o).value.expiresBlock
    ensures o.replica.Some? && o.replica.value != []
  {
    var actual := RequestedWrite(i, o);
    CalldataInjective(w, actual);
  }

  /** And if it carries value or reads as a seal, it posts exactly the bond, for a pin that is not sealed
      yet, behind stored bytes, and only where the contract takes it: below quorum, in a slot that is
      funded or whose seed the unallocated backing covers. */
  lemma BondsAreBacked(i: PinInput, o: PinOracle, w: Write)
    requires RequestOf(i, o).Some? && RequestOf(i, o).value.calldata == CalldataOf(w)
    requires w.SealCommit? || RequestOf(i, o).value.value > 0
    ensures RequestOf(i, o).value.value == i.bond && i.pin.status == Unpinned && i.registered
    ensures o.replica.Some? && o.replica.value != [] && w.SealCommit?
    ensures i.slot.liveCount < i.quorum && (i.slot.funded || i.slotSeed <= i.unallocated)
  {
    var actual := RequestedWrite(i, o);
    CalldataInjective(w, actual);
    if PlanPin(i).Sign? {
      var _ := SignedWrite(i);
    }
  }

  /** `nonce_to_index`: the low eight bytes, reduced. */
  function NonceToIndex(nonce: Word, n: u64): u64 {
    if n == 0 then 0 else Number(nonce[24..]) % n
  }

  // ---- pacing ----

  /** A `Duration` saturates here. */
  const DURATION_MAX: nat := 18_446_744_073_709_551_615_999_999_999

  type Duration = d: nat | d <= DURATION_MAX

  function Doubled(d: Duration, max: Duration): Duration {
    Min(Min(2 * d, DURATION_MAX), max)
  }

  class SlotFundingBackoff {
    const base: Duration
    const max: Duration
    var current: Duration

    constructor (base: Duration, max: Duration)
      ensures this.base == base && this.max == max && current == base
    {
      this.base, this.max, current := base, max, base;
    }

    /** `after`: `unfunded` is whether the tick ended in a funding hold. */
    method After(unfunded: bool) returns (delay: Duration)
      modifies this`current
      ensures (delay, current) == PaceStep(base, max, old(current), unfunded)
    {
      if unfunded {
        delay := current;
        current := Doubled(current, max);
        return;
      }
      current := base;
      delay := current;
    }
  }

  function PaceStep(base: Duration, max: Duration, current: Duration, unfunded: bool): (Duration, Duration) {
    if unfunded then (current, Doubled(current, max)) else (base, base)
  }

  /** The delay after the last of a series of outcomes, and the state it leaves. */
  function Paced(base: Duration, max: Duration, outcomes: seq<bool>): (Duration, Duration) {
    if outcomes == [] then (base, base)
    else PaceStep(base, max, Paced(base, max, outcomes[..|outcomes| - 1]).1, outcomes[|outcomes| - 1])
  }

  /** Funding holds since the last other outcome. */
  function Streak(outcomes: seq<bool>): nat {
    if outcomes == [] || !outcomes[|outcomes| - 1] then 0 else 1 + Streak(outcomes[..|outcomes| - 1])
  }

  function Exp2(n: nat): (p: nat)
    ensures p >= 1
  {
    if n == 0 then 1 else 2 * Exp2(n - 1)
  }

  lemma {:induction false} StreakState(base: Duration, max: Duration, outcomes: seq<bool>)
    ensures Paced(base, max, outcomes).1 ==
              if Streak(outcomes) == 0 then base else Min(base * Exp2(Streak(outcomes)), max)
  {
    if outcomes != [] && outcomes[|outcomes| - 1] {
      var init := outcomes[..|outcomes| - 1];
      StreakState(base, max, init);
      DoubleStep(base, max, Streak(init));
    }
  }

  lemma DoubleStep(base: Duration, max: Duration, n: nat)
    ensures Doubled(if n == 0 then base else Min(base * Exp2(n), max), max) == Min(base * Exp2(n + 1), max)
  {
    assert base * Exp2(n + 1) == 2 * (base * Exp2(n)) by {
      assert Exp2(n + 1) == 2 * Exp2(n);
      assert base * (2 * Exp2(n)) == 2 * (base * Exp2(n));
    }
  }

  /** The n-th consecutive funding hold, counting from 0, waits min(base · 2^n, max) when base <= max;
      with base above max only the first wait exceeds max. Any other outcome waits base and resets. */
  lemma BackoffDelays(base: Duration, max: Duration, outcomes: seq<bool>)
    requires outcomes != []
    ensures var last, n := outcomes[|outcomes| - 1], Streak(outcomes);
            Paced(base, max, outcomes).0 ==
              if !last || n == 1 then base else Min(base * Exp2(n - 1), max)
    ensures outcomes[|outcomes| - 1] && base <= max ==>
              Paced(base, max, outcomes).0 == Min(base * Exp2(Streak(outcomes) - 1), max)
  {
    StreakState(base, max, outcomes[..|outcomes| - 1]);
  }
}
