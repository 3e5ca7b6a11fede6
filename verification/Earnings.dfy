/** The earnings sweep: a claim is emitted when the balance crosses a threshold. Its calldata never
    changes and it goes through the one-shot discipline, so what a sweep does depends on whether the
    previous claim is still on the queue. */
module Earnings {
  import opened Prelude
  import opened Calldata
  import opened SigningQueue
  import opened Relay
  import opened Abi
  import K = ContractCalls
  import AgentState

  datatype Config = Config(threshold: u128, accounting: Address, relay: Setup)

  /** The poller's guard and the queue it writes to. */
  datatype Sweep = Sweep(inFlight: bool, queue: Queue)

  ghost function ClaimCalldata(): string {
    HexText(CalldataOf(ClaimRewards))
  }

  ghost function ClaimOp(c: Config): Op {
    OpOf(c.relay, SignerRequest("claimRewards", c.accounting, CalldataOf(ClaimRewards), 0, c.relay.chainId,
                                "claimRewards", 0))
  }

  /** `EarningsPoller::tick` on a balance reading; `None` is a failed read. A signer that refuses the
      request leaves the guard down. */
  ghost function Swept(c: Config, s: Sweep, claimable: Option<u128>, accepts: bool): Sweep {
    if claimable.None? then s
    else if claimable.value == 0 then s.(inFlight := false)
    else if s.inFlight || claimable.value < c.threshold || !accepts then s
    else Sweep(true, Apply(s.queue, ClaimOp(c)))
  }

  class EarningsPoller {
    const config: Config
    var inFlight: bool

    constructor (config: Config)
      ensures this.config == config && !inFlight
    {
      this.config := config;
      inFlight := false;
    }

    method Tick(state: AgentState.State, claimable: Option<u128>, accepts: bool)
      modifies this`inFlight, state`pendingRequests, state`nextRequestId
      ensures Sweep(inFlight, state.TheQueue()) ==
                Swept(config, Sweep(old(inFlight), old(state.TheQueue())), claimable, accepts)
    {
      if claimable.None? {
        return;
      }
      if claimable.value == 0 {
        inFlight := false;
        return;
      }
      if inFlight || claimable.value < config.threshold {
        return;
      }
      var calldata := EncodeNoArgs(ClaimRewards);
      if accepts {
        RequestSignature(state, config.relay, "claimRewards", config.accounting, calldata, 0,
                         config.relay.chainId, "claimRewards", 0);
        inFlight := true;
      }
    }
  }

  /** What a sweep puts before the signer: a call the accounting contract reads as a claim, without value
      or expiry. */
  lemma SweepShowsClaim(c: Config, s: Sweep, claimable: u128)
    requires Inv(s.queue) && Swept(c, s, Some(claimable), true).queue.nextId > s.queue.nextId
    ensures exists e :: e in Swept(c, s, Some(claimable), true).queue.entries && IsClaim(c, e)
  {
    var op := ClaimOp(c);
    EnqueueOffers(s.queue, op);
    var e :| e in Apply(s.queue, op).entries && Offers(s.queue, op, e);
    HexSpellsItself(c.accounting);
    HexSpellsItself(CalldataOf(ClaimRewards));
    K.BareCallsRead();
    assert IsClaim(c, e);
  }

  ghost predicate IsClaim(c: Config, e: Entry) {
    && e.status == Pending && e.w.intent == "claimRewards" && HexSpells(e.w.to, c.accounting)
    && (exists b: Bytes :: HexSpells(e.w.calldata, b) && K.IsClaimRewards(b))
    && e.w.value == 0 && e.w.chainId == c.relay.chainId && e.w.expiresBlock == 0
  }

  /** A tick puts a new claim on the queue exactly when none is in flight, the balance is positive and at
      the threshold, and no entry with the claim's calldata is retained from an earlier
      sweep; the relay signer accepts every request. */
  lemma SweepQueuesIff(c: Config, s: Sweep, claimable: u128)
    ensures Swept(c, s, Some(claimable), true).queue.nextId > s.queue.nextId <==>
              && !s.inFlight && claimable > 0 && claimable >= c.threshold
              && forall e :: e in s.queue.entries ==> e.w.calldata != ClaimCalldata()
  {
    OneShotMintsIff(s.queue, ClaimOp(c).w);
  }

  /** The guard after a tick: down after a zero balance, up after an accepted request, else as it was. */
  lemma GuardIff(c: Config, s: Sweep, claimable: Option<u128>, accepts: bool)
    ensures Swept(c, s, claimable, accepts).inFlight <==>
              && claimable != Some(0)
              && (s.inFlight || (claimable.Some? && claimable.value >= c.threshold && accepts))
    ensures !accepts || s.inFlight ==> Swept(c, s, claimable, accepts).queue == s.queue
  {
  }

  datatype Event = Balance(claimable: Option<u128>, accepts: bool) | Queued(op: Op)

  ghost function OnEvent(c: Config, s: Sweep, e: Event): Sweep {
    match e
    case Balance(b, accepts) => Swept(c, s, b, accepts)
    case Queued(op) => s.(queue := Apply(s.queue, op))
  }

  ghost function After(c: Config, s: Sweep, events: seq<Event>): Sweep
    decreases |events|
  {
    if events == [] then s else After(c, OnEvent(c, s, events[0]), events[1..])
  }

  /** No claim is waiting for the signer. */
  ghost predicate NoClaimPending(q: Queue) {
    forall e :: e in q.entries && e.w.calldata == ClaimCalldata() ==> e.status == Submitted
  }

  /** The balance never reads zero, and nobody else queues or re-arms claim calldata. */
  ghost predicate Unswept(events: seq<Event>) {
    forall k :: 0 <= k < |events| ==> Quiet(events[k])
  }

  ghost predicate Quiet(e: Event) {
    match e
    case Balance(b, _) => b != Some(0)
    case Queued(op) => op.Observe? || op.w.calldata != ClaimCalldata()
  }

  lemma OtherOpKeepsNoClaim(q: Queue, op: Op)
    requires NoClaimPending(q) && (op.Observe? || op.w.calldata != ClaimCalldata())
    ensures NoClaimPending(Apply(q, op))
  {
    var es' := Apply(q, op).entries;
    if Mints(q, op) {
      var pushed := Pushed(q, op.w, if op.Superseding? then Some(op.key) else None);
      RetainedMembers(pushed, Excess(pushed));
    } else {
      forall e | e in es' && e.w.calldata == ClaimCalldata()
        ensures e.status == Submitted
      {
        var k :| 0 <= k < |es'| && es'[k] == e;
        assert q.entries[k] in q.entries;
      }
    }
  }

  /** A sweep that finds the previous claim still on the queue emits nothing but raises the in-flight
      guard; from then on, through any events that leave the balance above zero, no claim is ever put
      before the signer again, not even once the old entry has been evicted. */
  lemma {:induction false} SecondSweepStalls(c: Config, s: Sweep, events: seq<Event>)
    requires s.inFlight && NoClaimPending(s.queue) && Unswept(events)
    ensures After(c, s, events).inFlight && NoClaimPending(After(c, s, events).queue)
    decreases |events|
  {
    if events != [] {
      assert Quiet(events[0]);
      assert forall k :: 0 <= k < |events| - 1 ==> events[1..][k] == events[k + 1];
      match events[0] {
        case Balance(_, _) =>
          SecondSweepStalls(c, s, events[1..]);
        case Queued(op) =>
          OtherOpKeepsNoClaim(s.queue, op);
          SecondSweepStalls(c, s.(queue := Apply(s.queue, op)), events[1..]);
      }
    }
  }

  /** One sweep that finds a claim retained, pending or submitted: it emits nothing, and the guard goes up. */
  lemma SecondSweepIsSwallowed(c: Config, s: Sweep, claimable: u128)
    requires !s.inFlight && claimable > 0 && claimable >= c.threshold
    requires exists e :: e in s.queue.entries && e.w.calldata == ClaimCalldata()
    ensures Swept(c, s, Some(claimable), true) == Sweep(true, s.queue)
  {
    OneShotMintsIff(s.queue, ClaimOp(c).w);
  }

  /** The least balance that is swept. */
  function LeastClaim(threshold: u128): u128 {
    if threshold == 0 then 1 else threshold
  }

  /** An ordinary history that ends in the stall: a claim is swept, broadcast and observed, the balance
      reads zero, and has grown enough again. */
  function StallHistory(balance: u128, tx: string): seq<Event> {
    [Balance(Some(balance), true), Queued(Op.Observe(0, tx)), Balance(Some(0), true), Balance(Some(balance), true)]
  }

  /** For every threshold a poller that starts on an empty queue gets there, and stays there. */
  lemma StallIsReached(c: Config, tx: string, later: seq<Event>)
    requires Unswept(later)
    ensures var s := After(c, Sweep(false, EMPTY), StallHistory(LeastClaim(c.threshold), tx));
            && s.inFlight && NoClaimPending(s.queue) && s.queue.nextId == 1
            && After(c, s, later).inFlight && NoClaimPending(After(c, s, later).queue)
  {
    var w, balance := ClaimOp(c).w, LeastClaim(c.threshold);
    var pending := Queue([Entry(0, w, Pending, None, None)], 1);
    var observed := Queue([Entry(0, w, Submitted, Some(tx), None)], 1);
    assert Swept(c, Sweep(false, EMPTY), Some(balance), true) == Sweep(true, pending);
    assert Apply(pending, Op.Observe(0, tx)) == observed;
    assert observed.entries[0] in observed.entries;
    SecondSweepIsSwallowed(c, Sweep(false, observed), balance);
    AfterFour(c, Sweep(false, EMPTY), Balance(Some(balance), true), Queued(Op.Observe(0, tx)),
              Balance(Some(0), true), Balance(Some(balance), true));
    SecondSweepStalls(c, Sweep(true, observed), later);
  }

  lemma AfterFour(c: Config, s: Sweep, e0: Event, e1: Event, e2: Event, e3: Event)
    ensures After(c, s, [e0, e1, e2, e3]) == OnEvent(c, OnEvent(c, OnEvent(c, OnEvent(c, s, e0), e1), e2), e3)
  {
    AfterTwo(c, s, e0, e1, [e2, e3]);
    AfterTwo(c, OnEvent(c, OnEvent(c, s, e0), e1), e2, e3, []);
    assert [e0, e1, e2, e3] == [e0, e1] + [e2, e3] && [e2, e3] == [e2, e3] + [];
  }

  lemma AfterTwo(c: Config, s: Sweep, e0: Event, e1: Event, rest: seq<Event>)
    ensures After(c, s, [e0, e1] + rest) == After(c, OnEvent(c, OnEvent(c, s, e0), e1), rest)
  {
    var all := [e0, e1] + rest;
    assert all[1..] == [e1] + rest && all[1..][1..] == rest;
  }
}
