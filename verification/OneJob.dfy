/** The queue of the daemon that drives one job. Executor, earnings poller, heartbeat and bidder together
    name seven writes at most, so the queue never evicts and never offers one of them as a new entry twice. */
module OneJob {
  import opened Prelude
  import opened Abi
  import opened Calldata
  import opened SigningQueue
  import R = Relay
  import C = CommitReveal
  import L = Lifecycle
  import P = Proof

  function Label(intent: L.WriteIntent): string {
    match intent
    case IntentStart => "startExecution"
    case IntentCommit => "submitCommitment"
    case IntentResult => "submitResult"
    case IntentComplete => "completeJob"
    case IntentClaimRewards => "claimRewards"
    case IntentBid => "bidOnJob"
    case IntentHeartbeat => "heartbeat"
  }

  /** The signer was handed this request of the executor. */
  ghost predicate Relays(op: R.RelayOp, req: L.SignatureRequest) {
    && op.SignerRequest? && op.intent == Label(req.intent) && op.to == req.to && op.calldata == req.calldata
    && op.value == req.value && op.chainId == req.chainId && op.expires == req.expiresBlock
  }

  ghost predicate IsClaim(op: R.RelayOp, accounting: Address, chainId: u64) {
    && op.SignerRequest? && op.intent == "claimRewards" && op.to == accounting
    && op.calldata == CalldataOf(ClaimRewards) && op.value == 0 && op.chainId == chainId && op.expires == 0
  }

  /** The parts of one daemon: its job, its relay, the accounting contract, the id it bids under. */
  datatype Daemon = Daemon(config: C.Config, setup: R.Setup, accounting: Address, bidJob: u128)

  /** What reaches the queue: a request the executor emitted, a claim, a heartbeat, a bid, an observation. */
  ghost predicate FromDaemon(d: Daemon, final: C.Sys, op: R.RelayOp) {
    match op
    case SignerRequest(_, _, _, _, _, _, _) =>
      IsClaim(op, d.accounting, d.setup.chainId) || exists req :: req in final.emitted && Relays(op, req)
    case Beat => true
    case PlaceBid(job, _, _, _, _) => job == d.bidJob
    case Report(_, _) => true
  }

  ghost function QueueOps(setup: R.Setup, ops: seq<R.RelayOp>): seq<Op> {
    seq(|ops|, i requires 0 <= i < |ops| => R.OpOf(setup, ops[i]))
  }

  function AsText(calls: set<Bytes>): set<Identity> {
    set b | b in calls :: ByCalldata(R.HexText(b))
  }

  /** The writes of one job. */
  ghost function JobWrites(calls: set<Bytes>, bidJob: u128): set<Identity> {
    AsText(calls + {CalldataOf(ClaimRewards), CalldataOf(Heartbeat)}) + {ByKey(R.BID_INTENT, bidJob)}
  }

  lemma {:induction false} TextSize(calls: set<Bytes>)
    ensures |AsText(calls)| <= |calls|
    decreases |calls|
  {
    if calls != {} {
      var b :| b in calls;
      TextSize(calls - {b});
      assert AsText(calls) == AsText(calls - {b}) + {ByCalldata(R.HexText(b))};
    }
  }

  lemma SevenWrites(calls: set<Bytes>, bidJob: u128)
    requires |calls| <= 4
    ensures |JobWrites(calls, bidJob)| <= 7
  {
    TextSize(calls + {CalldataOf(ClaimRewards), CalldataOf(Heartbeat)});
  }

  lemma FourAtMost(c: C.Config, art: P.Artifacts)
    ensures |C.CallsFor(c, art)| <= 4
  {
  }

  lemma NamesOneJob(d: Daemon, final: C.Sys, calls: set<Bytes>, ops: seq<R.RelayOp>)
    requires forall req :: req in final.emitted ==> req.calldata in calls
    requires forall op :: op in ops ==> FromDaemon(d, final, op)
    ensures Names(QueueOps(d.setup, ops)) <= JobWrites(calls, d.bidJob)
  {
    var qops := QueueOps(d.setup, ops);
    forall k | 0 <= k < |qops| && !qops[k].Observe?
      ensures NameOf(qops[k]) in JobWrites(calls, d.bidJob)
    {
      NameOfDaemon(d, final, calls, ops[k]);
    }
  }

  lemma NameOfDaemon(d: Daemon, final: C.Sys, calls: set<Bytes>, op: R.RelayOp)
    requires forall req :: req in final.emitted ==> req.calldata in calls
    requires FromDaemon(d, final, op) && !op.Report?
    ensures NameOf(R.OpOf(d.setup, op)) in JobWrites(calls, d.bidJob)
  {
    var all := calls + {CalldataOf(ClaimRewards), CalldataOf(Heartbeat)};
    match op {
      case SignerRequest(_, _, calldata, _, _, _, _) => assert calldata in all;
      case Beat => assert CalldataOf(Heartbeat) in all;
      case PlaceBid(_, _, _, _, _) =>
    }
  }

  /** Over every run of the job and every history of the daemon's queue, with ticks, re-emissions, drifting
      bids, claims, heartbeats and observations in any order: nothing is ever evicted, and each write is
      queued at most once. */
  lemma EachWriteQueuedOnce(d: Daemon, run: seq<C.Sys>, ops: seq<R.RelayOp>, id: Identity)
    requires C.IsRun(d.config, run)
    requires forall op :: op in ops ==> FromDaemon(d, run[|run| - 1], op)
    ensures |Names(QueueOps(d.setup, ops))| <= 7
    ensures AllEvicted(EMPTY, QueueOps(d.setup, ops)) == [] && MintedAs(EMPTY, QueueOps(d.setup, ops), id) <= 1
  {
    var art := C.FourCalls(d.config, run);
    var calls := C.CallsFor(d.config, art);
    FourAtMost(d.config, art);
    SevenWrites(calls, d.bidJob);
    NamesOneJob(d, run[|run| - 1], calls, ops);
    SubsetSize(Names(QueueOps(d.setup, ops)), JobWrites(calls, d.bidJob));
    FewWritesAreQueuedOnce(QueueOps(d.setup, ops), id, "");
  }

  // ---- what the signer is shown is what the executor emitted ----

  /** The entry shows this request of the executor: at the marketplace, on its chain, without value. */
  ghost predicate ShowsEmitted(d: Daemon, e: Entry, req: L.SignatureRequest) {
    && e.w.intent == Label(req.intent) && HexSpells(e.w.to, d.config.marketplace)
    && HexSpells(e.w.calldata, req.calldata) && e.w.value == 0 && e.w.chainId == d.config.chainId
    && e.w.expiresBlock == req.expiresBlock
  }

  lemma RelayedShows(d: Daemon, e: Entry, op: R.RelayOp, req: L.SignatureRequest)
    requires R.ShowsRequest(d.setup, e, op) && Relays(op, req) && C.Addressed(d.config, req)
    ensures ShowsEmitted(d, e, req)
  {
  }

  /** A name of a job write is not the name of a claim, a heartbeat or a bid. */
  lemma NamedByExecutor(d: Daemon, final: C.Sys, e: Entry, op: R.RelayOp)
    requires R.ShowsRequest(d.setup, e, op) && FromDaemon(d, final, op)
    requires e.w.intent == "startExecution" || e.w.intent == "submitCommitment"
             || e.w.intent == "submitResult" || e.w.intent == "completeJob"
    ensures exists req :: req in final.emitted && Relays(op, req)
  {
    assert e.w.intent[0] != 'h' && e.w.intent[0] != 'b';
    assert e.w.intent[1] != 'l';
  }

  /** An entry with the name of a job write, under whatever history of the daemon, is a request the
      executor emitted over some run of the job, addressed as the protocol wants it. */
  lemma SignerSeesTheJob(d: Daemon, run: seq<C.Sys>, ops: seq<R.RelayOp>, e: Entry)
    requires C.IsRun(d.config, run)
    requires forall op :: op in ops ==> FromDaemon(d, run[|run| - 1], op)
    requires e in R.After(d.setup, ops).entries
    requires e.w.intent == "startExecution" || e.w.intent == "submitCommitment"
             || e.w.intent == "submitResult" || e.w.intent == "completeJob"
    ensures exists req :: req in run[|run| - 1].emitted && ShowsEmitted(d, e, req)
  {
    R.EntriesShowRequests(d.setup, ops, e);
    var k :| 0 <= k < |ops| && R.ShowsRequest(d.setup, e, ops[k]);
    assert ops[k] in ops;
    NamedByExecutor(d, run[|run| - 1], e, ops[k]);
    var req :| req in run[|run| - 1].emitted && Relays(ops[k], req);
    C.EmittedRequestsAreTheJobs(d.config, run, req);
    RelayedShows(d, e, ops[k], req);
  }
}
