/** Which enqueue discipline each of the agent's writes uses, and what that makes of bids: seen from
    one job, the queue is a single cell that drifts while unsigned and freezes once broadcast. */
module Relay {
  import opened Prelude
  import opened Abi
  import opened Calldata
  import opened SigningQueue
  import K = ContractCalls
  import AgentState

  datatype Setup = Setup(marketplace: Address, monitor: Address, chainId: u64)

  /** Everything that reaches the queue. */
  datatype RelayOp =
    | SignerRequest(intent: string, to: Address, calldata: Bytes, value: u128, chainId: u64,
                    context: string, expires: u128)
    | Beat
    | PlaceBid(job: u128, price: u128, latency: u128, context: string, expires: u128)
    | Report(id: nat, tx: string)

  function HexText(b: Bytes): string {
    "0x" + HexOf(b)
  }

  const BID_INTENT := "bidOnJob"

  ghost function BidCalldata(job: u128, price: u128, latency: u128): string {
    HexText(CalldataOf(BidOnJob(job, price, latency)))
  }

  ghost function BidPayload(c: Setup, op: RelayOp): Payload
    requires op.PlaceBid?
  {
    Payload(BID_INTENT, HexText(c.marketplace), BidCalldata(op.job, op.price, op.latency), 0, c.chainId,
            op.context, op.expires)
  }

  function HeartbeatPayload(c: Setup, calldata: Bytes): Payload {
    Payload("heartbeat", HexText(c.monitor), HexText(calldata), 0, c.chainId,
            "heartbeat (provider liveness)", 0)
  }

  ghost function OpOf(c: Setup, op: RelayOp): Op {
    match op
    case SignerRequest(intent, to, calldata, value, chainId, context, expires) =>
      OneShot(Payload(intent, HexText(to), HexText(calldata), value, chainId, context, expires))
    case Beat => Recurring(HeartbeatPayload(c, CalldataOf(Heartbeat)))
    case PlaceBid(job, _, _, _, _) => Superseding(BidPayload(c, op), job)
    case Report(id, tx) => Op.Observe(id, tx)
  }

  // ---- the three senders ----

  /** `RelaySigner::request`: one-shot, deduplicated by calldata. */
  method RequestSignature(state: AgentState.State, ghost c: Setup, intent: string, to: Address, calldata: Bytes,
                          value: u128, chainId: u64, context: string, expires: u128)
    modifies state`pendingRequests, state`nextRequestId
    ensures state.TheQueue() ==
              Apply(old(state.TheQueue()),
                    OpOf(c, SignerRequest(intent, to, calldata, value, chainId, context, expires)))
  {
    var toHex := HexEncode(to);
    var calldataHex := HexEncode(calldata);
    var _ := state.EnqueueOneShot(Payload(intent, toHex, calldataHex, value, chainId, context, expires));
  }

  /** `RelayHeartbeatSender::send_heartbeat`: recurring. */
  method SendHeartbeat(state: AgentState.State, c: Setup, calldata: Bytes)
    modifies state`pendingRequests, state`nextRequestId
    ensures state.TheQueue() == Apply(old(state.TheQueue()), Recurring(HeartbeatPayload(c, calldata)))
    ensures calldata == CalldataOf(Heartbeat) ==> state.TheQueue() == Apply(old(state.TheQueue()), OpOf(c, Beat))
  {
    var toHex := HexEncode(c.monitor);
    var calldataHex := HexEncode(calldata);
    var _ := state.EnqueueRecurring(
      Payload("heartbeat", toHex, calldataHex, 0, c.chainId, "heartbeat (provider liveness)", 0));
  }

  /** `RelayBidPlacer::place`: superseding, keyed by the job. */
  method Place(state: AgentState.State, c: Setup, job: u128, price: u128, latency: u128, context: string, expires: u128)
    modifies state`pendingRequests, state`nextRequestId
    ensures state.TheQueue() ==
              Apply(old(state.TheQueue()), OpOf(c, PlaceBid(job, price, latency, context, expires)))
  {
    var calldata := EncodeBidOnJob(job, price, latency);
    var toHex := HexEncode(c.marketplace);
    var calldataHex := HexEncode(calldata);
    var _ := state.EnqueueSuperseding(
      Payload(BID_INTENT, toHex, calldataHex, 0, c.chainId, context, expires), job);
  }

  // ---- a caller that drives many jobs through one signer ----

  ghost function StartPayload(c: Setup, job: u128): Payload {
    Payload("startExecution", HexText(c.marketplace), HexText(CalldataOf(StartExecution(job))), 0, c.chainId, "", 0)
  }

  /** A caller that drives 257 jobs through one signer: starting job 0 is offered to the signer again,
      although it was broadcast and observed. */
  lemma StartIsQueuedTwice(c: Setup, tx: string) returns (others: seq<Payload>)
    ensures |others| == CAP && forall k :: 0 <= k < CAP ==> others[k] == StartPayload(c, k + 1)
    ensures var w := StartPayload(c, 0);
            MintedIn(EMPTY, [OneShot(w), Op.Observe(0, tx)] + OneShots(others) + [OneShot(w)], w.calldata) == 2
  {
    others := seq(CAP, k requires 0 <= k < CAP => StartPayload(c, k + 1));
    forall i, j | 0 <= i < j <= CAP
      ensures StartPayload(c, i).calldata != StartPayload(c, j).calldata
    {
      if StartPayload(c, i).calldata == StartPayload(c, j).calldata {
        HexCalldataInjective(StartExecution(i), StartExecution(j));
      }
    }
    QueuedTwice(StartPayload(c, 0), tx, others);
  }

  // ---- one job's bid as a cell ----

  datatype BidCell =
    | NoBid
    | Bid(id: nat, price: u128, latency: u128, expires: u128, submitted: bool)

  ghost predicate IsBid(e: Entry, job: u128) {
    e.key == Some(job) && e.w.intent == BID_INTENT
  }

  ghost predicate Shows(e: Entry, job: u128, b: BidCell)
    requires b.Bid?
  {
    && IsBid(e, job) && e.id == b.id
    && e.w.calldata == BidCalldata(job, b.price, b.latency) && e.w.expiresBlock == b.expires
    && (e.status == Submitted <==> b.submitted)
  }

  /** The queue's bid for this job is `b`. */
  ghost predicate Represents(q: Queue, job: u128, b: BidCell) {
    match b
    case NoBid => forall e :: e in q.entries ==> !IsBid(e, job)
    case Bid(_, _, _, _, _) => exists e :: e in q.entries && Shows(e, job, b)
  }

  /** What one operation does to the cell when nothing is evicted. */
  function CellStep(b: BidCell, op: RelayOp, job: u128, nextId: nat): BidCell {
    match op
    case PlaceBid(j, price, latency, _, expires) =>
      if j != job then b
      else if b.NoBid? then Bid(nextId, price, latency, expires, false)
      else if b.submitted then b
      else Bid(b.id, price, latency, expires, false)
    case Report(id, _) => if b.Bid? && b.id == id then b.(submitted := true) else b
    case _ => b
  }

  lemma PushedEntry(q: Queue, w: Payload, key: Option<u128>, e: Entry)
    requires e in q.entries
    ensures e in Push(q, w, key).entries || (e.status == Submitted && e !in Push(q, w, key).entries)
  {
    var pushed := Pushed(q, w, key);
    assert e in pushed;
    RetainedMembers(pushed, Excess(pushed));
  }

  /** A push leaves this job's cell alone, or evicts it if it was submitted. */
  lemma PushAndCell(q: Queue, w: Payload, key: Option<u128>, job: u128, b: BidCell)
    requires Inv(q) && Inv(Push(q, w, key)) && Represents(q, job, b)
    requires key != Some(job) || w.intent != BID_INTENT
    ensures Represents(Push(q, w, key), job, b) || (b.Bid? && b.submitted && Represents(Push(q, w, key), job, NoBid))
  {
    var pushed := Pushed(q, w, key);
    RetainedMembers(pushed, Excess(pushed));
    if b.Bid? {
      var e :| e in q.entries && Shows(e, job, b);
      PushedEntry(q, w, key, e);
      if e !in Push(q, w, key).entries {
        EvictedBid(q, w, key, job, e);
      }
    }
  }

  /** With the job's entry gone there is no bid for it. */
  lemma EvictedBid(q: Queue, w: Payload, key: Option<u128>, job: u128, e: Entry)
    requires Inv(q) && e in q.entries && IsBid(e, job) && e !in Push(q, w, key).entries
    requires key != Some(job) || w.intent != BID_INTENT
    ensures Represents(Push(q, w, key), job, NoBid)
  {
    var pushed := Pushed(q, w, key);
    RetainedMembers(pushed, Excess(pushed));
    forall x | x in Push(q, w, key).entries
      ensures !IsBid(x, job)
    {
      if IsBid(x, job) {
        assert x in q.entries && SameWrite(x, e);
      }
    }
  }

  /** Placing this job's first bid. A fresh pending entry is never evicted by its own push. */
  lemma FirstBid(q: Queue, w: Payload, job: u128, price: u128, latency: u128)
    requires w.intent == BID_INTENT && w.calldata == BidCalldata(job, price, latency)
    ensures Represents(Push(q, w, Some(job)), job, Bid(q.nextId, price, latency, w.expiresBlock, false))
  {
    var pushed := Pushed(q, w, Some(job));
    RetainedMembers(pushed, Excess(pushed));
    var e := Entry(q.nextId, w, Pending, None, Some(job));
    assert pushed[|q.entries|] == e;
    assert e in Push(q, w, Some(job)).entries && Shows(e, job, Bid(q.nextId, price, latency, w.expiresBlock, false));
  }

  /** Editing another entry leaves the cell alone. */
  lemma OtherEdit(q: Queue, i: nat, e': Entry, job: u128, b: BidCell)
    requires i < |q.entries| && Represents(q, job, b)
    requires e'.key == q.entries[i].key && e'.w.intent == q.entries[i].w.intent
    requires b.Bid? ==> !Shows(q.entries[i], job, b)
    ensures Represents(q.(entries := q.entries[i := e']), job, b)
  {
    var es' := q.entries[i := e'];
    if b.Bid? {
      var e :| e in q.entries && Shows(e, job, b);
      var k :| 0 <= k < |q.entries| && q.entries[k] == e;
      assert es'[k] == e;
    } else {
      forall x | x in es'
        ensures !IsBid(x, job)
      {
        var k :| 0 <= k < |es'| && es'[k] == x;
        assert q.entries[k] in q.entries;
      }
    }
  }

  lemma EditShows(q: Queue, i: nat, e': Entry, job: u128, b: BidCell)
    requires i < |q.entries| && b.Bid? && Shows(e', job, b)
    ensures Represents(q.(entries := q.entries[i := e']), job, b)
  {
    assert q.entries[i := e'][i] == e';
  }

  lemma PlaceStep(c: Setup, q: Queue, op: RelayOp, job: u128, b: BidCell)
    requires Inv(q) && Represents(q, job, b) && op.PlaceBid?
    ensures var q' := Apply(q, OpOf(c, op));
            || Represents(q', job, CellStep(b, op, job, q.nextId))
            || (b.Bid? && b.submitted && Represents(q', job, NoBid))
  {
    var w, es := BidPayload(c, op), q.entries;
    ApplyKeepsInv(q, OpOf(c, op));
    var i := FindKey(es, BID_INTENT, op.job);
    if i == |es| {
      if op.job == job {
        FirstBid(q, w, job, op.price, op.latency);
      } else {
        PushAndCell(q, w, Some(op.job), job, b);
      }
    } else if op.job == job {
      assert IsBid(es[i], job) && es[i] in es;
      var e :| e in es && Shows(e, job, b);
      assert SameWrite(e, es[i]);
      if !b.submitted {
        EditShows(q, i, Superseded(e, w), job, CellStep(b, op, job, q.nextId));
      }
    } else if es[i].status == Pending {
      OtherEdit(q, i, Superseded(es[i], w), job, b);
    }
  }

  lemma ReportStep(c: Setup, q: Queue, op: RelayOp, job: u128, b: BidCell)
    requires Inv(q) && Represents(q, job, b) && op.Report?
    ensures Represents(Apply(q, OpOf(c, op)), job, CellStep(b, op, job, q.nextId))
  {
    var es := q.entries;
    var i := FindId(es, op.id);
    if i < |es| {
      var e' := es[i].(status := Submitted, txHash := Some(op.tx));
      if b.Bid? && b.id == op.id {
        ShownById(q, i, job, b);
        EditShows(q, i, e', job, b.(submitted := true));
      } else {
        OtherEdit(q, i, e', job, b);
      }
    }
  }

  lemma ShownById(q: Queue, i: nat, job: u128, b: BidCell)
    requires Inv(q) && b.Bid? && Represents(q, job, b) && i < |q.entries| && q.entries[i].id == b.id
    ensures Shows(q.entries[i], job, b)
  {
    var e :| e in q.entries && Shows(e, job, b);
    var k :| 0 <= k < |q.entries| && q.entries[k] == e;
    assert k == i;
  }

  lemma BeatStep(c: Setup, q: Queue, job: u128, b: BidCell)
    requires Inv(q) && Represents(q, job, b)
    ensures var q' := Apply(q, OpOf(c, Beat));
            Represents(q', job, b) || (b.Bid? && b.submitted && Represents(q', job, NoBid))
  {
    var w, es := HeartbeatPayload(c, CalldataOf(Heartbeat)), q.entries;
    ApplyKeepsInv(q, OpOf(c, Beat));
    var i := FindCalldata(es, w.calldata);
    if i == |es| {
      PushAndCell(q, w, None, job, b);
    } else if es[i].status == Submitted {
      if b.Bid? && Shows(es[i], job, b) {
        HexCalldataInjective(BidOnJob(job, b.price, b.latency), Heartbeat);
      }
      OtherEdit(q, i, es[i].(status := Pending, txHash := None), job, b);
    }
  }

  /** The queue refines the cell: whatever the operation, the job's bid moves exactly as the cell does,
      except that a submitted bid may be evicted. A pending bid therefore never disappears, never changes
      its id and always shows the latest values; a submitted one never changes; and the heartbeat, which
      re-arms by calldata, can never re-arm a bid because the two calldata differ. */
  lemma BidRefinesCell(c: Setup, q: Queue, op: RelayOp, job: u128, b: BidCell)
    requires Inv(q) && Represents(q, job, b)
    ensures var q' := Apply(q, OpOf(c, op));
            || Represents(q', job, CellStep(b, op, job, q.nextId))
            || (b.Bid? && b.submitted && Represents(q', job, NoBid))
  {
    match op {
      case PlaceBid(_, _, _, _, _) => PlaceStep(c, q, op, job, b);
      case Report(_, _) => ReportStep(c, q, op, job, b);
      case Beat => BeatStep(c, q, job, b);
      case SignerRequest(_, _, _, _, _, _, _) =>
        var o := OpOf(c, op);
        ApplyKeepsInv(q, o);
        if Mints(q, o) {
          PushAndCell(q, o.w, None, job, b);
        }
    }
  }

  // ---- whole histories ----

  function LastBid(ops: seq<RelayOp>, job: u128): Option<RelayOp> {
    if ops == [] then None
    else
      var last := ops[|ops| - 1];
      if last.PlaceBid? && last.job == job then Some(last) else LastBid(ops[..|ops| - 1], job)
  }

  /** The queue after a history that started empty. */
  ghost function After(c: Setup, ops: seq<RelayOp>): Queue {
    if ops == [] then EMPTY else Apply(After(c, ops[..|ops| - 1]), OpOf(c, ops[|ops| - 1]))
  }

  /** The cell agrees with the job's latest placement as long as it is unsigned. */
  predicate Latest(b: BidCell, last: Option<RelayOp>) {
    b.Bid? && !b.submitted ==>
      && last.Some? && last.value.PlaceBid?
      && b.price == last.value.price && b.latency == last.value.latency && b.expires == last.value.expires
  }

  lemma LatestStep(b: BidCell, ops: seq<RelayOp>, job: u128, nextId: nat)
    requires ops != [] && Latest(b, LastBid(ops[..|ops| - 1], job))
    ensures Latest(CellStep(b, ops[|ops| - 1], job, nextId), LastBid(ops, job))
  {
    var init, op := ops[..|ops| - 1], ops[|ops| - 1];
    if op.PlaceBid? && op.job == job {
      assert LastBid(ops, job) == Some(op);
    } else {
      assert LastBid(ops, job) == LastBid(init, job);
    }
  }

  /** While a job's bid is unsigned it carries the price, latency and expiry of the job's latest
      placement, under any interleaving with other jobs, heartbeats, other writes, observes and evictions. */
  lemma {:induction false} PendingBidIsLatest(c: Setup, ops: seq<RelayOp>, job: u128) returns (b: BidCell)
    ensures Inv(After(c, ops)) && Represents(After(c, ops), job, b)
    ensures Latest(b, LastBid(ops, job))
  {
    if ops == [] {
      b := NoBid;
    } else {
      var init, op := ops[..|ops| - 1], ops[|ops| - 1];
      var before := After(c, init);
      b := PendingBidIsLatest(c, init, job);
      ApplyKeepsInv(before, OpOf(c, op));
      BidRefinesCell(c, before, op, job, b);
      LatestStep(b, ops, job, before.nextId);
      var next := CellStep(b, op, job, before.nextId);
      b := if Represents(After(c, ops), job, next) then next else NoBid;
    }
  }

  // ---- what the signer is shown ----

  /** The entry shows this request, field by field: hex that spells its addresses and bytes, its value,
      chain and expiry, and for a bid calldata in which the contract reads its numbers. */
  ghost predicate ShowsRequest(c: Setup, e: Entry, op: RelayOp) {
    match op
    case SignerRequest(intent, to, calldata, value, chainId, context, expires) =>
      && e.key == None && e.w.intent == intent && HexSpells(e.w.to, to) && HexSpells(e.w.calldata, calldata)
      && e.w.value == value && e.w.chainId == chainId && e.w.context == context && e.w.expiresBlock == expires
    case Beat =>
      && e.key == None && e.w.intent == "heartbeat" && HexSpells(e.w.to, c.monitor)
      && (exists b: Bytes :: HexSpells(e.w.calldata, b) && K.IsHeartbeat(b))
      && e.w.value == 0 && e.w.chainId == c.chainId && e.w.expiresBlock == 0
    case PlaceBid(job, price, latency, context, expires) =>
      && e.key == Some(job) && e.w.intent == "bidOnJob" && HexSpells(e.w.to, c.marketplace)
      && (exists b: Bytes :: HexSpells(e.w.calldata, b) && K.ReadBidOnJob(b) == Some(K.BidCall(job, price, latency)))
      && e.w.value == 0 && e.w.chainId == c.chainId && e.w.context == context && e.w.expiresBlock == expires
    case Report(_, _) => false
  }

  /** The entry's payload and key are those of the operation behind this request. */
  ghost predicate From(c: Setup, e: Entry, op: RelayOp) {
    !op.Report? && e.w == OpOf(c, op).w && e.key == KeyOf(OpOf(c, op))
  }

  lemma FromShows(c: Setup, e: Entry, op: RelayOp)
    requires From(c, e, op)
    ensures ShowsRequest(c, e, op)
  {
    match op {
      case SignerRequest(_, to, calldata, _, _, _, _) =>
        HexSpellsItself(to);
        HexSpellsItself(calldata);
      case Beat =>
        HexSpellsItself(c.monitor);
        HexSpellsItself(CalldataOf(Heartbeat));
        K.BareCallsRead();
      case PlaceBid(job, price, latency, _, _) =>
        HexSpellsItself(c.marketplace);
        HexSpellsItself(CalldataOf(BidOnJob(job, price, latency)));
        K.BidReads(job, price, latency);
    }
  }

  /** A bid brought up to date is the latest placement's. */
  lemma UpdatedBid(c: Setup, o: Entry, before: RelayOp, op: RelayOp)
    requires From(c, o, before) && op.PlaceBid? && o.key == Some(op.job)
    ensures From(c, Superseded(o, OpOf(c, op).w), op)
  {
  }

  lemma {:induction false} EntriesHaveOrigin(c: Setup, ops: seq<RelayOp>, e: Entry) returns (k: nat)
    requires e in After(c, ops).entries
    ensures k < |ops| && From(c, e, ops[k])
    decreases |ops|
  {
    var n, init, op := |ops| - 1, ops[..|ops| - 1], ops[|ops| - 1];
    var q, qop := After(c, init), OpOf(c, op);
    EntryOrigin(q, qop, e);
    if o :| o in q.entries && o.w == e.w && o.key == e.key {
      k := EntriesHaveOrigin(c, init, o);
    } else if !qop.Observe? && e.w == qop.w && e.key == KeyOf(qop) {
      k := n;
    } else {
      var o :| o in q.entries && o.key == Some(qop.key) && o.w.intent == qop.w.intent && e == Superseded(o, qop.w);
      k := EntriesHaveOrigin(c, init, o);
      UpdatedBid(c, o, init[k], op);
      assert false;
    }
  }

  /** After any history every entry shows one of the requests made so far: nothing the signer is shown was
      made up, mixed from two requests or exchanged between fields. */
  lemma EntriesShowRequests(c: Setup, ops: seq<RelayOp>, e: Entry)
    requires e in After(c, ops).entries
    ensures exists k :: 0 <= k < |ops| && ShowsRequest(c, e, ops[k])
  {
    var k := EntriesHaveOrigin(c, ops, e);
    FromShows(c, e, ops[k]);
  }

  /** There is never more than one bid for a job in the queue. */
  lemma OneBidPerJob(c: Setup, ops: seq<RelayOp>, job: u128, i: nat, j: nat)
    requires i < |After(c, ops).entries| && j < |After(c, ops).entries|
    requires IsBid(After(c, ops).entries[i], job) && IsBid(After(c, ops).entries[j], job)
    ensures i == j
  {
    var _ := PendingBidIsLatest(c, ops, job);
    var es := After(c, ops).entries;
    assert es[i] in es && es[j] in es && SameWrite(es[i], es[j]);
  }
}
