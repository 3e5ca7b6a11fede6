/** `AgentState`: the mutable record the daemon and the signing surface share. Its queue methods are
    the operations of `SigningQueue`, its observation method feeds the alert detector. */
module AgentState {
  import opened Prelude
  import opened SigningQueue
  import opened Alerts

  class State {
    var pendingRequests: seq<Entry>
    var nextRequestId: nat
    var lastHeartbeat: Option<u64>
    var maxConcurrent: u32
    var reputation: u32
    var detector: Detector

    constructor ()
      ensures TheQueue() == EMPTY && lastHeartbeat == None && detector == NO_HISTORY
    {
      pendingRequests, nextRequestId := [], 0;
      lastHeartbeat, maxConcurrent, reputation := None, 0, 0;
      detector := NO_HISTORY;
    }

    function TheQueue(): Queue
      reads this
    {
      Queue(pendingRequests, nextRequestId)
    }

    /** `evict_if_over_cap`: one pass that skips the first `overflow` submitted entries. */
    method EvictIfOverCap()
      modifies this`pendingRequests
      ensures pendingRequests == Retained(old(pendingRequests), Excess(old(pendingRequests)))
    {
      if |pendingRequests| <= CAP {
        return;
      }
      var all, overflow := pendingRequests, |pendingRequests| - CAP;
      var kept: seq<Entry> := [];
      for i := 0 to |all|
        invariant overflow >= 0
        invariant kept + Retained(all[i..], overflow) == Retained(all, |all| - CAP)
      {
        assert all[i..][0] == all[i] && all[i..][1..] == all[i + 1..];
        if overflow > 0 && all[i].status == Submitted {
          overflow := overflow - 1;
        } else {
          RetainStep(all[i], all[i + 1..], overflow, kept);
          kept := kept + [all[i]];
        }
      }
      assert all[|all|..] == [];
      pendingRequests := kept;
    }

    /** Append a pending entry and trim. */
    method Append(w: Payload, key: Option<u128>) returns (id: nat)
      modifies this`pendingRequests, this`nextRequestId
      ensures TheQueue() == Push(old(TheQueue()), w, key) && id == old(nextRequestId)
    {
      id := nextRequestId;
      nextRequestId := nextRequestId + 1;
      pendingRequests := pendingRequests + [Entry(id, w, Pending, None, key)];
      EvictIfOverCap();
    }

    /** `enqueue_signature_request` */
    method EnqueueOneShot(w: Payload) returns (id: nat)
      modifies this`pendingRequests, this`nextRequestId
      ensures TheQueue() == Apply(old(TheQueue()), OneShot(w))
      ensures id == if Mints(old(TheQueue()), OneShot(w)) then old(nextRequestId)
                    else old(pendingRequests)[FindCalldata(old(pendingRequests), w.calldata)].id
    {
      var i := FindCalldata(pendingRequests, w.calldata);
      if i < |pendingRequests| {
        return pendingRequests[i].id;
      }
      id := Append(w, None);
    }

    /** `enqueue_superseding_signature_request` */
    method EnqueueSuperseding(w: Payload, key: u128) returns (id: nat)
      modifies this`pendingRequests, this`nextRequestId
      ensures TheQueue() == Apply(old(TheQueue()), Superseding(w, key))
      ensures id == if Mints(old(TheQueue()), Superseding(w, key)) then old(nextRequestId)
                    else old(pendingRequests)[FindKey(old(pendingRequests), w.intent, key)].id
    {
      var i := FindKey(pendingRequests, w.intent, key);
      if i < |pendingRequests| {
        var existing := pendingRequests[i];
        if existing.status == Pending {
          pendingRequests := pendingRequests[i := existing.(w := existing.w.(
            calldata := w.calldata, value := w.value, context := w.context, expiresBlock := w.expiresBlock))];
        }
        return existing.id;
      }
      id := Append(w, Some(key));
    }

    /** `enqueue_recurring_signature_request` */
    method EnqueueRecurring(w: Payload) returns (id: nat)
      modifies this`pendingRequests, this`nextRequestId
      ensures TheQueue() == Apply(old(TheQueue()), Recurring(w))
      ensures id == if Mints(old(TheQueue()), Recurring(w)) then old(nextRequestId)
                    else old(pendingRequests)[FindCalldata(old(pendingRequests), w.calldata)].id
    {
      var i := FindCalldata(pendingRequests, w.calldata);
      if i < |pendingRequests| {
        var existing := pendingRequests[i];
        if existing.status == Submitted {
          pendingRequests := pendingRequests[i := existing.(status := Pending, txHash := None)];
        }
        return existing.id;
      }
      id := EnqueueOneShot(w);
    }

    /** `mark_request_observed`; an observed heartbeat is the proof of liveness. */
    method MarkRequestObserved(id: nat, tx: string, now: u64) returns (known: bool)
      modifies this`pendingRequests, this`lastHeartbeat
      ensures TheQueue() == Apply(old(TheQueue()), Op.Observe(id, tx))
      ensures known <==> exists e :: e in old(pendingRequests) && e.id == id
      ensures var i := FindId(old(pendingRequests), id);
              lastHeartbeat == if i < |old(pendingRequests)| && old(pendingRequests)[i].w.intent == "heartbeat"
                               then Some(now) else old(lastHeartbeat)
    {
      var i := FindId(pendingRequests, id);
      if i == |pendingRequests| {
        return false;
      }
      var r := pendingRequests[i];
      pendingRequests := pendingRequests[i := r.(status := Submitted, txHash := Some(tx))];
      if r.w.intent == "heartbeat" {
        lastHeartbeat := Some(now);
      }
      assert r in old(pendingRequests);
      known := true;
    }

    /** `record_provider_observation` */
    method RecordProviderObservation(maxConcurrent: u32, reputation: u32, stake: u128)
      modifies this`detector, this`maxConcurrent, this`reputation
      ensures detector == Observed(old(detector), Reading(reputation, stake))
      ensures this.maxConcurrent == maxConcurrent && this.reputation == reputation
    {
      var repDrop, slash := None, None;
      if detector.prev.Some? {
        var prev := detector.prev.value;
        if reputation * 100 < prev.reputation * 95 {
          repDrop := Some((prev.reputation, reputation));
        }
        if stake < prev.stake {
          slash := Some((prev.stake, stake));
        }
      }
      var alert := detector.alert;
      if repDrop.Some? || slash.Some? {
        alert := Some(Alert(repDrop, slash));
      }
      detector := Detector(Some(Reading(reputation, stake)), alert);
      this.maxConcurrent, this.reputation := maxConcurrent, reputation;
    }

    /** `clear_alert` */
    method ClearAlert()
      modifies this`detector
      ensures detector == Cleared(old(detector))
    {
      detector := detector.(alert := None);
    }
  }

  lemma RetainStep(e: Entry, rest: seq<Entry>, n: nat, kept: seq<Entry>)
    requires !(n > 0 && e.status == Submitted)
    ensures kept + Retained([e] + rest, n) == (kept + [e]) + Retained(rest, n)
  {
    assert ([e] + rest)[1..] == rest;
  }
}
