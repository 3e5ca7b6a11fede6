/** The signing-relay queue as a value: three ways to enqueue, the observe callback, bounded eviction,
    and what they conserve over any history. */
module SigningQueue {
  import opened Prelude

  datatype Status = Pending | Submitted

  /** What the signing surface is asked to sign; `calldata` and `to` are hex text. */
  datatype Payload = Payload(
    intent: string, to: string, calldata: string, value: u128, chainId: u64, context: string, expiresBlock: u128)

  /** `key` is the job number of a superseding write, `None` for writes identified by calldata. */
  datatype Entry = Entry(id: nat, w: Payload, status: Status, txHash: Option<string>, key: Option<u128>)

  datatype Queue = Queue(entries: seq<Entry>, nextId: nat)

  /** `MAX_PENDING_REQUESTS` */
  const CAP := 256

  const EMPTY := Queue([], 0)

  // ---- searching: the first match, or the length ----

  function FindCalldata(es: seq<Entry>, calldata: string): (i: nat)
    ensures i <= |es|
    ensures i < |es| ==> es[i].w.calldata == calldata
    ensures forall j :: 0 <= j < i ==> es[j].w.calldata != calldata
  {
    if es == [] || es[0].w.calldata == calldata then 0 else 1 + FindCalldata(es[1..], calldata)
  }

  function FindKey(es: seq<Entry>, intent: string, key: u128): (i: nat)
    ensures i <= |es|
    ensures i < |es| ==> es[i].w.intent == intent && es[i].key == Some(key)
    ensures forall j :: 0 <= j < i ==> !(es[j].w.intent == intent && es[j].key == Some(key))
  {
    if es == [] || (es[0].w.intent == intent && es[0].key == Some(key)) then 0
    else 1 + FindKey(es[1..], intent, key)
  }

  function FindId(es: seq<Entry>, id: nat): (i: nat)
    ensures i <= |es|
    ensures i < |es| ==> es[i].id == id
    ensures forall j :: 0 <= j < i ==> es[j].id != id
  {
    if es == [] || es[0].id == id then 0 else 1 + FindId(es[1..], id)
  }

  // ---- eviction ----

  /** Drop the first `n` submitted entries. */
  function Retained(es: seq<Entry>, n: nat): seq<Entry> {
    if es == [] || n == 0 then es
    else if es[0].status == Submitted then Retained(es[1..], n - 1)
    else [es[0]] + Retained(es[1..], n)
  }

  /** The entries so dropped. */
  function Dropped(es: seq<Entry>, n: nat): seq<Entry> {
    if es == [] || n == 0 then []
    else if es[0].status == Submitted then [es[0]] + Dropped(es[1..], n - 1)
    else Dropped(es[1..], n)
  }

  function Excess(es: seq<Entry>): nat {
    if |es| <= CAP then 0 else |es| - CAP
  }

  function WithStatus(es: seq<Entry>, s: Status): seq<Entry> {
    if es == [] then []
    else (if es[0].status == s then [es[0]] else []) + WithStatus(es[1..], s)
  }

  /** Eviction drops exactly the oldest min(n, #submitted) submitted entries: the dropped ones, in
      order, followed by the submitted ones that stay, are all the submitted ones. */
  lemma {:induction false} EvictsOldestSubmitted(es: seq<Entry>, n: nat)
    ensures Dropped(es, n) + WithStatus(Retained(es, n), Submitted) == WithStatus(es, Submitted)
    ensures |Dropped(es, n)| == Min(n, |WithStatus(es, Submitted)|)
  {
    if es != [] && n != 0 {
      if es[0].status == Submitted {
        EvictsOldestSubmitted(es[1..], n - 1);
        assert WithStatus(es, Submitted) == [es[0]] + WithStatus(es[1..], Submitted);
      } else {
        EvictsOldestSubmitted(es[1..], n);
        ConsStatus(es[0], Retained(es[1..], n), Submitted);
      }
    }
  }

  /** Every pending entry stays, in order, and nothing else goes. */
  lemma {:induction false} EvictionKeepsPending(es: seq<Entry>, n: nat)
    ensures WithStatus(Retained(es, n), Pending) == WithStatus(es, Pending)
    ensures |Retained(es, n)| + |Dropped(es, n)| == |es|
  {
    if es != [] && n != 0 {
      if es[0].status == Submitted {
        EvictionKeepsPending(es[1..], n - 1);
      } else {
        EvictionKeepsPending(es[1..], n);
        ConsStatus(es[0], Retained(es[1..], n), Pending);
      }
    }
  }

  lemma ConsStatus(e: Entry, es: seq<Entry>, s: Status)
    ensures WithStatus([e] + es, s) == (if e.status == s then [e] else []) + WithStatus(es, s)
  {
    assert ([e] + es)[1..] == es;
  }

  lemma {:induction false} AllPending(es: seq<Entry>)
    requires WithStatus(es, Submitted) == []
    ensures forall e :: e in es ==> e.status == Pending
  {
    if es != [] {
      AllPending(es[1..]);
    }
  }

  /** After an eviction the queue is within its cap or holds only pending entries. */
  lemma EvictionBounds(es: seq<Entry>)
    ensures var kept := Retained(es, Excess(es));
            |kept| <= 256 || forall e :: e in kept ==> e.status == Pending
  {
    var n := Excess(es);
    EvictsOldestSubmitted(es, n);
    EvictionKeepsPending(es, n);
    if |Retained(es, n)| > CAP {
      AllPending(Retained(es, n));
    }
  }

  lemma {:induction false} RetainedMembers(es: seq<Entry>, n: nat)
    ensures forall e :: e in Retained(es, n) ==> e in es
    ensures forall e :: e in es && e.status == Pending ==> e in Retained(es, n)
    ensures forall e :: e in Dropped(es, n) ==> e in es && e.status == Submitted
    ensures forall e :: e in es ==> e in Retained(es, n) || e in Dropped(es, n)
  {
    if es != [] && n != 0 {
      if es[0].status == Submitted {
        RetainedMembers(es[1..], n - 1);
      } else {
        RetainedMembers(es[1..], n);
      }
    }
  }

  // ---- operations ----

  datatype Op =
    | OneShot(w: Payload)
    | Superseding(w: Payload, key: u128)
    | Recurring(w: Payload)
    | Observe(id: nat, tx: string)

  function Pushed(q: Queue, w: Payload, key: Option<u128>): seq<Entry> {
    q.entries + [Entry(q.nextId, w, Pending, None, key)]
  }

  function Push(q: Queue, w: Payload, key: Option<u128>): Queue {
    var es := Pushed(q, w, key);
    Queue(Retained(es, Excess(es)), q.nextId + 1)
  }

  /** The operation appends an entry rather than finding one. */
  predicate Mints(q: Queue, op: Op) {
    match op
    case OneShot(w) => FindCalldata(q.entries, w.calldata) == |q.entries|
    case Superseding(w, key) => FindKey(q.entries, w.intent, key) == |q.entries|
    case Recurring(w) => FindCalldata(q.entries, w.calldata) == |q.entries|
    case Observe(_, _) => false
  }

  /** Only the value that drifts is replaced: same id, intent, target and chain. */
  function Superseded(e: Entry, w: Payload): Entry {
    e.(w := e.w.(calldata := w.calldata, value := w.value, context := w.context, expiresBlock := w.expiresBlock))
  }

  function Apply(q: Queue, op: Op): Queue {
    var es := q.entries;
    match op
    case OneShot(w) =>
      if Mints(q, op) then Push(q, w, None) else q
    case Superseding(w, key) =>
      if Mints(q, op) then Push(q, w, Some(key)) else
        var i := FindKey(es, w.intent, key);
        if es[i].status == Pending then q.(entries := es[i := Superseded(es[i], w)]) else q
    case Recurring(w) =>
      if Mints(q, op) then Push(q, w, None) else
        var i := FindCalldata(es, w.calldata);
        if es[i].status == Submitted
        then q.(entries := es[i := es[i].(status := Pending, txHash := None)]) else q
    case Observe(id, tx) =>
      var i := FindId(es, id);
      if i < |es| then q.(entries := es[i := es[i].(status := Submitted, txHash := Some(tx))]) else q
  }

  /** The entries one operation evicts. */
  function Evicted(q: Queue, op: Op): seq<Entry> {
    if !Mints(q, op) then [] else
      var es := Pushed(q, op.w, if op.Superseding? then Some(op.key) else None);
      Dropped(es, Excess(es))
  }

  function Run(q: Queue, ops: seq<Op>): Queue
    decreases |ops|
  {
    if ops == [] then q else Run(Apply(q, ops[0]), ops[1..])
  }

  // ---- the invariant ----

  predicate Increasing(es: seq<Entry>) {
    forall i, j :: 0 <= i < j < |es| ==> es[i].id < es[j].id
  }

  /** Two entries that dedup as the same write. */
  predicate SameWrite(a: Entry, b: Entry) {
    || (a.key.None? && b.key.None? && a.w.calldata == b.w.calldata)
    || (a.key.Some? && a.key == b.key && a.w.intent == b.w.intent)
  }

  ghost predicate NoDuplicates(es: seq<Entry>) {
    forall a, b :: a in es && b in es && SameWrite(a, b) ==> a == b
  }

  ghost predicate Inv(q: Queue) {
    && Increasing(q.entries)
    && (forall e :: e in q.entries ==> e.id < q.nextId)
    && (forall e :: e in q.entries ==> (e.status == Submitted <==> e.txHash.Some?))
    && NoDuplicates(q.entries)
  }

  lemma {:induction false} RetainedIncreasing(es: seq<Entry>, n: nat)
    requires Increasing(es)
    ensures Increasing(Retained(es, n))
  {
    if es != [] && n != 0 {
      var n' := if es[0].status == Submitted then n - 1 else n;
      RetainedIncreasing(es[1..], n');
      RetainedMembers(es[1..], n');
      assert forall e :: e in es[1..] ==> es[0].id < e.id;
    }
  }

  lemma PushKeepsInv(q: Queue, w: Payload, key: Option<u128>)
    requires Inv(q)
    requires key.None? ==> forall e :: e in q.entries ==> e.w.calldata != w.calldata
    requires key.Some? ==> forall e :: e in q.entries ==> !(e.key == key && e.w.intent == w.intent)
    ensures Inv(Push(q, w, key))
  {
    var es := Pushed(q, w, key);
    RetainedIncreasing(es, Excess(es));
    RetainedMembers(es, Excess(es));
  }

  /** Editing one entry without touching id or key, and without changing what identifies it. */
  lemma EditKeepsInv(q: Queue, i: nat, e: Entry)
    requires Inv(q) && i < |q.entries|
    requires e.id == q.entries[i].id && e.key == q.entries[i].key && e.w.intent == q.entries[i].w.intent
    requires e.key.None? ==> e.w.calldata == q.entries[i].w.calldata
    requires e.status == Submitted <==> e.txHash.Some?
    ensures Inv(q.(entries := q.entries[i := e]))
  {
    var es, es' := q.entries, q.entries[i := e];
    forall a, b | a in es' && b in es' && SameWrite(a, b)
      ensures a == b
    {
      var j, k :| 0 <= j < |es'| && 0 <= k < |es'| && es'[j] == a && es'[k] == b;
      EditedPair(es, i, e, j, k);
    }
  }

  lemma EditedPair(es: seq<Entry>, i: nat, e: Entry, j: nat, k: nat)
    requires i < |es| && j < |es| && k < |es| && Increasing(es) && NoDuplicates(es)
    requires e.id == es[i].id && e.key == es[i].key && e.w.intent == es[i].w.intent
    requires e.key.None? ==> e.w.calldata == es[i].w.calldata
    requires SameWrite(es[i := e][j], es[i := e][k])
    ensures j == k
  {
    assert es[j] in es && es[k] in es && SameWrite(es[j], es[k]);
    assert es[j].id == es[k].id;
  }

  /** Every operation keeps the invariant: ids increase and are never reused, keyless calldata and
      keyed (intent, key) pairs are unique, a hash is present exactly on submitted entries. */
  lemma ApplyKeepsInv(q: Queue, op: Op)
    requires Inv(q)
    ensures Inv(Apply(q, op)) && Apply(q, op).nextId >= q.nextId
  {
    var es := q.entries;
    match op {
      case OneShot(w) =>
        if Mints(q, op) { PushKeepsInv(q, w, None); }
      case Superseding(w, key) =>
        if Mints(q, op) {
          PushKeepsInv(q, w, Some(key));
        } else {
          var i := FindKey(es, w.intent, key);
          EditKeepsInv(q, i, Superseded(es[i], w));
        }
      case Recurring(w) =>
        if Mints(q, op) {
          PushKeepsInv(q, w, None);
        } else {
          var i := FindCalldata(es, w.calldata);
          EditKeepsInv(q, i, es[i].(status := Pending, txHash := None));
        }
      case Observe(id, tx) =>
        var i := FindId(es, id);
        if i < |es| { EditKeepsInv(q, i, es[i].(status := Submitted, txHash := Some(tx))); }
    }
  }

  lemma {:induction false} RunKeepsInv(q: Queue, ops: seq<Op>)
    requires Inv(q)
    ensures Inv(Run(q, ops)) && Run(q, ops).nextId >= q.nextId
    decreases |ops|
  {
    if ops != [] {
      ApplyKeepsInv(q, ops[0]);
      RunKeepsInv(Apply(q, ops[0]), ops[1..]);
    }
  }

  // ---- where entries come from, and what an enqueue leaves ----

  function KeyOf(op: Op): Option<u128>
    requires !op.Observe?
  {
    if op.Superseding? then Some(op.key) else None
  }

  /** An entry carries a payload that was there before, the operation's own, or that of an entry with the
      same key brought up to date. */
  lemma EntryOrigin(q: Queue, op: Op, e: Entry)
    requires e in Apply(q, op).entries
    ensures || (exists o :: o in q.entries && o.w == e.w && o.key == e.key)
            || (!op.Observe? && e.w == op.w && e.key == KeyOf(op))
            || (op.Superseding? && exists o :: o in q.entries && o.key == Some(op.key) && o.w.intent == op.w.intent
                                               && e == Superseded(o, op.w))
  {
    var es := q.entries;
    if Mints(q, op) {
      var pushed := Pushed(q, op.w, KeyOf(op));
      RetainedMembers(pushed, Excess(pushed));
      assert e in pushed;
    } else {
      var k :| 0 <= k < |Apply(q, op).entries| && Apply(q, op).entries[k] == e;
      assert |Apply(q, op).entries| == |es| && es[k] in es;
    }
  }

  /** After an enqueue the write is on the queue. A new one waits for the signer exactly as asked; a
      recurring one always waits for the signer; a superseding one that still waits shows the latest
      values. */
  lemma EnqueueOffers(q: Queue, op: Op)
    requires Inv(q) && !op.Observe?
    ensures exists e :: e in Apply(q, op).entries && Offers(q, op, e)
  {
    var es := q.entries;
    if Mints(q, op) {
      var pushed := Pushed(q, op.w, KeyOf(op));
      RetainedMembers(pushed, Excess(pushed));
      assert pushed[|es|] in pushed;
      assert Offers(q, op, pushed[|es|]);
    } else {
      var i := if op.Superseding? then FindKey(es, op.w.intent, op.key) else FindCalldata(es, op.w.calldata);
      var e := Apply(q, op).entries[i];
      assert es[i] in es;
      assert e in Apply(q, op).entries && Offers(q, op, e);
    }
  }

  ghost predicate Offers(q: Queue, op: Op, e: Entry)
    requires !op.Observe?
  {
    && (Mints(q, op) ==> e == Entry(q.nextId, op.w, Pending, None, KeyOf(op)))
    && (op.OneShot? ==> e.w.calldata == op.w.calldata)
    && (op.Recurring? ==> e.w.calldata == op.w.calldata && e.status == Pending && e.txHash == None)
    && (op.Superseding? ==>
          && e.key == Some(op.key) && e.w.intent == op.w.intent
          && (e.status == Pending ==>
                && e.w.calldata == op.w.calldata && e.w.value == op.w.value
                && e.w.context == op.w.context && e.w.expiresBlock == op.w.expiresBlock))
  }

  /** A reported broadcast is recorded on its entry and nowhere else. */
  lemma ObserveRecords(q: Queue, id: nat, tx: string, e: Entry)
    requires Inv(q) && e in q.entries
    ensures e.id == id ==> e.(status := Submitted, txHash := Some(tx)) in Apply(q, Op.Observe(id, tx)).entries
    ensures e.id != id ==> e in Apply(q, Op.Observe(id, tx)).entries
  {
    var es, i := q.entries, FindId(q.entries, id);
    var k :| 0 <= k < |es| && es[k] == e;
    var after := Apply(q, Op.Observe(id, tx)).entries;
    assert e.id == id ==> i == k;
    assert |after| == |es| && after[k] in after;
  }

  // ---- conservation ----

  /** Keyless entries with this calldata. */
  function Count(es: seq<Entry>, calldata: string): nat {
    if es == [] then 0
    else (if es[0].key.None? && es[0].w.calldata == calldata then 1 else 0) + Count(es[1..], calldata)
  }

  function MintedNow(q: Queue, op: Op, calldata: string): nat {
    if Mints(q, op) && !op.Superseding? && op.w.calldata == calldata then 1 else 0
  }

  function MintedIn(q: Queue, ops: seq<Op>, calldata: string): nat
    decreases |ops|
  {
    if ops == [] then 0
    else MintedNow(q, ops[0], calldata) + MintedIn(Apply(q, ops[0]), ops[1..], calldata)
  }

  function EvictedIn(q: Queue, ops: seq<Op>, calldata: string): nat
    decreases |ops|
  {
    if ops == [] then 0
    else Count(Evicted(q, ops[0]), calldata) + EvictedIn(Apply(q, ops[0]), ops[1..], calldata)
  }

  lemma {:induction false} CountSplits(es: seq<Entry>, n: nat, calldata: string)
    ensures Count(Retained(es, n), calldata) + Count(Dropped(es, n), calldata) == Count(es, calldata)
  {
    if es != [] && n != 0 {
      if es[0].status == Submitted {
        CountSplits(es[1..], n - 1, calldata);
        assert ([es[0]] + Dropped(es[1..], n - 1))[1..] == Dropped(es[1..], n - 1);
      } else {
        CountSplits(es[1..], n, calldata);
        assert ([es[0]] + Retained(es[1..], n))[1..] == Retained(es[1..], n);
      }
    }
  }

  lemma {:induction false} CountAppend(es: seq<Entry>, e: Entry, calldata: string)
    ensures Count(es + [e], calldata) == Count(es, calldata) + Count([e], calldata)
  {
    if es == [] {
      assert es + [e] == [e];
    } else {
      CountAppend(es[1..], e, calldata);
      assert (es + [e])[1..] == es[1..] + [e];
    }
  }

  lemma {:induction false} CountEdit(es: seq<Entry>, i: nat, e: Entry, calldata: string)
    requires i < |es| && e.key == es[i].key && (e.key.None? ==> e.w.calldata == es[i].w.calldata)
    ensures Count(es[i := e], calldata) == Count(es, calldata)
  {
    if i > 0 {
      CountEdit(es[1..], i - 1, e, calldata);
      assert es[i := e][1..] == es[1..][i - 1 := e];
    } else {
      assert es[0 := e][1..] == es[1..];
    }
  }

  lemma {:induction false} CountZero(es: seq<Entry>, calldata: string)
    requires forall e :: e in es ==> !(e.key.None? && e.w.calldata == calldata)
    ensures Count(es, calldata) == 0
  {
    if es != [] {
      assert es[0] in es;
      CountZero(es[1..], calldata);
    }
  }

  lemma DistinctWrites(es: seq<Entry>, i: nat, j: nat)
    requires i < j < |es| && Increasing(es) && NoDuplicates(es)
    ensures !SameWrite(es[i], es[j])
  {
    assert es[i] in es && es[j] in es && es[i].id != es[j].id;
  }

  lemma {:induction false} CountAtMostOne(es: seq<Entry>, calldata: string)
    requires Increasing(es) && NoDuplicates(es)
    ensures Count(es, calldata) <= 1
  {
    if es != [] {
      CountAtMostOne(es[1..], calldata);
      if es[0].key.None? && es[0].w.calldata == calldata {
        forall e | e in es[1..]
          ensures !(e.key.None? && e.w.calldata == calldata)
        {
          var j :| 1 <= j < |es| && es[j] == e;
          DistinctWrites(es, 0, j);
        }
        CountZero(es[1..], calldata);
      }
    }
  }

  lemma StepConserves(q: Queue, op: Op, calldata: string)
    ensures Count(Apply(q, op).entries, calldata) + Count(Evicted(q, op), calldata)
         == Count(q.entries, calldata) + MintedNow(q, op, calldata)
  {
    var es := q.entries;
    if Mints(q, op) {
      var key := if op.Superseding? then Some(op.key) else None;
      var e := Entry(q.nextId, op.w, Pending, None, key);
      CountSplits(Pushed(q, op.w, key), Excess(Pushed(q, op.w, key)), calldata);
      CountAppend(es, e, calldata);
      assert [e][1..] == [];
    } else {
      match op {
        case OneShot(_) =>
        case Superseding(w, key) =>
          var i := FindKey(es, w.intent, key);
          CountEdit(es, i, Superseded(es[i], w), calldata);
        case Recurring(w) =>
          var i := FindCalldata(es, w.calldata);
          CountEdit(es, i, es[i].(status := Pending, txHash := None), calldata);
        case Observe(id, tx) =>
          var i := FindId(es, id);
          if i < |es| { CountEdit(es, i, es[i].(status := Submitted, txHash := Some(tx)), calldata); }
      }
    }
  }

  /** Over any history: keyless entries minted for a calldata are the ones present, of which there is
      at most one, plus the ones evicted. */
  lemma {:induction false} Conservation(q: Queue, ops: seq<Op>, calldata: string)
    requires Inv(q)
    ensures Count(q.entries, calldata) + MintedIn(q, ops, calldata)
         == Count(Run(q, ops).entries, calldata) + EvictedIn(q, ops, calldata)
    ensures Count(Run(q, ops).entries, calldata) <= 1
    decreases |ops|
  {
    if ops == [] {
      CountAtMostOne(q.entries, calldata);
    } else {
      StepConserves(q, ops[0], calldata);
      ApplyKeepsInv(q, ops[0]);
      Conservation(Apply(q, ops[0]), ops[1..], calldata);
    }
  }

  /** So a write is queued a second time only after its first entry was evicted. */
  lemma SecondMintNeedsEviction(ops: seq<Op>, calldata: string)
    ensures MintedIn(EMPTY, ops, calldata) <= 1 + EvictedIn(EMPTY, ops, calldata)
  {
    Conservation(EMPTY, ops, calldata);
  }

  /** A one-shot write is queued exactly when no entry of any kind carries its calldata: after the entry
      of a broadcast write is evicted, the same calldata is offered to the signer again. */
  lemma OneShotMintsIff(q: Queue, w: Payload)
    ensures Mints(q, OneShot(w)) <==> forall e :: e in q.entries ==> e.w.calldata != w.calldata
    ensures !Mints(q, OneShot(w)) ==> Apply(q, OneShot(w)) == q
  {
    var i := FindCalldata(q.entries, w.calldata);
    if i < |q.entries| {
      assert q.entries[i] in q.entries;
    }
  }

  // ---- histories that name few writes ----

  /** What identifies a write: its calldata or, for a superseding one, its intent and key. */
  datatype Identity = ByCalldata(calldata: string) | ByKey(intent: string, key: u128)

  function NameOf(op: Op): Identity
    requires !op.Observe?
  {
    if op.Superseding? then ByKey(op.w.intent, op.key) else ByCalldata(op.w.calldata)
  }

  function IdentityOf(e: Entry): Identity {
    if e.key.Some? then ByKey(e.w.intent, e.key.value) else ByCalldata(e.w.calldata)
  }

  /** The writes a history names. */
  function Names(ops: seq<Op>): set<Identity> {
    set k | 0 <= k < |ops| && !ops[k].Observe? :: NameOf(ops[k])
  }

  /** The writes on the queue. */
  function Held(es: seq<Entry>): set<Identity> {
    set k | 0 <= k < |es| :: IdentityOf(es[k])
  }

  ghost predicate NamedIn(ops: seq<Op>, names: set<Identity>) {
    forall k :: 0 <= k < |ops| && !ops[k].Observe? ==> NameOf(ops[k]) in names
  }

  /** Everything a history evicts, oldest first. */
  function AllEvicted(q: Queue, ops: seq<Op>): seq<Entry>
    decreases |ops|
  {
    if ops == [] then [] else Evicted(q, ops[0]) + AllEvicted(Apply(q, ops[0]), ops[1..])
  }

  /** How often a history puts this write on the queue anew. */
  function MintedAs(q: Queue, ops: seq<Op>, id: Identity): nat
    decreases |ops|
  {
    if ops == [] then 0
    else (if Mints(q, ops[0]) && NameOf(ops[0]) == id then 1 else 0) + MintedAs(Apply(q, ops[0]), ops[1..], id)
  }

  /** An entry is one write: as many writes are held as there are entries. */
  lemma {:induction false} HeldCount(es: seq<Entry>)
    requires Increasing(es) && NoDuplicates(es)
    ensures |Held(es)| == |es|
  {
    if es != [] {
      var init, last := es[..|es| - 1], es[|es| - 1];
      HeldCount(init);
      HeldAppend(init, last);
      assert es == init + [last];
      forall k | 0 <= k < |init|
        ensures IdentityOf(init[k]) != IdentityOf(last)
      {
        DistinctWrites(es, k, |es| - 1);
      }
    }
  }

  lemma HeldAppend(es: seq<Entry>, e: Entry)
    ensures Held(es + [e]) == Held(es) + {IdentityOf(e)}
  {
    var all := es + [e];
    assert all[|es|] == e && forall k :: 0 <= k < |es| ==> all[k] == es[k];
  }

  lemma SubsetSize<T>(a: set<T>, b: set<T>)
    requires a <= b
    ensures |a| <= |b|
  {
    assert b == a + (b - a);
  }

  lemma MintIsNew(q: Queue, op: Op)
    requires Mints(q, op)
    ensures NameOf(op) !in Held(q.entries)
  {
  }

  /** With room for all the names, a push evicts nothing. */
  lemma PushFits(q: Queue, op: Op, names: set<Identity>)
    requires Inv(q) && Mints(q, op) && Held(q.entries) <= names && NameOf(op) in names && |names| <= CAP
    ensures Evicted(q, op) == []
    ensures Held(Apply(q, op).entries) == Held(q.entries) + {NameOf(op)}
  {
    var key := if op.Superseding? then Some(op.key) else None;
    var e := Entry(q.nextId, op.w, Pending, None, key);
    MintIsNew(q, op);
    HeldCount(q.entries);
    SubsetSize(Held(q.entries) + {NameOf(op)}, names);
    var es := Pushed(q, op.w, key);
    assert es == q.entries + [e] && Excess(es) == 0;
    HeldAppend(q.entries, e);
  }

  /** Any other operation leaves the held writes as they are. */
  lemma EditHolds(q: Queue, op: Op)
    requires !Mints(q, op)
    ensures Held(Apply(q, op).entries) == Held(q.entries)
  {
    var es, es' := q.entries, Apply(q, op).entries;
    assert |es'| == |es|;
    forall k | 0 <= k < |es|
      ensures IdentityOf(es'[k]) == IdentityOf(es[k])
    {
    }
    assert forall k :: 0 <= k < |es| ==> IdentityOf(es'[k]) == IdentityOf(es[k]);
  }

  lemma {:induction false} FewNames(q: Queue, ops: seq<Op>, names: set<Identity>, id: Identity)
    requires Inv(q) && Held(q.entries) <= names && NamedIn(ops, names) && |names| <= CAP
    ensures AllEvicted(q, ops) == []
    ensures MintedAs(q, ops, id) + (if id in Held(q.entries) then 1 else 0) <= 1
    decreases |ops|
  {
    if ops != [] {
      var op, q' := ops[0], Apply(q, ops[0]);
      if Mints(q, op) {
        MintIsNew(q, op);
        PushFits(q, op, names);
      } else {
        EditHolds(q, op);
      }
      ApplyKeepsInv(q, op);
      assert forall k :: 0 <= k < |ops| - 1 ==> ops[1..][k] == ops[k + 1];
      FewNames(q', ops[1..], names, id);
    }
  }

  lemma {:induction false} NothingEvicted(q: Queue, ops: seq<Op>, calldata: string)
    requires AllEvicted(q, ops) == []
    ensures EvictedIn(q, ops, calldata) == 0
    decreases |ops|
  {
    if ops != [] {
      NothingEvicted(Apply(q, ops[0]), ops[1..], calldata);
    }
  }

  /** A history that names at most 256 different writes, however often and in whatever order, evicts
      nothing and queues each of them at most once. */
  lemma FewWritesAreQueuedOnce(ops: seq<Op>, id: Identity, calldata: string)
    requires |Names(ops)| <= 256
    ensures AllEvicted(EMPTY, ops) == [] && MintedAs(EMPTY, ops, id) <= 1
    ensures EvictedIn(EMPTY, ops, calldata) == 0 && MintedIn(EMPTY, ops, calldata) <= 1
  {
    FewNames(EMPTY, ops, Names(ops), id);
    NothingEvicted(EMPTY, ops, calldata);
    Conservation(EMPTY, ops, calldata);
  }

  // ---- a history that queues one write twice ----

  lemma {:induction false} RunSplits(q: Queue, a: seq<Op>, b: seq<Op>, calldata: string)
    ensures Run(q, a + b) == Run(Run(q, a), b)
    ensures MintedIn(q, a + b, calldata) == MintedIn(q, a, calldata) + MintedIn(Run(q, a), b, calldata)
    decreases |a|
  {
    if a == [] {
      assert a + b == b;
    } else {
      RunSplits(Apply(q, a[0]), a[1..], b, calldata);
      assert (a + b)[1..] == a[1..] + b;
    }
  }

  lemma RunOne(q: Queue, op: Op, calldata: string)
    ensures Run(q, [op]) == Apply(q, op) && MintedIn(q, [op], calldata) == MintedNow(q, op, calldata)
  {
    assert [op][1..] == [];
  }

  function OneShots(ws: seq<Payload>): seq<Op> {
    seq(|ws|, i requires 0 <= i < |ws| => OneShot(ws[i]))
  }

  ghost predicate DistinctFrom(w: Payload, others: seq<Payload>) {
    && (forall i :: 0 <= i < |others| ==> others[i].calldata != w.calldata)
    && (forall i, j :: 0 <= i < j < |others| ==> others[i].calldata != others[j].calldata)
  }

  /** A broadcast write followed by pending ones. */
  function Filled(w: Payload, tx: string, others: seq<Payload>): Queue {
    Queue([Entry(0, w, Submitted, Some(tx), None)] + PendingOf(others), |others| + 1)
  }

  function PendingOf(ws: seq<Payload>): seq<Entry> {
    seq(|ws|, i requires 0 <= i < |ws| => Entry(i + 1, ws[i], Pending, None, None))
  }

  lemma NextIsNew(w: Payload, tx: string, init: seq<Payload>, last: Payload)
    requires DistinctFrom(w, init + [last])
    ensures Mints(Filled(w, tx, init), OneShot(last)) && last.calldata != w.calldata
    ensures Pushed(Filled(w, tx, init), last, None) == Filled(w, tx, init + [last]).entries
  {
    var all := init + [last];
    assert all[|init|] == last && forall i :: 0 <= i < |init| ==> all[i] == init[i];
    OneShotMintsIff(Filled(w, tx, init), last);
    assert PendingOf(all) == PendingOf(init) + [Entry(|init| + 1, last, Pending, None, None)];
  }

  lemma {:induction false} FillsUp(w: Payload, tx: string, others: seq<Payload>)
    requires |others| < CAP && DistinctFrom(w, others)
    ensures Run(Filled(w, tx, []), OneShots(others)) == Filled(w, tx, others)
    ensures MintedIn(Filled(w, tx, []), OneShots(others), w.calldata) == 0
    decreases |others|
  {
    var q := Filled(w, tx, []);
    if others == [] {
      assert OneShots(others) == [];
    } else {
      var init, last := others[..|others| - 1], others[|others| - 1];
      assert others == init + [last] && OneShots(others) == OneShots(init) + [OneShot(last)];
      FillsUp(w, tx, init);
      RunSplits(q, OneShots(init), [OneShot(last)], w.calldata);
      NextIsNew(w, tx, init, last);
      RunOne(Filled(w, tx, init), OneShot(last), w.calldata);
    }
  }

  /** One write more than fits: the broadcast one is the entry that goes. */
  lemma Overfills(w: Payload, tx: string, init: seq<Payload>, last: Payload)
    requires |init| == CAP - 1 && DistinctFrom(w, init + [last])
    ensures Mints(Filled(w, tx, init), OneShot(last))
    ensures Apply(Filled(w, tx, init), OneShot(last)) == Queue(PendingOf(init + [last]), CAP + 1)
    ensures last.calldata != w.calldata
  {
    NextIsNew(w, tx, init, last);
    var pending := PendingOf(init + [last]);
    var es := Filled(w, tx, init + [last]).entries;
    assert es[1..] == pending && Excess(es) == 1;
    assert es[0].status == Submitted && Retained(es, 1) == Retained(pending, 0) == pending;
    assert Push(Filled(w, tx, init), last, None) == Queue(pending, CAP + 1);
  }

  /** One name more is too many: a write that is queued, broadcast, observed and followed by 256 other
      writes is put before the signer a second time when it is emitted again. */
  lemma QueuedTwice(w: Payload, tx: string, others: seq<Payload>)
    requires |others| == 256 && DistinctFrom(w, others)
    ensures var ops := [OneShot(w), Op.Observe(0, tx)] + OneShots(others) + [OneShot(w)];
            MintedIn(EMPTY, ops, w.calldata) == 2 && Run(EMPTY, [OneShot(w), Op.Observe(0, tx)]) == Filled(w, tx, [])
  {
    var first, many := [OneShot(w), Op.Observe(0, tx)], OneShots(others);
    BroadcastOnce(w, tx);
    var init, last := others[..CAP - 1], others[CAP - 1];
    assert others == init + [last] && many == OneShots(init) + [OneShot(last)];
    FillsUp(w, tx, init);
    Overfills(w, tx, init, last);
    RunSplits(Filled(w, tx, []), OneShots(init), [OneShot(last)], w.calldata);
    RunOne(Filled(w, tx, init), OneShot(last), w.calldata);
    var full := Queue(PendingOf(others), CAP + 1);
    RunSplits(EMPTY, first, many, w.calldata);
    RunSplits(EMPTY, first + many, [OneShot(w)], w.calldata);
    OneShotMintsIff(full, w);
    RunOne(full, OneShot(w), w.calldata);
  }

  lemma BroadcastOnce(w: Payload, tx: string)
    ensures Run(EMPTY, [OneShot(w), Op.Observe(0, tx)]) == Filled(w, tx, [])
    ensures MintedIn(EMPTY, [OneShot(w), Op.Observe(0, tx)], w.calldata) == 1
  {
    var queued := Queue([Entry(0, w, Pending, None, None)], 1);
    assert Apply(EMPTY, OneShot(w)) == queued;
    assert Apply(queued, Op.Observe(0, tx)) == Filled(w, tx, []);
    assert [OneShot(w), Op.Observe(0, tx)] == [OneShot(w)] + [Op.Observe(0, tx)];
    RunSplits(EMPTY, [OneShot(w)], [Op.Observe(0, tx)], w.calldata);
    RunOne(EMPTY, OneShot(w), w.calldata);
    RunOne(queued, Op.Observe(0, tx), w.calldata);
  }

  // ---- one-shot entries ----

  ghost predicate Recurs(ops: seq<Op>, calldata: string) {
    exists k :: 0 <= k < |ops| && ops[k].Recurring? && ops[k].w.calldata == calldata
  }

  lemma RecursTail(ops: seq<Op>, calldata: string)
    requires ops != []
    ensures Recurs(ops[1..], calldata) ==> Recurs(ops, calldata)
  {
    assert forall k :: 0 <= k < |ops| - 1 ==> ops[1..][k] == ops[k + 1];
  }

  /** One step leaves a submitted entry as it is, up to its transaction hash, or evicts it; only a
      recurring write with its calldata can do anything else. */
  lemma SubmittedStep(q: Queue, op: Op, e: Entry, e': Entry)
    requires Inv(q) && e in q.entries && e.status == Submitted
    requires !(op.Recurring? && op.w.calldata == e.w.calldata)
    requires e' in Apply(q, op).entries && e'.id == e.id
    ensures e'.status == Submitted && e'.w == e.w && e'.key == e.key
  {
    if Mints(q, op) {
      var pushed := Pushed(q, op.w, if op.Superseding? then Some(op.key) else None);
      RetainedMembers(pushed, Excess(pushed));
      SameIdSameEntry(q, e, e', pushed);
    } else {
      var j :| 0 <= j < |q.entries| && q.entries[j] == e;
      var k :| 0 <= k < |Apply(q, op).entries| && Apply(q, op).entries[k] == e';
      EditedInPlace(q, op, k);
      assert j == k;
      SubmittedEdit(q, op, k);
    }
  }

  /** An operation that mints nothing edits entries where they are. */
  lemma EditedInPlace(q: Queue, op: Op, k: nat)
    requires !Mints(q, op) && k < |Apply(q, op).entries|
    ensures |Apply(q, op).entries| == |q.entries| && Apply(q, op).entries[k].id == q.entries[k].id
  {
  }

  lemma SubmittedEdit(q: Queue, op: Op, k: nat)
    requires !Mints(q, op) && k < |q.entries| == |Apply(q, op).entries| && q.entries[k].status == Submitted
    requires !(op.Recurring? && op.w.calldata == q.entries[k].w.calldata)
    ensures var e, e' := q.entries[k], Apply(q, op).entries[k];
            e'.status == Submitted && e'.w == e.w && e'.key == e.key
  {
  }

  lemma SameIdSameEntry(q: Queue, e: Entry, e': Entry, pushed: seq<Entry>)
    requires Inv(q) && e in q.entries && e' in pushed && e'.id == e.id
    requires |pushed| == |q.entries| + 1 && pushed[..|q.entries|] == q.entries && pushed[|q.entries|].id == q.nextId
    ensures e' == e
  {
    var j :| 0 <= j < |q.entries| && q.entries[j] == e;
    var k :| 0 <= k < |pushed| && pushed[k] == e';
    if k < |q.entries| {
      assert pushed[..|q.entries|][k] == q.entries[k];
      assert j == k;
    }
  }

  /** An id that has left the queue, or was skipped, never comes back. */
  lemma GoneStep(q: Queue, op: Op, id: nat)
    requires Inv(q) && id < q.nextId && forall e :: e in q.entries ==> e.id != id
    ensures forall e :: e in Apply(q, op).entries ==> e.id != id
  {
    if Mints(q, op) {
      var pushed := Pushed(q, op.w, if op.Superseding? then Some(op.key) else None);
      RetainedMembers(pushed, Excess(pushed));
    } else {
      forall e | e in Apply(q, op).entries
        ensures e.id != id
      {
        var k :| 0 <= k < |Apply(q, op).entries| && Apply(q, op).entries[k] == e;
        assert q.entries[k] in q.entries && q.entries[k].id == e.id;
      }
    }
  }

  lemma {:induction false} GoneForGood(q: Queue, ops: seq<Op>, id: nat)
    requires Inv(q) && id < q.nextId && forall e :: e in q.entries ==> e.id != id
    ensures forall e :: e in Run(q, ops).entries ==> e.id != id
    decreases |ops|
  {
    if ops != [] {
      GoneStep(q, ops[0], id);
      ApplyKeepsInv(q, ops[0]);
      GoneForGood(Apply(q, ops[0]), ops[1..], id);
    }
  }

  /** A submitted entry never returns to pending while it is retained, and what was broadcast stays on
      record, provided no recurring write shares its calldata. */
  lemma {:induction false} SubmittedStays(q: Queue, ops: seq<Op>, e: Entry, e': Entry)
    requires Inv(q) && e in q.entries && e.status == Submitted
    requires !Recurs(ops, e.w.calldata)
    requires e' in Run(q, ops).entries && e'.id == e.id
    ensures e'.status == Submitted && e'.w == e.w && e'.key == e.key
    decreases |ops|
  {
    if ops == [] {
      var j, k :| 0 <= j < |q.entries| && 0 <= k < |q.entries| && q.entries[j] == e && q.entries[k] == e';
    } else {
      var q', rest := Apply(q, ops[0]), ops[1..];
      ApplyKeepsInv(q, ops[0]);
      assert !(ops[0].Recurring? && ops[0].w.calldata == e.w.calldata);
      if m :| m in q'.entries && m.id == e.id {
        SubmittedStep(q, ops[0], e, m);
        RecursTail(ops, m.w.calldata);
        SubmittedStays(q', rest, m, e');
      } else {
        GoneForGood(q', rest, e.id);
      }
    }
  }

  // ---- recurring entries ----

  ghost predicate IsSubmitted(q: Queue, id: nat) {
    exists e :: e in q.entries && e.id == id && e.status == Submitted
  }

  ghost function SubmittedBit(q: Queue, id: nat): nat {
    if IsSubmitted(q, id) then 1 else 0
  }

  /** This operation flips the entry with this id from submitted back to pending. */
  function RearmNow(q: Queue, op: Op, id: nat): nat {
    if !op.Recurring? || Mints(q, op) then 0 else
      var e := q.entries[FindCalldata(q.entries, op.w.calldata)];
      if e.status == Submitted && e.id == id then 1 else 0
  }

  function ObserveNow(q: Queue, op: Op, id: nat): nat {
    if op.Observe? && op.id == id && FindId(q.entries, id) < |q.entries| then 1 else 0
  }

  function RearmsIn(q: Queue, ops: seq<Op>, id: nat): nat
    decreases |ops|
  {
    if ops == [] then 0 else RearmNow(q, ops[0], id) + RearmsIn(Apply(q, ops[0]), ops[1..], id)
  }

  function ObservesIn(q: Queue, ops: seq<Op>, id: nat): nat
    decreases |ops|
  {
    if ops == [] then 0 else ObserveNow(q, ops[0], id) + ObservesIn(Apply(q, ops[0]), ops[1..], id)
  }

  /** Without an observation, an entry that is submitted after a step was submitted before it and was
      not the one re-armed. */
  lemma SubmittedBefore(q: Queue, op: Op, id: nat)
    requires Inv(q) && IsSubmitted(Apply(q, op), id) && ObserveNow(q, op, id) == 0
    ensures IsSubmitted(q, id) && RearmNow(q, op, id) == 0
  {
    var es, es' := q.entries, Apply(q, op).entries;
    var e' :| e' in es' && e'.id == id && e'.status == Submitted;
    if Mints(q, op) {
      var pushed := Pushed(q, op.w, if op.Superseding? then Some(op.key) else None);
      RetainedMembers(pushed, Excess(pushed));
      assert e' in es;
    } else {
      var k :| 0 <= k < |es'| && es'[k] == e';
      EditedInPlace(q, op, k);
      assert es[k] in es;
      EditSubmitted(q, op, k, id);
    }
  }

  lemma EditSubmitted(q: Queue, op: Op, k: nat, id: nat)
    requires Inv(q) && !Mints(q, op) && k < |q.entries| == |Apply(q, op).entries| && q.entries[k].id == id
    requires Apply(q, op).entries[k].status == Submitted && ObserveNow(q, op, id) == 0
    ensures q.entries[k].status == Submitted && RearmNow(q, op, id) == 0
  {
    if op.Recurring? {
      var i := FindCalldata(q.entries, op.w.calldata);
      assert q.entries[i].id == id ==> i == k;
    } else if op.Observe? {
      var i := FindId(q.entries, op.id);
      assert i < |q.entries| && op.id == id ==> ObserveNow(q, op, id) == 1;
    }
  }

  lemma RearmedWasSubmitted(q: Queue, op: Op, id: nat)
    requires RearmNow(q, op, id) == 1
    ensures IsSubmitted(q, id)
  {
    assert q.entries[FindCalldata(q.entries, op.w.calldata)] in q.entries;
  }

  lemma RearmStep(q: Queue, op: Op, id: nat)
    requires Inv(q)
    ensures RearmNow(q, op, id) + SubmittedBit(Apply(q, op), id) <= ObserveNow(q, op, id) + SubmittedBit(q, id)
  {
    if RearmNow(q, op, id) == 1 {
      RearmedWasSubmitted(q, op, id);
    }
    if IsSubmitted(Apply(q, op), id) && ObserveNow(q, op, id) == 0 {
      SubmittedBefore(q, op, id);
    }
  }

  /** Over any history an entry is re-armed at most once per observed broadcast. */
  lemma {:induction false} RearmsBounded(q: Queue, ops: seq<Op>, id: nat)
    requires Inv(q)
    ensures RearmsIn(q, ops, id) + SubmittedBit(Run(q, ops), id) <= ObservesIn(q, ops, id) + SubmittedBit(q, id)
    decreases |ops|
  {
    if ops != [] {
      RearmStep(q, ops[0], id);
      ApplyKeepsInv(q, ops[0]);
      RearmsBounded(Apply(q, ops[0]), ops[1..], id);
    }
  }
}
