/** The operator alert: latched by a slash or a reputation drop of more than 5% between two
    consecutive observations, until it is cleared. */
module Alerts {
  import opened Prelude

  datatype Reading = Reading(reputation: u32, stake: u128)

  datatype Alert = Alert(repDrop: Option<(u32, u32)>, slash: Option<(u128, u128)>)

  /** The previous observation and the latched alert. */
  datatype Detector = Detector(prev: Option<Reading>, alert: Option<Alert>)

  const NO_HISTORY := Detector(None, None)

  /** Strictly more than 5% lower, in integers. */
  predicate RepDropped(a: Reading, b: Reading) {
    b.reputation * 100 < a.reputation * 95
  }

  predicate Slashed(a: Reading, b: Reading) {
    b.stake < a.stake
  }

  function AlertBetween(a: Reading, b: Reading): Alert {
    Alert(if RepDropped(a, b) then Some((a.reputation, b.reputation)) else None,
          if Slashed(a, b) then Some((a.stake, b.stake)) else None)
  }

  function Observed(d: Detector, r: Reading): Detector {
    if d.prev.Some? && (RepDropped(d.prev.value, r) || Slashed(d.prev.value, r))
    then Detector(Some(r), Some(AlertBetween(d.prev.value, r)))
    else Detector(Some(r), d.alert)
  }

  function Cleared(d: Detector): Detector {
    d.(alert := None)
  }

  datatype Event = Observe(reading: Reading) | Clear

  /** The detector after a history. */
  function After(events: seq<Event>): Detector {
    if events == [] then NO_HISTORY else
      var before := After(events[..|events| - 1]);
      match events[|events| - 1]
      case Observe(r) => Observed(before, r)
      case Clear => Cleared(before)
  }

  // ---- what a history says, without running it ----

  /** Observation `j` is the one right after observation `i`. */
  ghost predicate Adjacent(events: seq<Event>, i: int, j: int) {
    && 0 <= i < j < |events| && events[i].Observe? && events[j].Observe?
    && forall k :: i < k < j ==> events[k].Clear?
  }

  /** Nothing was cleared after event `j`. */
  ghost predicate Uncleared(events: seq<Event>, j: int) {
    forall k :: 0 <= k && j < k < |events| ==> events[k].Observe?
  }

  ghost predicate Dangerous(events: seq<Event>, i: int, j: int)
    requires Adjacent(events, i, j)
  {
    RepDropped(events[i].reading, events[j].reading) || Slashed(events[i].reading, events[j].reading)
  }

  /** Some adjacent pair of observations shows a danger that has not been cleared since. */
  ghost predicate DangerSinceClear(events: seq<Event>) {
    exists i, j :: Adjacent(events, i, j) && Uncleared(events, j) && Dangerous(events, i, j)
  }

  ghost predicate LastObserved(events: seq<Event>, i: int) {
    0 <= i < |events| && events[i].Observe? && forall k :: i < k < |events| ==> events[k].Clear?
  }

  lemma {:induction false} RemembersLast(events: seq<Event>)
    ensures Remembered(events, After(events).prev)
  {
    if events != [] {
      var n, init := |events| - 1, events[..|events| - 1];
      RemembersLast(init);
      if events[n].Observe? {
        assert LastObserved(events, n);
      } else if After(init).prev.Some? {
        var i :| LastObserved(init, i) && init[i].reading == After(init).prev.value;
        assert LastObserved(events, i);
      }
    }
  }

  lemma DangerGrows(events: seq<Event>, e: Event)
    requires e.Observe? && DangerSinceClear(events)
    ensures DangerSinceClear(events + [e])
  {
    var longer := events + [e];
    var i, j :| Adjacent(events, i, j) && Uncleared(events, j) && Dangerous(events, i, j);
    assert longer[i] == events[i] && longer[j] == events[j];
    assert Adjacent(longer, i, j) by {
      assert forall k :: i < k < j ==> longer[k] == events[k];
    }
    assert Uncleared(longer, j) by {
      assert forall k :: j < k < |events| ==> longer[k] == events[k];
    }
    assert Dangerous(longer, i, j);
  }

  lemma DangerShrinks(events: seq<Event>, i: int, j: int)
    requires events != [] && Adjacent(events, i, j) && Uncleared(events, j) && Dangerous(events, i, j)
    requires j < |events| - 1
    ensures DangerSinceClear(events[..|events| - 1])
  {
    var init := events[..|events| - 1];
    assert Adjacent(init, i, j) && Uncleared(init, j) && Dangerous(init, i, j);
  }

  /** After any sequence of observations and clears, an alert is latched if and only if some adjacent
      pair of observations, whose later one came after the last clear, lowered the stake or lowered
      the reputation by strictly more than 5%. */
  lemma {:induction false} LatchedIffDanger(events: seq<Event>)
    ensures After(events).alert.Some? <==> DangerSinceClear(events)
  {
    if events != [] {
      var n, init := |events| - 1, events[..|events| - 1];
      assert events == init + [events[n]];
      LatchedIffDanger(init);
      RemembersLast(init);
      if events[n].Clear? {
        assert forall j :: 0 <= j < |events| && events[j].Observe? ==> !Uncleared(events, j);
      } else {
        LatchForward(events, init, n, After(init));
        LatchBackward(events, init, n, After(init));
      }
    }
  }

  /** What `RemembersLast` promises, as a predicate. */
  ghost predicate Remembered(events: seq<Event>, prev: Option<Reading>) {
    match prev
    case None => forall k :: 0 <= k < |events| ==> events[k].Clear?
    case Some(r) => exists i :: LastObserved(events, i) && events[i].reading == r
  }

  /** A danger between the last observation and a new one. */
  lemma NewDanger(events: seq<Event>, init: seq<Event>, n: nat, prev: Reading)
    requires |events| == n + 1 && init == events[..n] && events[n].Observe? && Remembered(init, Some(prev))
    requires RepDropped(prev, events[n].reading) || Slashed(prev, events[n].reading)
    ensures DangerSinceClear(events)
  {
    var i :| LastObserved(init, i) && init[i].reading == prev;
    PairAtEnd(events, init, n, i);
    assert events[i] == init[i];
    assert Dangerous(events, i, n);
  }

  /** The last observation and a new one are the only adjacent pair that ends at the new one. */
  lemma NewPair(events: seq<Event>, init: seq<Event>, n: nat, prev: Option<Reading>, i: int)
    requires |events| == n + 1 && init == events[..n] && events[n].Observe? && Remembered(init, prev)
    requires Adjacent(events, i, n)
    ensures prev == Some(events[i].reading)
  {
    assert events[i] == init[i];
    if prev.Some? {
      var k :| LastObserved(init, k) && init[k].reading == prev.value;
      PairAtEnd(events, init, n, k);
    }
  }

  lemma LatchForward(events: seq<Event>, init: seq<Event>, n: nat, d: Detector)
    requires |events| == n + 1 && init == events[..n] && events[n].Observe? && Remembered(init, d.prev)
    requires events == init + [events[n]]
    requires d.alert.Some? ==> DangerSinceClear(init)
    ensures Observed(d, events[n].reading).alert.Some? ==> DangerSinceClear(events)
  {
    var r := events[n].reading;
    if d.prev.Some? && (RepDropped(d.prev.value, r) || Slashed(d.prev.value, r)) {
      NewDanger(events, init, n, d.prev.value);
    } else if d.alert.Some? {
      DangerGrows(init, events[n]);
    }
  }

  lemma LatchBackward(events: seq<Event>, init: seq<Event>, n: nat, d: Detector)
    requires |events| == n + 1 && init == events[..n] && events[n].Observe? && Remembered(init, d.prev)
    requires DangerSinceClear(init) ==> d.alert.Some?
    ensures DangerSinceClear(events) ==> Observed(d, events[n].reading).alert.Some?
  {
    if DangerSinceClear(events) {
      var i, j :| Adjacent(events, i, j) && Uncleared(events, j) && Dangerous(events, i, j);
      if j < n {
        DangerShrinks(events, i, j);
      } else {
        NewPair(events, init, n, d.prev, i);
      }
    }
  }

  lemma PairAtEnd(events: seq<Event>, init: seq<Event>, n: nat, i: int)
    requires |events| == n + 1 && init == events[..n] && events[n].Observe? && LastObserved(init, i)
    ensures Adjacent(events, i, n) && Uncleared(events, n)
    ensures forall i' :: Adjacent(events, i', n) ==> i' == i
  {
    assert forall k :: 0 <= k < n ==> events[k] == init[k];
  }

  // ---- what a latched alert shows ----

  /** The alert shows the earlier and the later value of what fell, and nothing of what did not. */
  predicate ShowsFall(a: Alert, earlier: Reading, later: Reading) {
    && a.repDrop == (if 100 * later.reputation < 95 * earlier.reputation
                     then Some((earlier.reputation, later.reputation)) else None)
    && a.slash == (if later.stake < earlier.stake then Some((earlier.stake, later.stake)) else None)
    && (a.repDrop.Some? || a.slash.Some?)
  }

  /** `j` ends the last dangerous pair, it has not been cleared, and `a` shows it. */
  ghost predicate LatestDanger(events: seq<Event>, i: int, j: int, a: Alert) {
    && Adjacent(events, i, j) && Uncleared(events, j) && ShowsFall(a, events[i].reading, events[j].reading)
    && forall i', j' :: j < j' && Adjacent(events, i', j') ==> !Dangerous(events, i', j')
  }

  lemma LatestAtEnd(events: seq<Event>, init: seq<Event>, n: nat, prev: Reading) returns (i: int)
    requires |events| == n + 1 && init == events[..n] && events[n].Observe? && Remembered(init, Some(prev))
    requires RepDropped(prev, events[n].reading) || Slashed(prev, events[n].reading)
    ensures LatestDanger(events, i, n, AlertBetween(prev, events[n].reading))
  {
    i :| LastObserved(init, i) && init[i].reading == prev;
    PairAtEnd(events, init, n, i);
    assert events[i] == init[i];
  }

  lemma LatestStays(events: seq<Event>, init: seq<Event>, n: nat, d: Detector, i: int, j: int, a: Alert)
    requires |events| == n + 1 && init == events[..n] && events[n].Observe? && Remembered(init, d.prev)
    requires LatestDanger(init, i, j, a)
    requires d.prev.Some? ==> !RepDropped(d.prev.value, events[n].reading) && !Slashed(d.prev.value, events[n].reading)
    ensures LatestDanger(events, i, j, a)
  {
    assert forall k :: 0 <= k < n ==> events[k] == init[k];
    forall i', j' | j < j' && Adjacent(events, i', j')
      ensures !Dangerous(events, i', j')
    {
      if j' == n {
        NewPair(events, init, n, d.prev, i');
      } else {
        assert Adjacent(init, i', j');
        assert !Dangerous(init, i', j');
      }
    }
  }

  /** A latched alert shows, in their order, the earlier and the later value of the last adjacent pair of
      observations that was dangerous and has not been cleared since. */
  lemma {:induction false} AlertShowsLatestDanger(events: seq<Event>) returns (i: int, j: int)
    requires After(events).alert.Some?
    ensures LatestDanger(events, i, j, After(events).alert.value)
    decreases |events|
  {
    var n, init := |events| - 1, events[..|events| - 1];
    var before := After(init);
    assert events[n].Observe?;
    var r := events[n].reading;
    RemembersLast(init);
    if before.prev.Some? && (RepDropped(before.prev.value, r) || Slashed(before.prev.value, r)) {
      i := LatestAtEnd(events, init, n, before.prev.value);
      j := n;
    } else {
      i, j := AlertShowsLatestDanger(init);
      LatestStays(events, init, n, before, i, j, before.alert.value);
    }
  }

  // ---- slow erosion ----

  ghost predicate NoRepAlert(readings: seq<Reading>) {
    forall i, j :: 0 <= i && j == i + 1 && j < |readings| ==> !RepDropped(readings[i], readings[j])
  }

  function Pow(b: nat, n: nat): nat {
    if n == 0 then 1 else b * Pow(b, n - 1)
  }

  /** n polls without a reputation alert still allow the score to fall to 95% each time, and no lower:
      rep_n · 100^n >= rep_0 · 95^n. */
  lemma {:induction false} ErosionBound(readings: seq<Reading>)
    requires |readings| > 0 && NoRepAlert(readings)
    ensures var n := |readings| - 1;
            readings[n].reputation * Pow(100, n) >= readings[0].reputation * Pow(95, n)
    decreases |readings|
  {
    var n := |readings| - 1;
    if n > 0 {
      var init := readings[..n];
      ErosionBound(init);
      assert !RepDropped(readings[n - 1], readings[n]);
      ErosionStep(readings[n].reputation, readings[n - 1].reputation, readings[0].reputation,
                  Pow(100, n - 1), Pow(95, n - 1));
    }
  }

  lemma ErosionStep(r: nat, prev: nat, first: nat, p: nat, q: nat)
    requires r * 100 >= prev * 95 && prev * p >= first * q
    ensures r * (100 * p) >= first * (95 * q)
  {
    calc {
      r * (100 * p);
      (r * 100) * p;
      >= { Monotone(r * 100, prev * 95, p); }
      (prev * 95) * p;
      95 * (prev * p);
      >=
      95 * (first * q);
      first * (95 * q);
    }
  }
}
