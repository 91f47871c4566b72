/**
 * Periodic signal toggles (oombak_local_sim/src/oscillator.rs). An
 * oscillator drives one signal, alternating its high and low value every
 * `period` time units; a group keeps at most one oscillator per signal in a
 * priority queue whose top is the oscillator due first, the greatest signal
 * name first among those due at the same time.
 *
 * The queue (a BinaryHeap) is modelled as a sequence whose top is its
 * greatest element in the oscillators' order; the heap's internal layout is
 * not part of this model.
 */
module Oscillators {
  import opened Wrappers
  import opened Bits

  datatype State = Low | High

  datatype Oscillator = Oscillator(
    signalName: string,
    period: nat,
    nextState: State,
    nextTriggerTime: nat,
    lowStateValue: BitVec,
    highStateValue: BitVec)

  /** Oscillator::new: first fires at `currentTime + period`, with the high value. */
  function NewOscillator(signalName: string, period: nat, currentTime: nat, low: BitVec, high: BitVec): (o: Oscillator)
    ensures o.signalName == signalName && o.period == period
    ensures o.nextState == High && o.nextTriggerTime == currentTime + period
    ensures o.lowStateValue == low && o.highStateValue == high
  {
    Oscillator(signalName, period, High, currentTime + period, low, high)
  }

  function Flip(s: State): State {
    match s
    case Low => High
    case High => Low
  }

  /** trip: the value of the state due, and the oscillator moved one period on in the other state. */
  function Trip(o: Oscillator): (Oscillator, BitVec) {
    (o.(nextTriggerTime := o.nextTriggerTime + o.period, nextState := Flip(o.nextState)),
     ValueIn(o, o.nextState))
  }

  /** The k-th firing of an oscillator: its trigger time and the value it gives. */
  function Firing(o: Oscillator, k: nat): (Oscillator, BitVec)
  {
    if k == 0 then Trip(o) else Trip(Firing(o, k - 1).0)
  }

  /** The value an oscillator gives in a state. */
  function ValueIn(o: Oscillator, s: State): BitVec {
    if s == High then o.highStateValue else o.lowStateValue
  }

  /** After k + 1 firings the trigger time has moved k + 1 periods on; the rest of the oscillator only changes state. */
  lemma {:induction false} FiringTimes(o: Oscillator, k: nat)
    ensures Firing(o, k).0.nextTriggerTime == o.nextTriggerTime + (k + 1) * o.period
    ensures Firing(o, k).0 == o.(nextTriggerTime := Firing(o, k).0.nextTriggerTime, nextState := Firing(o, k).0.nextState)
  {
    if k > 0 {
      FiringTimes(o, k - 1);
      assert (k + 1) * o.period == k * o.period + o.period;
    }
  }

  /** Firings alternate the state: even firings give the state due first, odd ones the other. */
  lemma {:induction false} FiringStates(o: Oscillator, k: nat)
    ensures Firing(o, k).0.nextState == (if k % 2 == 0 then Flip(o.nextState) else o.nextState)
    ensures Firing(o, k).1 == ValueIn(o, if k % 2 == 0 then o.nextState else Flip(o.nextState))
  {
    if k > 0 {
      FiringStates(o, k - 1);
      FiringTimes(o, k - 1);
    }
  }

  /**
   * A new oscillator fires every period from `currentTime + period`, giving
   * the high value first and then alternating low and high.
   */
  lemma {:induction false} FiringsAlternate(signalName: string, period: nat, currentTime: nat, low: BitVec, high: BitVec, k: nat)
    ensures var o := NewOscillator(signalName, period, currentTime, low, high);
      && Firing(o, k).1 == (if k % 2 == 0 then high else low)
      && Firing(o, k).0.nextTriggerTime == currentTime + period + (k + 1) * period
      && Firing(o, k).0.signalName == signalName && Firing(o, k).0.period == period
  {
    var o := NewOscillator(signalName, period, currentTime, low, high);
    FiringTimes(o, k);
    FiringStates(o, k);
  }

  /** Strict lexicographic order on strings, as Rust compares `String`s. */
  predicate StrLess(a: string, b: string) {
    if a == [] then b != []
    else if b == [] then false
    else a[0] < b[0] || (a[0] == b[0] && StrLess(a[1..], b[1..]))
  }

  lemma {:induction false} StrLessIrreflexive(a: string)
    ensures !StrLess(a, a)
  {
    if a != [] {
      StrLessIrreflexive(a[1..]);
    }
  }

  lemma {:induction false} StrLessTransitive(a: string, b: string, c: string)
    requires StrLess(a, b) && StrLess(b, c)
    ensures StrLess(a, c)
  {
    if a != [] && b != [] && c != [] && a[0] == b[0] && b[0] == c[0] {
      StrLessTransitive(a[1..], b[1..], c[1..]);
    }
  }

  lemma {:induction false} StrLessTotal(a: string, b: string)
    requires a != b
    ensures StrLess(a, b) || StrLess(b, a)
  {
    if a != [] && b != [] && a[0] == b[0] {
      assert a == [a[0]] + a[1..] && b == [b[0]] + b[1..];
      StrLessTotal(a[1..], b[1..]);
    }
  }

  /**
   * The oscillators' order (Ord): `a` is greater than `b`, that is comes off
   * the queue first, when it is due earlier, or due at the same time with a
   * greater signal name.
   */
  predicate Greater(a: Oscillator, b: Oscillator) {
    a.nextTriggerTime < b.nextTriggerTime
    || (a.nextTriggerTime == b.nextTriggerTime && StrLess(b.signalName, a.signalName))
  }

  lemma {:induction false} GreaterIrreflexive(a: Oscillator)
    ensures !Greater(a, a)
  {
    StrLessIrreflexive(a.signalName);
  }

  lemma {:induction false} GreaterTransitive(a: Oscillator, b: Oscillator, c: Oscillator)
    requires Greater(a, b) && Greater(b, c)
    ensures Greater(a, c)
  {
    if a.nextTriggerTime == b.nextTriggerTime == c.nextTriggerTime {
      StrLessTransitive(c.signalName, b.signalName, a.signalName);
    }
  }

  /** Oscillators with different signal names are always ordered one way or the other. */
  lemma {:induction false} GreaterTotal(a: Oscillator, b: Oscillator)
    requires a.signalName != b.signalName
    ensures Greater(a, b) || Greater(b, a)
  {
    StrLessTotal(a.signalName, b.signalName);
  }

  /** The position of the queue's top: no oscillator in the queue is greater. */
  function Top(q: seq<Oscillator>): (i: nat)
    requires q != []
    ensures i < |q| && forall k :: 0 <= k < |q| ==> !Greater(q[k], q[i])
  {
    if |q| == 1 then
      GreaterIrreflexive(q[0]);
      0
    else
      var n := |q| - 1;
      var j := Top(q[..n]);
      assert forall k :: 0 <= k < n ==> q[..n][k] == q[k];
      if Greater(q[n], q[j]) then
        GreaterIrreflexive(q[n]);
        assert forall k :: 0 <= k < n ==> !Greater(q[k], q[n]) by {
          forall k | 0 <= k < n && Greater(q[k], q[n])
            ensures false
          {
            GreaterTransitive(q[k], q[n], q[j]);
          }
        }
        n
      else
        j
  }

  /** No two oscillators in the queue drive the same signal. */
  predicate UniqueNames(q: seq<Oscillator>) {
    forall i, j :: 0 <= i < j < |q| ==> q[i].signalName != q[j].signalName
  }

  /**
   * With one oscillator per signal the top is the only oscillator that no
   * other is greater than: whichever heap layout, peek gives it.
   */
  lemma {:induction false} TopUnique(q: seq<Oscillator>, m: nat)
    requires q != [] && UniqueNames(q) && m < |q|
    requires forall k :: 0 <= k < |q| ==> !Greater(q[k], q[m])
    ensures m == Top(q)
  {
    var i := Top(q);
    if m != i {
      if m < i {
        GreaterTotal(q[m], q[i]);
      } else {
        GreaterTotal(q[i], q[m]);
      }
    }
  }

  /** The oscillators not driving `name`, in order (retain). */
  function Without(q: seq<Oscillator>, name: string): (r: seq<Oscillator>)
  {
    if q == [] then []
    else if q[0].signalName == name then Without(q[1..], name)
    else [q[0]] + Without(q[1..], name)
  }

  /** Removing by name drops exactly the oscillators with that name. */
  lemma {:induction false} WithoutSpec(q: seq<Oscillator>, name: string)
    ensures forall o :: o in Without(q, name) <==> o in q && o.signalName != name
    ensures UniqueNames(q) ==> UniqueNames(Without(q, name))
  {
    if q != [] {
      WithoutSpec(q[1..], name);
      if UniqueNames(q) {
        var r := Without(q, name);
        if q[0].signalName != name {
          forall i, j | 0 <= i < j < |r|
            ensures r[i].signalName != r[j].signalName
          {
            if i == 0 {
              assert r[j] in Without(q[1..], name);
              var k :| 0 <= k < |q[1..]| && q[1..][k] == r[j];
              assert q[k + 1] == r[j];
            } else {
              assert r[i] == Without(q[1..], name)[i - 1] && r[j] == Without(q[1..], name)[j - 1];
            }
          }
        }
      }
    }
  }

  /** The group: a priority queue of oscillators. */
  class OscillatorGroup {
    var queue: seq<Oscillator>

    /** At most one oscillator per signal. */
    predicate Valid()
      reads this
    {
      UniqueNames(queue)
    }

    /** The default group: empty. */
    constructor()
      ensures queue == [] && Valid()
    {
      queue := [];
    }

    /** remove: every oscillator driving `name` is dropped, every other kept. */
    method Remove(name: string)
      modifies this
      ensures queue == Without(old(queue), name)
      ensures forall o :: o in queue <==> o in old(queue) && o.signalName != name
      ensures old(Valid()) ==> Valid()
    {
      WithoutSpec(queue, name);
      queue := Without(queue, name);
    }

    /**
     * insert: the oscillator replaces any other driving its signal, so it is
     * the only one with that name; every oscillator for another signal stays.
     */
    method Insert(o: Oscillator)
      requires Valid()
      modifies this
      ensures Valid()
      ensures queue == Without(old(queue), o.signalName) + [o]
      ensures forall x :: x in queue <==> x == o || (x in old(queue) && x.signalName != o.signalName)
      ensures forall k :: 0 <= k < |queue| && queue[k].signalName == o.signalName ==> queue[k] == o
    {
      Remove(o.signalName);
      queue := queue + [o];
    }

    /** next_trigger_time: the earliest trigger time, none for an empty group. */
    function NextTriggerTime(): (r: Option<nat>)
      reads this
      ensures r.None? <==> queue == []
      ensures r.Some? ==>
        && (exists k :: 0 <= k < |queue| && queue[k].nextTriggerTime == r.value)
        && forall k :: 0 <= k < |queue| ==> r.value <= queue[k].nextTriggerTime
    {
      if queue == [] then None else Some(queue[Top(queue)].nextTriggerTime)
    }

    /**
     * try_pop: unless the top oscillator is due exactly at `currentTime`,
     * nothing happens; otherwise it fires, giving its signal and value, and
     * goes back in the queue one period later.
     */
    method TryPop(currentTime: nat) returns (r: Option<(string, BitVec)>)
      requires Valid()
      modifies this
      ensures Valid() && |queue| == |old(queue)|
      ensures old(queue) == [] || old(queue)[Top(old(queue))].nextTriggerTime != currentTime ==>
        r.None? && queue == old(queue)
      ensures old(queue) != [] && old(queue)[Top(old(queue))].nextTriggerTime == currentTime ==>
        var i := Top(old(queue));
        var (tripped, value) := Trip(old(queue)[i]);
        && r == Some((old(queue)[i].signalName, value))
        && queue == old(queue)[..i] + old(queue)[i + 1..] + [tripped]
    {
      if queue == [] {
        return None;
      }
      var i := Top(queue);
      if queue[i].nextTriggerTime != currentTime {
        return None;
      }
      var popped := queue[i];
      var (tripped, value) := Trip(popped);
      var rest := queue[..i] + queue[i + 1..];
      assert forall k :: 0 <= k < |rest| ==> rest[k] == if k < i then queue[k] else queue[k + 1];
      queue := rest + [tripped];
      r := Some((popped.signalName, value));
    }
  }

  /**
   * The oscillator try_pop fires is due earliest, and among those due at
   * that time it has the greatest signal name.
   */
  lemma {:induction false} PopsEarliestGreatestName(q: seq<Oscillator>)
    requires q != [] && UniqueNames(q)
    ensures forall k :: 0 <= k < |q| ==> q[Top(q)].nextTriggerTime <= q[k].nextTriggerTime
    ensures forall k :: 0 <= k < |q| && k != Top(q) && q[k].nextTriggerTime == q[Top(q)].nextTriggerTime ==>
      StrLess(q[k].signalName, q[Top(q)].signalName)
  {
    var i := Top(q);
    forall k | 0 <= k < |q| && k != i
      ensures q[i].nextTriggerTime <= q[k].nextTriggerTime
      ensures q[k].nextTriggerTime == q[i].nextTriggerTime ==> StrLess(q[k].signalName, q[i].signalName)
    {
      GreaterTotal(q[i], q[k]);
    }
  }
}
