/**
 * The deadline timer of DeadlineTimer.cs: a fixed deadline, an optional
 * ticking callback, an optional hit callback and a one-way `decayed` flag.
 * Callbacks are recorded, in the order they run, in a ghost log.
 */
module Timers {
  import opened Host

  /** One callback run, with the payload it was given. */
  datatype Fired<E> = Ticked(evt: E) | Hit(evt: E)

  /** The number of hit callbacks in a log. */
  function HitCount<E>(log: seq<Fired<E>>): nat
  {
    if log == [] then 0 else HitCount(log[..|log| - 1]) + (if log[|log| - 1].Hit? then 1 else 0)
  }

  lemma HitCountAppend<E>(log: seq<Fired<E>>, f: Fired<E>)
    ensures HitCount(log + [f]) == HitCount(log) + (if f.Hit? then 1 else 0)
  {
    assert (log + [f])[..|log|] == log;
  }

  class DeadlineTimer<E> {
    const deadline: DateTime
    const hasTicking: bool
    const hasHit: bool
    var isDecay: bool
    ghost var fired: seq<Fired<E>>

    /** A timer for `deadline`; a callback the caller leaves out (null) is never run. */
    constructor (deadline: DateTime, hasTicking: bool, hasHit: bool)
      ensures this.deadline == deadline && this.hasTicking == hasTicking && this.hasHit == hasHit
      ensures !isDecay && fired == []
    {
      this.deadline := deadline;
      this.hasTicking := hasTicking;
      this.hasHit := hasHit;
      isDecay := false;
      fired := [];
    }

    /** The deadline is hit at and after the deadline itself. */
    predicate IsDeadlineHit(now: DateTime)
      ensures IsDeadlineHit(now) <==> now == deadline || Before(deadline, now)
    {
      !Before(now, deadline)
    }

    /**
     * As written: at or after the deadline, runs the hit callback, marks the
     * timer decayed and returns true -- on every such call, whether or not it
     * had decayed already; before the deadline, runs the ticking callback and
     * returns false.
     */
    method Update(now: DateTime, evt: E) returns (hit: bool)
      modifies this
      ensures old(isDecay) ==> isDecay
      ensures hit <==> IsDeadlineHit(now)
      ensures hit ==> isDecay && fired == old(fired) + (if hasHit then [Hit(evt)] else [])
      ensures !hit ==> isDecay == old(isDecay) && fired == old(fired) + (if hasTicking then [Ticked(evt)] else [])
    {
      if IsDeadlineHit(now) {
        if hasHit {
          fired := fired + [Hit(evt)];
        }
        isDecay := true;
        return true;
      }
      if hasTicking {
        fired := fired + [Ticked(evt)];
      }
      return false;
    }

    /** The hit callback has run exactly once if the timer has decayed, and never otherwise. */
    ghost predicate FiresOnce()
      reads this
    {
      HitCount(fired) == if hasHit && isDecay then 1 else 0
    }

    /**
     * Corrected update: as Update, except that a decayed timer runs no hit
     * callback again, so the hit callback runs once over the timer's life.
     */
    method UpdateOnce(now: DateTime, evt: E) returns (hit: bool)
      requires FiresOnce()
      modifies this
      ensures FiresOnce()
      ensures hit <==> IsDeadlineHit(now)
      ensures hit ==> isDecay && fired == old(fired) + (if hasHit && !old(isDecay) then [Hit(evt)] else [])
      ensures !hit ==> isDecay == old(isDecay) && fired == old(fired) + (if hasTicking then [Ticked(evt)] else [])
    {
      if IsDeadlineHit(now) {
        if hasHit && !isDecay {
          HitCountAppend(fired, Hit(evt));
          fired := fired + [Hit(evt)];
        }
        isDecay := true;
        return true;
      }
      if hasTicking {
        HitCountAppend(fired, Ticked(evt));
        fired := fired + [Ticked(evt)];
      }
      return false;
    }
  }

  /** Once the deadline is hit it stays hit for every later time: with a clock that
      does not go back, every Update after one that returned true returns true. */
  lemma HitIsPermanent<E>(t: DeadlineTimer<E>, now: DateTime, later: DateTime)
    requires t.IsDeadlineHit(now) && !Before(later, now)
    ensures t.IsDeadlineHit(later)
  {
    BeforeIsStrictTotalOrder(later, now, t.deadline);
  }

  /** Two updates at the deadline run the hit callback twice: the timer does not
      consult its own decayed flag. */
  method HitFiresOnEveryLateUpdate<E>(deadline: DateTime, evt: E) returns (t: DeadlineTimer<E>)
    ensures fresh(t) && t.isDecay
    ensures t.fired == [Hit(evt), Hit(evt)] && HitCount(t.fired) == 2
  {
    t := new DeadlineTimer(deadline, true, true);
    var first := t.Update(deadline, evt);
    var second := t.Update(deadline, evt);
    assert first && second;
    HitCountAppend([Hit(evt)], Hit(evt));
    HitCountAppend([], Hit(evt));
    assert [] + [Hit(evt)] == [Hit(evt)];
  }

  /** With the corrected update, the same two calls run the hit callback once. */
  method HitFiresOnceWithUpdateOnce<E>(deadline: DateTime, evt: E) returns (t: DeadlineTimer<E>)
    ensures fresh(t) && t.isDecay
    ensures t.fired == [Hit(evt)] && HitCount(t.fired) == 1
  {
    t := new DeadlineTimer(deadline, true, true);
    var first := t.UpdateOnce(deadline, evt);
    var second := t.UpdateOnce(deadline, evt);
    assert first && second;
  }
}
