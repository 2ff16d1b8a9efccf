/** One timer slot of the time server, as a value.

    A slot (client_timer_t in time_server.c) is OFF, PERIODIC, ABSOLUTE or
    RELATIVE and carries its period and its absolute deadline in
    nanoseconds.  This module says what firing does to a slot and what a
    whole tick does to it. */
module TimerSlot {
  import opened TimeoutQueue

  /** TIMER_TYPE_OFF, _PERIODIC, _ABSOLUTE and _RELATIVE, in that order (0 to 3). */
  datatype TimerType = Off | Periodic | Absolute | Relative

  /** The part of a slot the control calls set: type, periodic_ns, timeout_time. */
  datatype Timer = Timer(timerType: TimerType, periodicNs: nat, timeoutTime: nat)

  /** A prev or next pointer of the list: NULL or another slot. */
  datatype Link = Null | Ptr(slot: Slot)

  /** The prev and next pointers of one slot. */
  datatype Links = Links(prev: Link, next: Link)

  /** A slot as post_init leaves it: OFF, period and deadline zero. */
  const OffTimer: Timer := Timer(Off, 0, 0)

  /** A periodic slot has a positive period (see ZeroPeriodRequeueFixpoint). */
  ghost predicate WellFormed(t: Timer) {
    t.timerType == Periodic ==> t.periodicNs > 0
  }

  /** An armed slot whose deadline has been reached fires at time `now`. */
  predicate Due(t: Timer, now: nat) {
    t.timerType != Off && t.timeoutTime <= now
  }

  /** What signal_client does to the fired slot: a periodic one moves on by
      one period, a one-shot one is turned OFF. */
  function Signalled(t: Timer): (r: Timer)
    requires t.timerType != Off
    ensures r.periodicNs == t.periodicNs
    ensures r.timerType == (if t.timerType == Periodic then Periodic else Off)
    ensures r.timerType == Off ==> r.timeoutTime == t.timeoutTime
    ensures r.timerType != Off ==> r.timeoutTime == t.timeoutTime + t.periodicNs
  {
    if t.timerType == Periodic then t.(timeoutTime := t.timeoutTime + t.periodicNs)
    else t.(timerType := Off)
  }

  /** The first deadline of the series d, d + p, d + 2p, ... that lies
      after `now`: where a periodic slot ends up once a drain at `now` has
      fired it as often as it is due. */
  function NextDeadline(d: nat, p: nat, now: nat): (r: nat)
    requires p > 0
    ensures now < r && d <= r
    ensures d < r ==> r - p <= now
    decreases if d <= now then now + 1 - d else 0
  {
    if now < d then d else NextDeadline(d + p, p, now)
  }

  /** NextDeadline is a whole number of periods after the first deadline:
      the slot fires exactly `k` times, each time moving by one period. */
  lemma {:induction false} NextDeadlineSteps(d: nat, p: nat, now: nat) returns (k: nat)
    requires p > 0
    ensures NextDeadline(d, p, now) == d + k * p
    ensures k == 0 <==> now < d
    decreases if d <= now then now + 1 - d else 0
  {
    if now < d {
      k := 0;
    } else {
      var k' := NextDeadlineSteps(d + p, p, now);
      k := k' + 1;
      assert d + p + k' * p == d + (k' + 1) * p;
    }
  }

  /** What one tick at time `now` does to a slot: unchanged when it is not
      due, otherwise OFF for a one-shot and moved to NextDeadline for a
      periodic one. */
  function Fire(t: Timer, now: nat): (r: Timer)
    requires WellFormed(t)
    ensures !Due(r, now)
    ensures WellFormed(r)
    ensures r.periodicNs == t.periodicNs
    ensures r != t <==> Due(t, now)
  {
    if !Due(t, now) then t
    else if t.timerType == Periodic then t.(timeoutTime := NextDeadline(t.timeoutTime, t.periodicNs, now))
    else t.(timerType := Off)
  }

  /** `x` is reached from `d` by steps of `p`, each taken from a deadline
      that was due at `now`. */
  ghost predicate Reaches(d: nat, p: nat, now: nat, x: nat)
    decreases if d <= x then x - d else 0
  {
    x == d || (d <= now && 0 < p && d + p <= x && Reaches(d + p, p, now, x))
  }

  /** `n` is what slot `o` can have become part-way through a drain at `now`. */
  ghost predicate InDrain(o: Timer, n: Timer, now: nat) {
    match o.timerType
    case Off => n == o
    case Periodic =>
      n.timerType == Periodic && n.periodicNs == o.periodicNs
      && Reaches(o.timeoutTime, o.periodicNs, now, n.timeoutTime)
    case _ => n == o || (n == o.(timerType := Off) && o.timeoutTime <= now)
  }

  lemma {:induction false} ReachesStep(d: nat, p: nat, now: nat, x: nat)
    requires Reaches(d, p, now, x) && x <= now && p > 0
    ensures Reaches(d, p, now, x + p)
    decreases if d <= x then x - d else 0
  {
    if x != d {
      ReachesStep(d + p, p, now, x);
    }
  }

  lemma {:induction false} ReachesAtLeast(d: nat, p: nat, now: nat, x: nat)
    requires Reaches(d, p, now, x)
    ensures d <= x
  {
  }

  lemma {:induction false} ReachesDone(d: nat, p: nat, now: nat, x: nat)
    requires Reaches(d, p, now, x) && now < x && p > 0
    ensures x == NextDeadline(d, p, now)
    decreases if d <= x then x - d else 0
  {
    if x != d {
      ReachesDone(d + p, p, now, x);
    }
  }

  /** Firing a due slot that is part-way through a drain keeps it part-way
      through the drain, and marks it as having fired. */
  lemma DrainStep(o: Timer, n: Timer, now: nat)
    requires WellFormed(o) && InDrain(o, n, now)
    requires n.timerType != Off && n.timeoutTime <= now
    ensures InDrain(o, Signalled(n), now)
    ensures Signalled(n) != o
  {
    if o.timerType == Periodic {
      ReachesStep(o.timeoutTime, o.periodicNs, now, n.timeoutTime);
      ReachesAtLeast(o.timeoutTime, o.periodicNs, now, n.timeoutTime);
    }
  }

  /** Once nothing armed is due, a slot part-way through the drain has
      become exactly Fire(o, now), and it has fired iff it was due. */
  lemma DrainDone(o: Timer, n: Timer, now: nat)
    requires WellFormed(o) && InDrain(o, n, now)
    requires n.timerType != Off ==> now < n.timeoutTime
    ensures n == Fire(o, now)
    ensures n != o <==> Due(o, now)
  {
    if o.timerType == Periodic {
      ReachesDone(o.timeoutTime, o.periodicNs, now, n.timeoutTime);
    }
  }
}
