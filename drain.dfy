/** The drain loop of signal_clients, read over whole tables of slots.

    `o` is the slot table when the drain starts, `n` the table part-way
    through, `m0` and `m` the completed masks of all clients at those two
    points.  Each pass of the loop fires one due slot; DrainOne shows the
    loop's two invariants survive that, and DrainAll what they give once no
    armed slot is due any more. */
module Drain {
  import opened TimeoutQueue
  import opened TimerSlot
  import opened Bitmask

  /** Every slot of `n` is what the same slot of `o` can have become
      part-way through a drain at `now`. */
  ghost predicate Draining(o: map<Slot, Timer>, n: map<Slot, Timer>, now: nat) {
    && n.Keys == o.Keys
    && forall x :: x in o ==> InDrain(o[x], n[x], now)
  }

  /** Slot `x` has changed between the two tables. */
  ghost predicate Changed(o: map<Slot, Timer>, n: map<Slot, Timer>, x: Slot) {
    x in o && x in n && o[x] != n[x]
  }

  /** The masks `m` are `m0` with exactly the bits of the changed slots
      added (bit `b` of client `c` is slot Slot(c, b)). */
  ghost predicate Marked(m0: seq<bv32>, m: seq<bv32>, o: map<Slot, Timer>, n: map<Slot, Timer>) {
    && |m| == |m0|
    && forall c: nat :: c < |m| ==> Added(m0[c], m[c], ChangedTids(o, n, c))
  }

  /** The timer ids of client `c` whose slots have changed. */
  ghost function ChangedTids(o: map<Slot, Timer>, n: map<Slot, Timer>, c: nat): (r: set<nat>)
    ensures forall b :: b in r <==> b < 32 && Changed(o, n, Slot(c, b))
  {
    set b: nat | b < 32 && Changed(o, n, Slot(c, b))
  }

  /** Before the first pass nothing has moved. */
  lemma DrainStart(o: map<Slot, Timer>, m0: seq<bv32>, now: nat)
    ensures Draining(o, o, now) && Marked(m0, m0, o, o)
  {
    forall x | x in o
      ensures InDrain(o[x], o[x], now)
    {
      if o[x].timerType == Periodic {
        assert Reaches(o[x].timeoutTime, o[x].periodicNs, now, o[x].timeoutTime);
      }
    }
  }

  /** One pass: firing the due slot `s` and setting its bit keeps both
      invariants. */
  lemma DrainOne(o: map<Slot, Timer>, n: map<Slot, Timer>, m0: seq<bv32>, m: seq<bv32>, now: nat, s: Slot)
    requires Draining(o, n, now) && Marked(m0, m, o, n)
    requires s in n && WellFormed(o[s]) && Due(n[s], now)
    requires s.cid < |m| && s.tid < 32
    ensures Draining(o, n[s := Signalled(n[s])], now)
    ensures Marked(m0, m[s.cid := m[s.cid] | Bit(s.tid)], o, n[s := Signalled(n[s])])
  {
    DrainOneSlot(o, n, now, s);
    var n' := n[s := Signalled(n[s])];
    forall x | x != s
      ensures Changed(o, n', x) == Changed(o, n, x)
    {
    }
    DrainOneMark(o, n, n', m0, m, s);
  }

  lemma DrainOneSlot(o: map<Slot, Timer>, n: map<Slot, Timer>, now: nat, s: Slot)
    requires Draining(o, n, now) && s in n && WellFormed(o[s]) && Due(n[s], now)
    ensures Draining(o, n[s := Signalled(n[s])], now)
    ensures Signalled(n[s]) != o[s]
  {
    DrainStep(o[s], n[s], now);
    var n' := n[s := Signalled(n[s])];
    forall x | x in o
      ensures InDrain(o[x], n'[x], now)
    {
      if x != s {
        assert n'[x] == n[x];
      }
    }
  }

  /** Setting the bit of the one slot `s` that changed keeps Marked. */
  lemma DrainOneMark(o: map<Slot, Timer>, n: map<Slot, Timer>, n': map<Slot, Timer>, m0: seq<bv32>, m: seq<bv32>, s: Slot)
    requires Marked(m0, m, o, n) && s.cid < |m| && s.tid < 32
    requires Changed(o, n', s)
    requires forall x :: x != s ==> Changed(o, n', x) == Changed(o, n, x)
    ensures Marked(m0, m[s.cid := m[s.cid] | Bit(s.tid)], o, n')
  {
    var m' := m[s.cid := m[s.cid] | Bit(s.tid)];
    forall c: nat | c < |m'|
      ensures Added(m0[c], m'[c], ChangedTids(o, n', c))
    {
      if c == s.cid {
        OwnTids(o, n, n', s);
        AddBit(m0[c], m[c], ChangedTids(o, n, c), s.tid);
      } else {
        OtherTids(o, n, n', c, s);
      }
    }
  }

  /** The client whose slot `s` fired has exactly `s.tid` more changed. */
  lemma OwnTids(o: map<Slot, Timer>, n: map<Slot, Timer>, n': map<Slot, Timer>, s: Slot)
    requires s.tid < 32 && Changed(o, n', s)
    requires forall x :: x != s ==> Changed(o, n', x) == Changed(o, n, x)
    ensures ChangedTids(o, n', s.cid) == ChangedTids(o, n, s.cid) + {s.tid}
  {
    forall b: nat | b < 32 && b != s.tid
      ensures Changed(o, n', Slot(s.cid, b)) == Changed(o, n, Slot(s.cid, b))
    {
      assert Slot(s.cid, b) != s;
    }
  }

  /** Every other client has the same slots changed as before. */
  lemma OtherTids(o: map<Slot, Timer>, n: map<Slot, Timer>, n': map<Slot, Timer>, c: nat, s: Slot)
    requires c != s.cid
    requires forall x :: x != s ==> Changed(o, n', x) == Changed(o, n, x)
    ensures ChangedTids(o, n', c) == ChangedTids(o, n, c)
  {
    forall b: nat | b < 32
      ensures Changed(o, n', Slot(c, b)) == Changed(o, n, Slot(c, b))
    {
      assert Slot(c, b) != s;
    }
  }

  /** The outcome of signal_clients at `now`, from slot table `o` and masks
      `m0` to `n` and `m`: every slot is Fire(o, now), and the bits added
      are exactly those of the slots that were due. */
  ghost predicate Drained(o: map<Slot, Timer>, n: map<Slot, Timer>, m0: seq<bv32>, m: seq<bv32>, now: nat) {
    && n.Keys == o.Keys
    && (forall x :: x in o ==> WellFormed(o[x]) && n[x] == Fire(o[x], now))
    && |m| == |m0|
    && forall c, b :: 0 <= c < |m| && 0 <= b < 32 ==>
      (HasBit(m[c], b) <==> HasBit(m0[c], b) || (Slot(c, b) in o && Due(o[Slot(c, b)], now)))
  }

  /** When no armed slot of `n` is due, every slot is Fire(o, now), and the
      bits added are exactly those of the slots that were due. */
  lemma DrainAll(o: map<Slot, Timer>, n: map<Slot, Timer>, m0: seq<bv32>, m: seq<bv32>, now: nat)
    requires Draining(o, n, now) && Marked(m0, m, o, n)
    requires forall x :: x in o ==> WellFormed(o[x])
    requires forall x :: x in n && n[x].timerType != Off ==> now < n[x].timeoutTime
    ensures Drained(o, n, m0, m, now)
  {
    forall x | x in o
      ensures n[x] == Fire(o[x], now) && (Changed(o, n, x) <==> Due(o[x], now))
    {
      DrainDone(o[x], n[x], now);
    }
    forall c, b | 0 <= c < |m| && 0 <= b < 32
      ensures HasBit(m[c], b) <==> HasBit(m0[c], b) || (Slot(c, b) in o && Due(o[Slot(c, b)], now))
    {
      assert Added(m0[c], m[c], ChangedTids(o, n, c));
    }
  }

  /** The list after signal_client fires slot `s`, whose settings were `t`:
      a periodic slot is linked in again one period later, any other slot
      is only unlinked. */
  ghost function Fired(q: seq<Entry>, s: Slot, t: Timer): (r: seq<Entry>)
    ensures t.timerType == Periodic ==> Entry(s, t.timeoutTime + t.periodicNs) in r && |r| <= |q| + 1
    ensures t.timerType != Periodic ==> s !in Members(r) && |r| <= |q|
  {
    if t.timerType == Periodic
    then Insert(Remove(q, s), Entry(s, t.timeoutTime + t.periodicNs))
    else Remove(q, s)
  }

  /** Firing a due head of the list leaves the drain strictly less work,
      whether the head is only unlinked or, with its positive period,
      linked in again one period later; so the drain of signal_clients
      ends. */
  lemma FiringShrinksOverdue(q: seq<Entry>, s: Slot, t: Timer, now: nat)
    requires Distinct(q) && q != [] && q[0] == Entry(s, t.timeoutTime)
    requires t.timeoutTime <= now && WellFormed(t)
    ensures Overdue(Fired(q, s, t), now) < Overdue(q, now)
  {
    HeadRemoved(q);
    assert Overdue(q, now) == Lateness(q[0], now) + Overdue(q[1..], now);
    if t.timerType == Periodic {
      OverdueInsert(q[1..], Entry(s, t.timeoutTime + t.periodicNs), now);
    }
  }

  /** As written, a periodic head with a zero period is linked in again in
      front of the same entries: the list comes back unchanged, its head is
      still due, and the drain loop never ends. */
  lemma ZeroPeriodRequeueFixpoint(q: seq<Entry>, s: Slot, t: Timer, now: nat)
    requires Sorted(q) && Distinct(q) && q != [] && q[0] == Entry(s, t.timeoutTime)
    requires t.timerType == Periodic && t.periodicNs == 0
    ensures Fired(q, s, t) == q
    ensures Overdue(Fired(q, s, t), now) == Overdue(q, now)
  {
    HeadRemoved(q);
    if |q| > 1 {
      assert q[0].deadline <= q[1].deadline;
    }
    assert InsertPos(q[1..], q[0].deadline) == 0;
    assert [q[0]] + q[1..] == q;
  }

  /** One pass of the drain loop, on the tables: the head `s` of the list
      fires, both invariants hold afterwards and the drain has less work
      left. */
  lemma DrainPass(q: seq<Entry>, o: map<Slot, Timer>, n: map<Slot, Timer>, m0: seq<bv32>, m: seq<bv32>, now: nat, s: Slot)
    requires Draining(o, n, now) && Marked(m0, m, o, n)
    requires forall x :: x in o ==> WellFormed(o[x])
    requires s in n && Distinct(q) && q != [] && q[0] == Entry(s, n[s].timeoutTime)
    requires n[s].timerType != Off && n[s].timeoutTime <= now
    requires s.cid < |m| && s.tid < 32
    ensures Draining(o, n[s := Signalled(n[s])], now)
    ensures Marked(m0, m[s.cid := m[s.cid] | Bit(s.tid)], o, n[s := Signalled(n[s])])
    ensures Overdue(Fired(q, s, n[s]), now) < Overdue(q, now)
  {
    assert s in o && InDrain(o[s], n[s], now);
    FiringShrinksOverdue(q, s, n[s], now);
    DrainOne(o, n, m0, m, now, s);
  }
}
