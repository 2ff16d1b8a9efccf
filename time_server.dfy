/** The time server of components/TimeServerNVTMR: many logical timers for
    many clients, driven by one 1 ms hardware tick.

    The global state of time_server.c becomes one object of class Server:
    the slot table client_state[cid].timers[tid] (split into the part the
    control calls set, `timers`, and the list pointers, `links`), the
    per-client completed masks, the list head timer_head and the clock
    the_current_time.  Two ghost fields read the pointers abstractly:
    `queue` is the list from timer_head onwards and `linkMap` is the
    pointer table as a map; Valid() ties both to the arrays. */
module TimeServer {
  import opened TimeoutQueue
  import opened TimerSlot
  import opened Bitmask
  import opened LinkTable
  import opened Drain

  /** TIMER_FREQUENCY: hardware ticks per second. */
  const TimerFrequency: nat := 1000

  const NsInS: nat := 1_000_000_000

  /** TIMER_PERIOD: nanoseconds the clock advances per tick. */
  const TimerPeriod: nat := NsInS / TimerFrequency

  /** The timer half of post_init's loop: every slot OFF. */
  method OffTimers(n: nat, m: nat) returns (ts: array2<Timer>)
    ensures fresh(ts) && ts.Length0 == n && ts.Length1 == m
    ensures forall c, t :: 0 <= c < n && 0 <= t < m ==> ts[c, t] == OffTimer
  {
    ts := new Timer[n, m];
    for i := 0 to n
      invariant forall c, t :: 0 <= c < i && 0 <= t < m ==> ts[c, t] == OffTimer
    {
      for j := 0 to m
        invariant forall c, t :: 0 <= c < i && 0 <= t < m ==> ts[c, t] == OffTimer
        invariant forall t :: 0 <= t < j ==> ts[i, t] == OffTimer
      {
        ts[i, j] := OffTimer;
      }
    }
  }

  /** The pointer half of post_init's loop: every prev and next NULL. */
  method UnlinkedTable(n: nat, m: nat) returns (ls: array2<Links>)
    ensures fresh(ls) && ls.Length0 == n && ls.Length1 == m
    ensures forall c, t :: 0 <= c < n && 0 <= t < m ==> ls[c, t] == Links(Null, Null)
  {
    ls := new Links[n, m];
    for i := 0 to n
      invariant forall c, t :: 0 <= c < i && 0 <= t < m ==> ls[c, t] == Links(Null, Null)
    {
      for j := 0 to m
        invariant forall c, t :: 0 <= c < i && 0 <= t < m ==> ls[c, t] == Links(Null, Null)
        invariant forall t :: 0 <= t < j ==> ls[i, t] == Links(Null, Null)
      {
        ls[i, j] := Links(Null, Null);
      }
    }
  }

  /** post_init's completed = 0 for every client. */
  method ZeroMasks(n: nat) returns (cs: array<bv32>)
    ensures fresh(cs) && cs.Length == n
    ensures forall c :: 0 <= c < n ==> cs[c] == 0
  {
    cs := new bv32[n];
    for i := 0 to n
      invariant forall c :: 0 <= c < i ==> cs[c] == 0
    {
      cs[i] := 0;
    }
  }

  /** The map giving every slot of `n` clients with `m` timers each the
      value `v`. */
  ghost function Uniform<V>(n: nat, m: nat, v: V): (r: map<Slot, V>)
    ensures forall x :: x in r <==> x.cid < n && x.tid < m
    ensures forall x :: x in r ==> r[x] == v
  {
    map c, t | 0 <= c < n && 0 <= t < m :: Slot(c, t) := v
  }

  class Server {
    /** the_timer_largest_badge(): the number of clients. */
    const numClients: nat
    /** timers_per_client. */
    const timersPerClient: nat
    /** Type, periodic_ns and timeout_time of client_state[cid].timers[tid]. */
    const timers: array2<Timer>
    /** prev and next of client_state[cid].timers[tid]. */
    const links: array2<Links>
    /** client_state[cid].completed. */
    const completed: array<bv32>
    /** timer_head. */
    var timerHead: Link
    /** the_current_time, in nanoseconds. */
    var currentTime: nat
    /** The list from timer_head onwards. */
    ghost var queue: seq<Entry>
    /** What `links` holds, slot by slot. */
    ghost var linkMap: map<Slot, Links>
    /** What `timers` holds, slot by slot. */
    ghost var table: map<Slot, Timer>

    ghost predicate Shape() {
      && timers.Length0 == numClients && timers.Length1 == timersPerClient
      && links.Length0 == numClients && links.Length1 == timersPerClient
      && completed.Length == numClients
      && timersPerClient <= 32
    }

    predicate InRange(s: Slot) {
      s.cid < numClients && s.tid < timersPerClient
    }

    /** `linkMap` is the link array read as a map. */
    ghost predicate Mirrored()
      reads this`linkMap, links
      requires Shape()
    {
      forall c, t {:trigger links[c, t]} :: 0 <= c < numClients && 0 <= t < timersPerClient ==>
        Slot(c, t) in linkMap && linkMap[Slot(c, t)] == links[c, t]
    }

    /** Entry `e` names a slot in range whose timeout_time is its deadline. */
    ghost predicate Placed(e: Entry)
      reads timers
      requires Shape()
    {
      InRange(e.slot) && timers[e.slot.cid, e.slot.tid].timeoutTime == e.deadline
    }

    /** Every entry of `q` is placed. */
    ghost predicate Scheduled(q: seq<Entry>)
      reads timers
      requires Shape()
    {
      forall i {:trigger Placed(q[i])} :: 0 <= i < |q| ==> Placed(q[i])
    }

    /** The pointers thread the sorted, duplicate-free list `queue` from
        timer_head, and each entry carries its slot's timeout_time. */
    ghost predicate Linked()
      reads this`queue, this`timerHead, this`linkMap, timers, links
      requires Shape()
    {
      && Mirrored()
      && Distinct(queue) && Sorted(queue)
      && timerHead == HeadLink(queue)
      && Threaded(queue, linkMap)
      && Scheduled(queue)
    }

    /** Slot `s` is on the list `q` iff its type is not OFF. */
    ghost predicate ArmedAt(s: Slot, q: seq<Entry>)
      reads timers
      requires Shape() && InRange(s)
    {
      timers[s.cid, s.tid].timerType != Off <==> s in Members(q)
    }

    /** Every slot is armed exactly when it is on the list. */
    ghost predicate Armed()
      reads this`queue, timers
      requires Shape()
    {
      forall c, t {:trigger ArmedAt(Slot(c, t), queue)} :: 0 <= c < numClients && 0 <= t < timersPerClient ==>
        ArmedAt(Slot(c, t), queue)
    }

    /** ArmedAt on `q` at every slot but `s`, which an operation is working on. */
    ghost predicate ArmedBut(s: Slot, q: seq<Entry>)
      reads timers
      requires Shape()
    {
      forall c, t {:trigger ArmedAt(Slot(c, t), q)} :: 0 <= c < numClients && 0 <= t < timersPerClient && Slot(c, t) != s ==>
        ArmedAt(Slot(c, t), q)
    }

    /** `table` is the slot array read as a map. */
    ghost predicate Tabled()
      reads this`table, timers
      requires Shape()
    {
      && (forall x :: x in table ==> InRange(x))
      && (forall c, t {:trigger timers[c, t]} :: 0 <= c < numClients && 0 <= t < timersPerClient ==>
        Slot(c, t) in table && table[Slot(c, t)] == timers[c, t])
    }

    /** Every periodic slot has a positive period. */
    ghost predicate Periods()
      reads this`table
    {
      forall x :: x in table ==> WellFormed(table[x])
    }

    ghost predicate Valid()
      reads this`queue, this`timerHead, this`linkMap, this`table, timers, links
    {
      Shape() && Linked() && Tabled() && Armed() && Periods()
    }

    /** post_init: every client's mask is 0 and every slot is OFF and
        unlinked; the clock starts at 0 with an empty list. */
    constructor (numClients: nat, timersPerClient: nat)
      requires timersPerClient <= 32
      ensures Valid()
      ensures this.numClients == numClients && this.timersPerClient == timersPerClient
      ensures fresh(timers) && fresh(links) && fresh(completed)
      ensures currentTime == 0 && queue == []
      ensures forall c, t :: 0 <= c < numClients && 0 <= t < timersPerClient ==> timers[c, t] == OffTimer
      ensures forall c, t :: 0 <= c < numClients && 0 <= t < timersPerClient ==> links[c, t] == Links(Null, Null)
      ensures forall c :: 0 <= c < numClients ==> completed[c] == 0
    {
      var ts := OffTimers(numClients, timersPerClient);
      var ls := UnlinkedTable(numClients, timersPerClient);
      var cs := ZeroMasks(numClients);
      this.numClients := numClients;
      this.timersPerClient := timersPerClient;
      timers, links, completed := ts, ls, cs;
      timerHead, currentTime := Null, 0;
      queue := [];
      linkMap := Uniform(numClients, timersPerClient, Links(Null, Null));
      table := Uniform(numClients, timersPerClient, OffTimer);
      new;
      InitialValid();
    }

    /** The state post_init leaves is valid. */
    lemma InitialValid()
      requires Shape() && queue == [] && timerHead == Null
      requires linkMap == Uniform(numClients, timersPerClient, Links(Null, Null))
      requires table == Uniform(numClients, timersPerClient, OffTimer)
      requires forall c, t :: 0 <= c < numClients && 0 <= t < timersPerClient ==>
        timers[c, t] == OffTimer && links[c, t] == Links(Null, Null)
      ensures Valid()
    {
      forall c, t | 0 <= c < numClients && 0 <= t < timersPerClient
        ensures ArmedAt(Slot(c, t), queue)
      {
      }
    }

    /** current_time_ns. */
    function CurrentTimeNs(): (r: nat)
      reads this`currentTime
      ensures r == currentTime
    {
      currentTime
    }

    /** update_current_time_ns: the clock moves on by `ns`. */
    method UpdateCurrentTimeNs(ns: nat)
      modifies this`currentTime
      ensures currentTime == old(currentTime) + ns
    {
      currentTime := currentTime + ns;
    }

    /** Every slot on the list lies at some position and is in range. */
    lemma MemberAt(s: Slot) returns (i: nat)
      requires Shape() && Linked() && s in Members(queue)
      ensures i < |queue| && queue[i].slot == s && InRange(s)
    {
      MemberIndex(queue, s);
      i :| 0 <= i < |queue| && queue[i].slot == s;
      assert Placed(queue[i]);
    }

    /** The link array agrees with linkMap at slot `x`. */
    lemma MirrorAt(x: Slot)
      requires Shape() && Mirrored() && InRange(x)
      ensures x in linkMap && linkMap[x] == links[x.cid, x.tid]
    {
      var l := links[x.cid, x.tid];
      assert x == Slot(x.cid, x.tid);
    }

    /** Changing only whether `s` is on the list keeps every other slot armed. */
    lemma ArmedKept(s: Slot, q: seq<Entry>, q': seq<Entry>)
      requires Shape() && ArmedBut(s, q) && Members(q) - {s} == Members(q') - {s}
      ensures ArmedBut(s, q')
    {
      forall c, t | 0 <= c < numClients && 0 <= t < timersPerClient && Slot(c, t) != s
        ensures ArmedAt(Slot(c, t), q')
      {
        assert ArmedAt(Slot(c, t), q);
        assert Slot(c, t) in Members(q) <==> Slot(c, t) in Members(q) - {s};
      }
    }

    /** Slot `s` is armed exactly when it is on the list. */
    lemma ArmedOf(s: Slot)
      requires Shape() && Armed() && InRange(s)
      ensures ArmedAt(s, queue)
    {
      assert ArmedAt(Slot(s.cid, s.tid), queue);
    }

    /** timer_head names the slot at the front of the list. */
    lemma HeadOf()
      requires Shape() && Linked()
      ensures timerHead.Ptr? ==> queue != [] && queue[0].slot == timerHead.slot && Placed(queue[0])
      ensures timerHead.Ptr? ==> InRange(timerHead.slot)
    {
      if timerHead.Ptr? {
        assert Placed(queue[0]);
      }
    }

    lemma ArmedLeaving(s: Slot)
      requires Shape() && Armed()
      ensures ArmedBut(s, queue)
    {
    }

    lemma ArmedRejoining(s: Slot)
      requires Shape() && InRange(s) && ArmedBut(s, queue) && ArmedAt(s, queue)
      ensures Armed()
    {
      forall c, t | 0 <= c < numClients && 0 <= t < timersPerClient
        ensures ArmedAt(Slot(c, t), queue)
      {
        if Slot(c, t) != s {
          assert ArmedAt(Slot(c, t), queue);
        }
      }
    }

    /** The slot array agrees with `table` at slot `x`. */
    lemma MirrorTable(x: Slot)
      requires Shape() && Tabled() && InRange(x)
      ensures x in table && table[x] == timers[x.cid, x.tid]
    {
      var t := timers[x.cid, x.tid];
      assert x == Slot(x.cid, x.tid);
    }

    /** x->next = v. */
    method WriteNext(x: Slot, v: Link)
      requires Shape() && Mirrored() && InRange(x)
      modifies links, this`linkMap
      ensures Mirrored() && x in old(linkMap) && linkMap == SetNext(old(linkMap), x, v)
    {
      MirrorAt(x);
      links[x.cid, x.tid] := links[x.cid, x.tid].(next := v);
      linkMap := SetNext(linkMap, x, v);
      forall c, t | 0 <= c < numClients && 0 <= t < timersPerClient
        ensures Slot(c, t) in linkMap && linkMap[Slot(c, t)] == links[c, t]
      {
        if Slot(c, t) != x {
          assert old(links[c, t]) == links[c, t];
        }
      }
    }

    /** x->prev = v. */
    method WritePrev(x: Slot, v: Link)
      requires Shape() && Mirrored() && InRange(x)
      modifies links, this`linkMap
      ensures Mirrored() && x in old(linkMap) && linkMap == SetPrev(old(linkMap), x, v)
    {
      MirrorAt(x);
      links[x.cid, x.tid] := links[x.cid, x.tid].(prev := v);
      linkMap := SetPrev(linkMap, x, v);
      forall c, t | 0 <= c < numClients && 0 <= t < timersPerClient
        ensures Slot(c, t) in linkMap && linkMap[Slot(c, t)] == links[c, t]
      {
        if Slot(c, t) != x {
          assert old(links[c, t]) == links[c, t];
        }
      }
    }

    /** x->prev = l.prev; x->next = l.next. */
    method WriteLinks(x: Slot, l: Links)
      requires Shape() && Mirrored() && InRange(x)
      modifies links, this`linkMap
      ensures Mirrored() && linkMap == old(linkMap)[x := l]
    {
      links[x.cid, x.tid] := l;
      linkMap := linkMap[x := l];
      forall c, t | 0 <= c < numClients && 0 <= t < timersPerClient
        ensures Slot(c, t) in linkMap && linkMap[Slot(c, t)] == links[c, t]
      {
        if Slot(c, t) != x {
          assert old(links[c, t]) == links[c, t];
        }
      }
    }

    /** The prev/next writes of remove_timer for the slot `s` at position `i`
        of the list: the predecessor's next (or timer_head) and the
        successor's prev skip over `s`. */
    method DetachLinks(s: Slot, ghost i: nat)
      requires Shape() && Linked() && i < |queue| && queue[i].slot == s
      modifies this`timerHead, this`linkMap, links
      ensures Mirrored()
      ensures linkMap == Unlink(old(linkMap), queue, i)
      ensures timerHead == (if i == 0 then NextLink(queue, i) else old(timerHead))
    {
      ghost var q := queue;
      assert ThreadedAt(q, linkMap, i) && Placed(q[i]);
      MirrorAt(s);
      var l := links[s.cid, s.tid];
      if l.prev.Ptr? {
        assert ThreadedAt(q, linkMap, i - 1) && Placed(q[i - 1]);
        WriteNext(l.prev.slot, l.next);
      } else {
        assert timerHead == Ptr(s);
        timerHead := l.next;
      }
      if l.next.Ptr? {
        assert ThreadedAt(q, old(linkMap), i + 1) && Placed(q[i + 1]);
        WritePrev(l.next.slot, l.prev);
      }
    }

    /** remove_timer: unlink `s`; the list loses exactly `s` and keeps its
        order. */
    method RemoveTimer(s: Slot)
      requires Shape() && Linked() && s in Members(queue)
      modifies this`timerHead, this`queue, this`linkMap, links
      ensures Linked()
      ensures queue == Remove(old(queue), s)
      ensures Members(queue) == old(Members(queue)) - {s}
      ensures old(ArmedBut(s, queue)) ==> ArmedBut(s, queue)
    {
      ghost var i := MemberAt(s);
      ghost var r := RemovePlan(i);
      DetachLinks(s, i);
      assert Threaded(r, linkMap);
      queue := r;
    }

    /** What remove_timer's writes will leave, worked out on values
        beforehand: the list without position `i` is Remove(queue, s),
        still sorted, duplicate-free and scheduled, threaded by Unlink. */
    lemma RemovePlan(i: nat) returns (r: seq<Entry>)
      requires Shape() && Linked() && i < |queue|
      ensures r == queue[..i] + queue[i + 1..] == Remove(queue, queue[i].slot)
      ensures Sorted(r) && Distinct(r) && Scheduled(r)
      ensures Threaded(r, Unlink(linkMap, queue, i))
      ensures HeadLink(r) == (if i == 0 then NextLink(queue, i) else HeadLink(queue))
      ensures Members(r) == Members(queue) - {queue[i].slot}
      ensures ArmedBut(queue[i].slot, queue) ==> ArmedBut(queue[i].slot, r)
    {
      r := queue[..i] + queue[i + 1..];
      forall j | 0 <= j < |r|
        ensures Placed(r[j])
      {
        assert r[j] == queue[if j < i then j else j + 1];
      }
      UnlinkKeeps(queue, linkMap, i);
      if ArmedBut(queue[i].slot, queue) {
        ArmedKept(queue[i].slot, queue, r);
      }
    }

    /** The scan of insert_timer: walk from timer_head past every entry
        whose deadline is smaller than `d`; `next` is where the walk stopped
        and `current` the entry before it. */
    method FindPosition(d: nat) returns (current: Link, next: Link, ghost k: nat)
      requires Shape() && Linked()
      ensures k == InsertPos(queue, d)
      ensures current == (if k == 0 then Null else Ptr(queue[k - 1].slot))
      ensures next == (if k < |queue| then Ptr(queue[k].slot) else Null)
    {
      current, next := Null, timerHead;
      k := 0;
      while next.Ptr? && timers[next.slot.cid, next.slot.tid].timeoutTime < d
        invariant 0 <= k <= |queue|
        invariant next == (if k < |queue| then Ptr(queue[k].slot) else Null)
        invariant current == (if k == 0 then Null else Ptr(queue[k - 1].slot))
        invariant forall j :: 0 <= j < k ==> queue[j].deadline < d
        invariant k < |queue| ==> Placed(queue[k]) && ThreadedAt(queue, linkMap, k)
        decreases |queue| - k
      {
        MirrorAt(next.slot);
        current := next;
        next := links[next.slot.cid, next.slot.tid].next;
        k := k + 1;
      }
      InsertPosUnique(queue, d, k);
    }

    /** The prev/next writes of insert_timer: `s` points at `current` and
        `next`, and they (or timer_head) point back at it. */
    method AttachLinks(s: Slot, current: Link, next: Link, ghost k: nat)
      requires Shape() && Linked() && InRange(s) && k <= |queue|
      requires current == (if k == 0 then Null else Ptr(queue[k - 1].slot))
      requires next == (if k < |queue| then Ptr(queue[k].slot) else Null)
      modifies this`timerHead, this`linkMap, links
      ensures Mirrored()
      ensures linkMap == LinkIn(old(linkMap), queue, k, s)
      ensures timerHead == (if k == 0 then Ptr(s) else old(timerHead))
    {
      if k > 0 {
        assert Placed(queue[k - 1]);
      }
      if k < |queue| {
        assert Placed(queue[k]);
      }
      WriteLinks(s, Links(current, next));
      if next.Ptr? {
        WritePrev(next.slot, Ptr(s));
      }
      if current.Ptr? {
        WriteNext(current.slot, Ptr(s));
      } else {
        timerHead := Ptr(s);
      }
    }

    /** insert_timer: link `s` in where the scan stopped, before the first
        entry whose deadline is not smaller than its own. */
    method InsertTimer(s: Slot)
      requires Shape() && Linked() && InRange(s) && s !in Members(queue)
      modifies this`timerHead, this`queue, this`linkMap, links
      ensures Linked()
      ensures queue == Insert(old(queue), Entry(s, timers[s.cid, s.tid].timeoutTime))
      ensures Members(queue) == old(Members(queue)) + {s}
      ensures old(ArmedBut(s, queue)) ==> ArmedBut(s, queue)
    {
      var d := timers[s.cid, s.tid].timeoutTime;
      ghost var q, L := queue, linkMap;
      var current, next, k := FindPosition(d);
      ghost var r := InsertPlan(Entry(s, d), k);
      AttachLinks(s, current, next, k);
      queue := r;
    }

    /** What insert_timer's writes will leave, worked out on values
        beforehand: the list with `e` at position `k` is Insert(queue, e),
        still sorted, duplicate-free and scheduled, threaded by LinkIn. */
    lemma InsertPlan(e: Entry, k: nat) returns (r: seq<Entry>)
      requires Shape() && Linked() && Placed(e) && e.slot !in Members(queue)
      requires k == InsertPos(queue, e.deadline)
      ensures r == queue[..k] + [e] + queue[k..] == Insert(queue, e)
      ensures Sorted(r) && Distinct(r) && Scheduled(r)
      ensures Threaded(r, LinkIn(linkMap, queue, k, e.slot))
      ensures HeadLink(r) == (if k == 0 then Ptr(e.slot) else HeadLink(queue))
      ensures Members(r) == Members(queue) + {e.slot}
      ensures ArmedBut(e.slot, queue) ==> ArmedBut(e.slot, r)
    {
      r := queue[..k] + [e] + queue[k..];
      forall j | 0 <= j < |r|
        ensures Placed(r[j])
      {
        if j < k {
          assert r[j] == queue[j];
        } else if j > k {
          assert r[j] == queue[j - 1];
        }
      }
      LinkInKeeps(queue, linkMap, e);
      if ArmedBut(e.slot, queue) {
        ArmedKept(e.slot, queue, r);
      }
    }

    /** Give the unlinked slot `s` new settings; the list is untouched. */
    method SetTimer(s: Slot, t: Timer)
      requires Shape() && Linked() && Tabled() && Periods() && InRange(s) && s !in Members(queue) && WellFormed(t)
      modifies timers, this`table
      ensures Linked() && Tabled() && Periods()
      ensures table == old(table)[s := t]
      ensures old(ArmedBut(s, queue)) ==> ArmedBut(s, queue)
    {
      forall j | 0 <= j < |queue|
        ensures queue[j].slot != s
      {
        MemberIndex(queue, s);
      }
      MirrorTable(s);
      timers[s.cid, s.tid] := t;
      table := table[s := t];
      forall c, u | 0 <= c < numClients && 0 <= u < timersPerClient
        ensures Slot(c, u) in table && table[Slot(c, u)] == timers[c, u]
      {
        if Slot(c, u) != s {
          assert old(timers[c, u]) == timers[c, u];
        }
      }
      forall j | 0 <= j < |queue|
        ensures Placed(queue[j])
      {
        assert old(Placed(queue[j]));
      }
      assert Scheduled(queue);
      if old(ArmedBut(s, queue)) {
        forall c, u | 0 <= c < numClients && 0 <= u < timersPerClient && Slot(c, u) != s
          ensures ArmedAt(Slot(c, u), queue)
        {
          assert old(ArmedAt(Slot(c, u), queue));
        }
      }
    }

    /** The common body of _oneshot_relative, _oneshot_absolute and
        _periodic once `tid` is checked: unlink the slot if it is armed,
        give it its new settings and link it in by its new deadline. */
    method Rearm(s: Slot, t: Timer)
      requires Valid() && InRange(s) && t.timerType != Off && WellFormed(t)
      modifies this`timerHead, this`queue, this`linkMap, this`table, links, timers
      ensures Valid()
      ensures table == old(table)[s := t]
      ensures queue == Insert(Remove(old(queue), s), Entry(s, t.timeoutTime))
    {
      ghost var q := queue;
      ArmedOf(s);
      ArmedLeaving(s);
      if timers[s.cid, s.tid].timerType != Off {
        RemoveTimer(s);
      } else {
        RemoveAbsent(q, s);
      }
      SetTimer(s, t);
      InsertTimer(s);
      ArmedRejoining(s);
    }

    /** The common body of _stop and of signal_client for a one-shot
        slot: unlink the armed slot `s` and turn it OFF. */
    method Disarm(s: Slot)
      requires Valid() && InRange(s) && timers[s.cid, s.tid].timerType != Off
      modifies this`timerHead, this`queue, this`linkMap, this`table, links, timers
      ensures Valid()
      ensures table == old(table)[s := old(timers[s.cid, s.tid]).(timerType := Off)]
      ensures queue == Remove(old(queue), s)
    {
      var t := timers[s.cid, s.tid];
      ArmedOf(s);
      ArmedLeaving(s);
      RemoveTimer(s);
      SetTimer(s, t.(timerType := Off));
      ArmedRejoining(s);
    }

    /** signal_client for the slot `s` on the list: record it in its
        client's mask, unlink it, and either move a periodic slot on by one
        period and link it in again or turn a one-shot slot OFF. */
    method SignalClient(s: Slot)
      requires Valid() && s in Members(queue)
      modifies this`timerHead, this`queue, this`linkMap, this`table, links, timers, completed
      ensures Valid() && InRange(s) && s in old(table) && old(table)[s].timerType != Off
      ensures table == old(table)[s := Signalled(old(table)[s])]
      ensures completed[..] == old(completed[..])[s.cid := old(completed[..])[s.cid] | Bit(s.tid)]
      ensures queue == Fired(old(queue), s, old(table)[s])
    {
      ghost var i := MemberAt(s);
      Mark(s);
      FireSlot(s);
    }

    /** The list and slot part of signal_client. */
    method FireSlot(s: Slot)
      requires Valid() && s in Members(queue)
      modifies this`timerHead, this`queue, this`linkMap, this`table, links, timers
      ensures Valid() && InRange(s) && s in old(table) && old(table)[s].timerType != Off
      ensures table == old(table)[s := Signalled(old(table)[s])]
      ensures queue == Fired(old(queue), s, old(table)[s])
    {
      ghost var i := MemberAt(s);
      ArmedOf(s);
      MirrorTable(s);
      var t := timers[s.cid, s.tid];
      if t.timerType == TimerType.Periodic {
        FirePeriodic(s, t);
      } else {
        FireOnce(s, t);
      }
    }

    /** signal_client on a PERIODIC slot: its deadline moves on one period
        and it is linked in again by the new deadline. */
    method FirePeriodic(s: Slot, t: Timer)
      requires Valid() && InRange(s) && timers[s.cid, s.tid] == t && t.timerType == TimerType.Periodic
      modifies this`timerHead, this`queue, this`linkMap, this`table, links, timers
      ensures Valid()
      ensures table == old(table)[s := Signalled(t)]
      ensures queue == Fired(old(queue), s, t)
    {
      ghost var q := queue;
      MirrorTable(s);
      assert WellFormed(t);
      var t' := t.(timeoutTime := t.timeoutTime + t.periodicNs);
      assert t' == Signalled(t);
      Rearm(s, t');
    }

    /** signal_client on an ABSOLUTE or RELATIVE slot: it turns OFF and is
        unlinked. */
    method FireOnce(s: Slot, t: Timer)
      requires Valid() && InRange(s) && timers[s.cid, s.tid] == t && t.timerType != Off && t.timerType != TimerType.Periodic
      modifies this`timerHead, this`queue, this`linkMap, this`table, links, timers
      ensures Valid()
      ensures table == old(table)[s := Signalled(t)]
      ensures queue == Fired(old(queue), s, t)
    {
      assert t.(timerType := Off) == Signalled(t);
      Disarm(s);
    }

    /** completed |= BIT(id) for slot `s`. */
    method Mark(s: Slot)
      requires Shape() && InRange(s)
      modifies completed
      ensures completed[..] == old(completed[..])[s.cid := old(completed[..])[s.cid] | Bit(s.tid)]
    {
      completed[s.cid] := completed[s.cid] | Bit(s.tid);
    }

    /** No armed slot is due once the head of the list is not. */
    lemma NoneDue(now: nat)
      requires Valid() && (queue == [] || now < queue[0].deadline)
      ensures forall x :: x in table && table[x].timerType != Off ==> now < table[x].timeoutTime
    {
      forall x | x in table && table[x].timerType != Off
        ensures now < table[x].timeoutTime
      {
        MirrorTable(x);
        ArmedOf(x);
        var i := MemberAt(x);
        assert Placed(queue[i]);
        if i > 0 {
          assert queue[0].deadline <= queue[i].deadline;
        }
      }
    }

    /** One pass of the drain loop of signal_clients: the head of the list
        is due, and signal_client fires it. */
    method FireHead(now: nat, ghost o: map<Slot, Timer>, ghost m0: seq<bv32>)
      requires Valid() && Draining(o, table, now) && Marked(m0, completed[..], o, table)
      requires forall x :: x in o ==> WellFormed(o[x])
      requires timerHead.Ptr? && InRange(timerHead.slot)
      requires timers[timerHead.slot.cid, timerHead.slot.tid].timeoutTime <= now
      modifies this`timerHead, this`queue, this`linkMap, this`table, links, timers, completed
      ensures Valid() && Draining(o, table, now) && Marked(m0, completed[..], o, table)
      ensures timerHead.Ptr? ==> InRange(timerHead.slot)
      ensures Overdue(queue, now) < old(Overdue(queue, now))
    {
      ghost var q, n, m := queue, table, completed[..];
      var s := timerHead.slot;
      HeadOf();
      MemberIndex(q, s);
      MirrorTable(s);
      ArmedOf(s);
      DrainPass(q, o, n, m0, m, now, s);
      SignalClient(s);
      HeadOf();
    }

    /** signal_clients: fire the head of the list while its deadline has
        been reached.  Afterwards the head (if any) lies after `now`, every
        slot is Fire(old slot, now), and exactly the slots that were due
        have their bits set. */
    method SignalClients(now: nat)
      requires Valid()
      modifies this`timerHead, this`queue, this`linkMap, this`table, links, timers, completed
      ensures Valid()
      ensures queue == [] || now < queue[0].deadline
      ensures Drained(old(table), table, old(completed[..]), completed[..], now)
    {
      ghost var o, m0 := table, completed[..];
      DrainStart(o, m0, now);
      HeadOf();
      while timerHead.Ptr? && timers[timerHead.slot.cid, timerHead.slot.tid].timeoutTime <= now
        invariant Valid()
        invariant Draining(o, table, now) && Marked(m0, completed[..], o, table)
        invariant timerHead.Ptr? ==> InRange(timerHead.slot)
        decreases Overdue(queue, now)
      {
        FireHead(now, o, m0);
      }
      assert Valid();
      DrainEnd(now, o, m0);
    }

    /** Once the head of the list is not due, the drain is complete. */
    lemma DrainEnd(now: nat, o: map<Slot, Timer>, m0: seq<bv32>)
      requires Valid() && Draining(o, table, now) && Marked(m0, completed[..], o, table)
      requires forall x :: x in o ==> WellFormed(o[x])
      requires timerHead.Ptr? ==> InRange(timerHead.slot) && now < timers[timerHead.slot.cid, timerHead.slot.tid].timeoutTime
      ensures queue == [] || now < queue[0].deadline
      ensures Drained(o, table, m0, completed[..], now)
    {
      HeadOf();
      NoneDue(now);
      DrainAll(o, table, m0, completed[..], now);
    }

    /** irq_handle: the clock moves on by one TIMER_PERIOD and the list is
        drained at the new time. */
    method IrqHandle()
      requires Valid()
      modifies this`currentTime, this`timerHead, this`queue, this`linkMap, this`table, links, timers, completed
      ensures Valid()
      ensures currentTime == old(currentTime) + TimerPeriod
      ensures queue == [] || currentTime < queue[0].deadline
      ensures Drained(old(table), table, old(completed[..]), completed[..], currentTime)
    {
      UpdateCurrentTimeNs(TimerPeriod);
      SignalClients(CurrentTimeNs());
    }

    /** _oneshot_relative: -1 for a timer id out of range; otherwise the
        slot becomes RELATIVE, due `ns` after the current time, and is
        relinked by that deadline. */
    method OneshotRelative(cid: nat, tid: int, ns: nat) returns (r: int)
      requires Valid() && cid < numClients
      modifies this`timerHead, this`queue, this`linkMap, this`table, links, timers
      ensures Valid()
      ensures r == (if 0 <= tid < timersPerClient then 0 else -1)
      ensures r == -1 ==> unchanged(this) && unchanged(timers, links)
      ensures r == 0 ==> table == old(table)[Slot(cid, tid) := old(timers[cid, tid]).(timerType := Relative, timeoutTime := currentTime + ns)]
      ensures r == 0 ==> queue == Insert(Remove(old(queue), Slot(cid, tid)), Entry(Slot(cid, tid), currentTime + ns))
    {
      if tid >= timersPerClient || tid < 0 {
        return -1;
      }
      var t := timers[cid, tid];
      Rearm(Slot(cid, tid), t.(timerType := Relative, timeoutTime := CurrentTimeNs() + ns));
      return 0;
    }

    /** _oneshot_absolute: as OneshotRelative, but due at time `ns`. */
    method OneshotAbsolute(cid: nat, tid: int, ns: nat) returns (r: int)
      requires Valid() && cid < numClients
      modifies this`timerHead, this`queue, this`linkMap, this`table, links, timers
      ensures Valid()
      ensures r == (if 0 <= tid < timersPerClient then 0 else -1)
      ensures r == -1 ==> unchanged(this) && unchanged(timers, links)
      ensures r == 0 ==> table == old(table)[Slot(cid, tid) := old(timers[cid, tid]).(timerType := Absolute, timeoutTime := ns)]
      ensures r == 0 ==> queue == Insert(Remove(old(queue), Slot(cid, tid)), Entry(Slot(cid, tid), ns))
    {
      if tid >= timersPerClient || tid < 0 {
        return -1;
      }
      var t := timers[cid, tid];
      Rearm(Slot(cid, tid), t.(timerType := Absolute, timeoutTime := ns));
      return 0;
    }

    /** _periodic: -1 for a timer id out of range; otherwise the slot
        becomes PERIODIC with period `ns`, first due `ns` after the current
        time, and is relinked by that deadline.  The period must be
        positive: with 0 the drain of the next tick never ends. */
    method Periodic(cid: nat, tid: int, ns: nat) returns (r: int)
      requires Valid() && cid < numClients && ns > 0
      modifies this`timerHead, this`queue, this`linkMap, this`table, links, timers
      ensures Valid()
      ensures r == (if 0 <= tid < timersPerClient then 0 else -1)
      ensures r == -1 ==> unchanged(this) && unchanged(timers, links)
      ensures r == 0 ==> table == old(table)[Slot(cid, tid) := Timer(TimerType.Periodic, ns, currentTime + ns)]
      ensures r == 0 ==> queue == Insert(Remove(old(queue), Slot(cid, tid)), Entry(Slot(cid, tid), currentTime + ns))
    {
      if tid >= timersPerClient || tid < 0 {
        return -1;
      }
      Rearm(Slot(cid, tid), Timer(TimerType.Periodic, ns, CurrentTimeNs() + ns));
      return 0;
    }

    /** _stop: -1 for a timer id out of range; otherwise an armed slot is
        unlinked and turned OFF, and an OFF slot is left alone. */
    method Stop(cid: nat, tid: int) returns (r: int)
      requires Valid() && cid < numClients
      modifies this`timerHead, this`queue, this`linkMap, this`table, links, timers
      ensures Valid()
      ensures r == (if 0 <= tid < timersPerClient then 0 else -1)
      ensures r == -1 ==> unchanged(this) && unchanged(timers, links)
      ensures r == 0 ==> table == old(table)[Slot(cid, tid) := old(timers[cid, tid]).(timerType := Off)]
      ensures r == 0 ==> queue == Remove(old(queue), Slot(cid, tid))
      ensures r == 0 && old(timers[cid, tid]).timerType == Off ==> unchanged(this) && unchanged(timers, links)
    {
      if tid >= timersPerClient || tid < 0 {
        return -1;
      }
      var s := Slot(cid, tid);
      var t := timers[cid, tid];
      ArmedOf(s);
      if t.timerType != Off {
        Disarm(s);
      } else {
        RemoveAbsent(queue, s);
      }
      return 0;
    }

    /** _completed: hand back the client's mask of fired timers and clear it. */
    method Completed(cid: nat) returns (r: bv32)
      requires Valid() && cid < numClients
      modifies completed
      ensures Valid()
      ensures r == old(completed[cid]) && completed[cid] == 0
      ensures forall c :: 0 <= c < numClients && c != cid ==> completed[c] == old(completed[c])
    {
      r := completed[cid];
      completed[cid] := 0;
    }

    /** _time: the current time, whichever client asks. */
    method Time(cid: nat) returns (r: nat)
      ensures r == currentTime
    {
      r := CurrentTimeNs();
    }
  }
}
