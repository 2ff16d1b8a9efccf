/** The ordered timeout queue of the time server, as a value.

    The server threads every armed timer slot into one doubly linked list
    sorted by timeout_time (time_server.c, insert_timer and remove_timer).
    This module describes that list abstractly, as the sequence of its
    entries from the head onwards, and proves what inserting into and
    unlinking from it do.  The class in module TimeServer keeps its real
    prev/next links equal to such a sequence. */
module TimeoutQueue {

  /** A timer slot: timer `tid` of client `cid` (client_state[cid].timers[tid]). */
  datatype Slot = Slot(cid: nat, tid: nat)

  /** One element of the list: an armed slot and the timeout_time it is sorted by. */
  datatype Entry = Entry(slot: Slot, deadline: nat)

  /** Ascending by deadline, as every complete insert and remove leaves the list. */
  ghost predicate Sorted(q: seq<Entry>) {
    forall i, j :: 0 <= i < j < |q| ==> q[i].deadline <= q[j].deadline
  }

  /** No slot is linked twice. */
  ghost predicate Distinct(q: seq<Entry>) {
    forall i, j :: 0 <= i < j < |q| ==> q[i].slot != q[j].slot
  }

  /** The slots on the list. */
  ghost function Members(q: seq<Entry>): set<Slot> {
    if q == [] then {} else {q[0].slot} + Members(q[1..])
  }

  /** How many entries the scan of insert_timer walks past before it stops:
      it stops at the first entry whose deadline is not smaller than `d`. */
  function InsertPos(q: seq<Entry>, d: nat): (k: nat)
    ensures k <= |q|
    ensures forall j :: 0 <= j < k ==> q[j].deadline < d
    ensures k < |q| ==> d <= q[k].deadline
  {
    if q == [] || d <= q[0].deadline then 0 else 1 + InsertPos(q[1..], d)
  }

  /** The scan's stopping point is the only position with every entry
      before it smaller than `d` and the entry at it, if any, not smaller. */
  lemma InsertPosUnique(q: seq<Entry>, d: nat, k: nat)
    requires k <= |q|
    requires forall j :: 0 <= j < k ==> q[j].deadline < d
    requires k < |q| ==> d <= q[k].deadline
    ensures k == InsertPos(q, d)
  {
  }

  /** The list after insert_timer links `e` in where the scan stopped. */
  ghost function Insert(q: seq<Entry>, e: Entry): (r: seq<Entry>)
    ensures |r| == |q| + 1
  {
    var k := InsertPos(q, e.deadline);
    q[..k] + [e] + q[k..]
  }

  /** The list after remove_timer unlinks slot `s` (every entry of `s`; on a
      list without duplicates there is at most one). */
  ghost function Remove(q: seq<Entry>, s: Slot): (r: seq<Entry>)
    ensures |r| <= |q|
    ensures s !in Members(r)
  {
    if q == [] then []
    else if q[0].slot == s then Remove(q[1..], s)
    else [q[0]] + Remove(q[1..], s)
  }

  /** How far behind the clock the list is: each entry due at `now` weighs
      one more than the time it has been overdue.  A drain of the list at
      `now` ends when this reaches the part of the list that is not due. */
  function Lateness(e: Entry, now: nat): nat {
    if e.deadline <= now then now + 1 - e.deadline else 0
  }

  function Overdue(q: seq<Entry>, now: nat): nat {
    if q == [] then 0 else Lateness(q[0], now) + Overdue(q[1..], now)
  }

  // ---------------------------------------------------------------------
  // Membership

  /** A slot is a member exactly when some position of the list holds it. */
  lemma {:induction false} MemberIndex(q: seq<Entry>, s: Slot)
    ensures s in Members(q) <==> exists i :: 0 <= i < |q| && q[i].slot == s
  {
    if q != [] {
      MemberIndex(q[1..], s);
      if s in Members(q[1..]) {
        var i :| 0 <= i < |q[1..]| && q[1..][i].slot == s;
        assert q[i + 1].slot == s;
      }
      if exists i :: 0 <= i < |q| && q[i].slot == s {
        var i :| 0 <= i < |q| && q[i].slot == s;
        if i > 0 {
          assert q[1..][i - 1].slot == s;
        }
      }
    }
  }

  lemma {:induction false} MembersConcat(a: seq<Entry>, b: seq<Entry>)
    ensures Members(a + b) == Members(a) + Members(b)
  {
    if a == [] {
      assert a + b == b;
    } else {
      assert (a + b)[1..] == a[1..] + b;
      MembersConcat(a[1..], b);
    }
  }

  // ---------------------------------------------------------------------
  // insert_timer

  /** Where everything lands: the new entry at InsertPos, the entries
      before it in place, the entries from it on one further along. */
  lemma InsertIndex(q: seq<Entry>, e: Entry)
    ensures var r := Insert(q, e); var k := InsertPos(q, e.deadline);
      && |r| == |q| + 1 && r[k] == e
      && (forall j :: 0 <= j < k ==> r[j] == q[j])
      && (forall j :: k < j < |r| ==> r[j] == q[j - 1])
  {
  }

  /** Inserting keeps the list sorted and puts `e` directly after every
      entry with a strictly smaller deadline, so ahead of the entries whose
      deadline equals its own. */
  lemma InsertSorted(q: seq<Entry>, e: Entry)
    requires Sorted(q)
    ensures var r := Insert(q, e); var k := InsertPos(q, e.deadline);
      && Sorted(r)
      && (forall j :: 0 <= j < k ==> r[j].deadline < e.deadline)
      && (forall j :: k < j < |r| ==> e.deadline <= r[j].deadline)
  {
    var r := Insert(q, e);
    var k := InsertPos(q, e.deadline);
    InsertIndex(q, e);
    forall j | k < j < |r|
      ensures e.deadline <= r[j].deadline
    {
      assert q[k].deadline <= q[j - 1].deadline;
    }
    forall i, j | 0 <= i < j < |r|
      ensures r[i].deadline <= r[j].deadline
    {
      if j < k {
        assert r[i] == q[i] && r[j] == q[j];
      } else if k < i {
        assert r[i] == q[i - 1] && r[j] == q[j - 1];
      }
    }
  }

  /** Inserting adds exactly `e`: taking it out again leaves the old list. */
  lemma InsertContents(q: seq<Entry>, e: Entry)
    ensures var r := Insert(q, e); var k := InsertPos(q, e.deadline);
      && r[..k] + r[k + 1..] == q
      && multiset(r) == multiset(q) + multiset{e}
  {
    var k := InsertPos(q, e.deadline);
    var before, after := q[..k], q[k..];
    Halves(q, k);
    var r := Insert(q, e);
    assert r == before + [e] + after;
    assert r[..k] == before && r[k + 1..] == after;
    calc {
      multiset(r);
      multiset(before) + multiset{e} + multiset(after);
      multiset(before + after) + multiset{e};
    }
  }

  /** Inserting adds exactly the slot of `e` to the members. */
  lemma InsertMembers(q: seq<Entry>, e: Entry)
    ensures Members(Insert(q, e)) == Members(q) + {e.slot}
  {
    var k := InsertPos(q, e.deadline);
    var before, after := q[..k], q[k..];
    Halves(q, k);
    MembersConcat(before + [e], after);
    MembersConcat(before, [e]);
    MembersConcat(before, after);
    assert Members([e]) == {e.slot} by {
      assert [e][1..] == [];
    }
  }

  /** Inserting a slot that is not on the list keeps it free of duplicates. */
  lemma InsertDistinct(q: seq<Entry>, e: Entry)
    requires Distinct(q) && e.slot !in Members(q)
    ensures Distinct(Insert(q, e))
  {
    var k := InsertPos(q, e.deadline);
    var r := Insert(q, e);
    InsertIndex(q, e);
    forall j | 0 <= j < |q|
      ensures q[j].slot != e.slot
    {
      MemberIndex(q, e.slot);
    }
    forall i, j | 0 <= i < j < |r|
      ensures r[i].slot != r[j].slot
    {
      if i != k && j != k {
        var i' := if i < k then i else i - 1;
        var j' := if j < k then j else j - 1;
        assert r[i] == q[i'] && r[j] == q[j'];
      }
    }
  }

  // ---------------------------------------------------------------------
  // remove_timer

  /** Unlinking the entry at position `i` of a list without duplicates leaves
      the others in their old relative order. */
  lemma RemoveAt(q: seq<Entry>, i: nat)
    requires Distinct(q) && i < |q|
    ensures Remove(q, q[i].slot) == q[..i] + q[i + 1..]
  {
    Around(q, i);
    Elsewhere(q, i);
    RemoveSplice(q[..i], q[i], q[i + 1..]);
  }

  /** The entries before position `i`, the entry at it and the entries after
      it give the list back. */
  lemma Around(q: seq<Entry>, i: nat)
    requires i < |q|
    ensures q[..i] + [q[i]] + q[i + 1..] == q
  {
  }

  /** On a list without duplicates the slot at position `i` is on neither
      side of it. */
  lemma Elsewhere(q: seq<Entry>, i: nat)
    requires Distinct(q) && i < |q|
    ensures q[i].slot !in Members(q[..i]) && q[i].slot !in Members(q[i + 1..])
  {
    var s, b := q[i].slot, q[i + 1..];
    MemberIndex(q[..i], s);
    MemberIndex(b, s);
    forall j | 0 <= j < |b|
      ensures b[j].slot != s
    {
      assert b[j] == q[i + 1 + j];
    }
  }

  /** Removing a slot that is not on the list changes nothing. */
  lemma {:induction false} RemoveAbsent(q: seq<Entry>, s: Slot)
    requires s !in Members(q)
    ensures Remove(q, s) == q
  {
    if q != [] {
      RemoveAbsent(q[1..], s);
      assert [q[0]] + q[1..] == q;
    }
  }

  /** Removing takes exactly slot `s` off the list. */
  lemma {:induction false} RemoveMembers(q: seq<Entry>, s: Slot)
    ensures Members(Remove(q, s)) == Members(q) - {s}
  {
    if q != [] {
      RemoveMembers(q[1..], s);
      if q[0].slot != s {
        assert ([q[0]] + Remove(q[1..], s))[1..] == Remove(q[1..], s);
      }
    }
  }

  /** Removing the entry at position `i` keeps the list sorted and free of
      duplicates. */
  lemma RemoveAtKeeps(q: seq<Entry>, i: nat)
    requires i < |q|
    ensures Sorted(q) ==> Sorted(q[..i] + q[i + 1..])
    ensures Distinct(q) ==> Distinct(q[..i] + q[i + 1..])
  {
    var r := q[..i] + q[i + 1..];
    assert forall j :: 0 <= j < |r| ==> r[j] == q[if j < i then j else j + 1];
  }

  /** A second remove of the same slot changes nothing: stopping a stopped
      timer is a no-op on the list. */
  lemma RemoveIdempotent(q: seq<Entry>, s: Slot)
    ensures Remove(Remove(q, s), s) == Remove(q, s)
  {
    RemoveMembers(q, s);
    RemoveAbsent(Remove(q, s), s);
  }

  /** The two halves a position splits a list into give the list back. */
  lemma Halves(q: seq<Entry>, k: nat)
    requires k <= |q|
    ensures q[..k] + q[k..] == q
  {
  }

  /** Round trip: unlinking a slot that was just inserted gives back the old list. */
  lemma RemoveInsert(q: seq<Entry>, e: Entry)
    requires e.slot !in Members(q)
    ensures Remove(Insert(q, e), e.slot) == q
  {
    var k := InsertPos(q, e.deadline);
    var before, after := q[..k], q[k..];
    Halves(q, k);
    MembersConcat(before, after);
    assert e.slot !in Members(before) && e.slot !in Members(after);
    RemoveSplice(before, e, after);
    assert Insert(q, e) == before + [e] + after;
  }

  lemma RemoveSplice(a: seq<Entry>, e: Entry, b: seq<Entry>)
    requires e.slot !in Members(a) && e.slot !in Members(b)
    ensures Remove(a + [e] + b, e.slot) == a + b
  {
    RemoveAbsent(a, e.slot);
    RemoveAbsent(b, e.slot);
    assert Remove([e], e.slot) == [] by {
      assert [e][1..] == [];
    }
    RemoveConcat(a, [e], e.slot);
    assert Remove(a + [e], e.slot) == a;
    RemoveConcat(a + [e], b, e.slot);
  }

  lemma {:induction false} RemoveConcat(a: seq<Entry>, b: seq<Entry>, s: Slot)
    ensures Remove(a + b, s) == Remove(a, s) + Remove(b, s)
  {
    if a != [] {
      assert (a + b)[1..] == a[1..] + b;
      RemoveConcat(a[1..], b, s);
    } else {
      assert a + b == b;
    }
  }

  // ---------------------------------------------------------------------
  // The drain of signal_clients

  lemma {:induction false} OverdueConcat(a: seq<Entry>, b: seq<Entry>, now: nat)
    ensures Overdue(a + b, now) == Overdue(a, now) + Overdue(b, now)
  {
    if a != [] {
      assert (a + b)[1..] == a[1..] + b;
      OverdueConcat(a[1..], b, now);
    } else {
      assert a + b == b;
    }
  }

  /** Inserting adds the new entry's lateness and nothing else. */
  lemma OverdueInsert(q: seq<Entry>, e: Entry, now: nat)
    ensures Overdue(Insert(q, e), now) == Overdue(q, now) + Lateness(e, now)
  {
    var k := InsertPos(q, e.deadline);
    Halves(q, k);
    OverdueConcat(q[..k] + [e], q[k..], now);
    OverdueConcat(q[..k], [e], now);
    OverdueConcat(q[..k], q[k..], now);
  }

  /** Unlinking the head of a duplicate-free list leaves its tail. */
  lemma HeadRemoved(q: seq<Entry>)
    requires Distinct(q) && q != []
    ensures Remove(q, q[0].slot) == q[1..]
  {
    RemoveAt(q, 0);
    assert q[..0] + q[1..] == q[1..];
  }
}
