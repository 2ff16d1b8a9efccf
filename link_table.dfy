/** The prev/next pointers of the timer list, as a table from slot to its
    two pointers, and what remove_timer and insert_timer do to that table.

    A table `L` threads a list `q` when every entry's pointers name exactly
    its neighbours in `q`.  Unlink and LinkIn are the prev/next writes of
    remove_timer and insert_timer; the lemmas show the table then threads
    the shorter or longer list. */
module LinkTable {
  import opened TimeoutQueue
  import opened TimerSlot

  /** timer_head of a list given as its entries from the head onwards. */
  function HeadLink(q: seq<Entry>): Link {
    if q == [] then Null else Ptr(q[0].slot)
  }

  /** The prev pointer of the entry at position `i`. */
  function PrevLink(q: seq<Entry>, i: nat): Link
    requires i < |q|
  {
    if i == 0 then Null else Ptr(q[i - 1].slot)
  }

  /** The next pointer of the entry at position `i`. */
  function NextLink(q: seq<Entry>, i: nat): Link
    requires i < |q|
  {
    if i + 1 < |q| then Ptr(q[i + 1].slot) else Null
  }

  ghost predicate ThreadedAt(q: seq<Entry>, L: map<Slot, Links>, i: nat)
    requires i < |q|
  {
    q[i].slot in L && L[q[i].slot] == Links(PrevLink(q, i), NextLink(q, i))
  }

  /** Every entry of `q` points at its neighbours in `q`. */
  ghost predicate Threaded(q: seq<Entry>, L: map<Slot, Links>) {
    forall i :: 0 <= i < |q| ==> ThreadedAt(q, L, i)
  }

  /** x->next = v. */
  function SetNext(L: map<Slot, Links>, x: Slot, v: Link): map<Slot, Links>
    requires x in L
  {
    L[x := L[x].(next := v)]
  }

  /** x->prev = v. */
  function SetPrev(L: map<Slot, Links>, x: Slot, v: Link): map<Slot, Links>
    requires x in L
  {
    L[x := L[x].(prev := v)]
  }

  /** The writes of remove_timer for the entry at position `i`: its
      predecessor, if any, skips forward over it, and its successor, if
      any, skips back over it. */
  ghost function Unlink(L: map<Slot, Links>, q: seq<Entry>, i: nat): (r: map<Slot, Links>)
    requires i < |q| && Threaded(q, L)
    ensures r.Keys == L.Keys
    ensures i > 0 ==> q[i - 1].slot in r && r[q[i - 1].slot].next == NextLink(q, i)
    ensures i + 1 < |q| ==> q[i + 1].slot in r && r[q[i + 1].slot].prev == PrevLink(q, i)
    ensures 0 < i && (i + 1 == |q| || q[i + 1].slot != q[i - 1].slot) ==> r[q[i - 1].slot].prev == L[q[i - 1].slot].prev
    ensures i + 1 < |q| && (i == 0 || q[i - 1].slot != q[i + 1].slot) ==> r[q[i + 1].slot].next == L[q[i + 1].slot].next
    ensures forall x :: x in L && (i == 0 || x != q[i - 1].slot) && (i + 1 == |q| || x != q[i + 1].slot) ==> r[x] == L[x]
  {
    var L1 := if i > 0 then (assert ThreadedAt(q, L, i - 1); SetNext(L, q[i - 1].slot, NextLink(q, i))) else L;
    if i + 1 < |q| then (assert ThreadedAt(q, L, i + 1); SetPrev(L1, q[i + 1].slot, PrevLink(q, i))) else L1
  }

  /** The writes of insert_timer for slot `s` going in at position `k`:
      `s` points at the entries either side, and they point back at it. */
  ghost function LinkIn(L: map<Slot, Links>, q: seq<Entry>, k: nat, s: Slot): (r: map<Slot, Links>)
    requires k <= |q| && Threaded(q, L)
    ensures r.Keys == L.Keys + {s}
    ensures k < |q| ==> q[k].slot in r && r[q[k].slot].prev == Ptr(s)
    ensures k > 0 ==> q[k - 1].slot in r && r[q[k - 1].slot].next == Ptr(s)
    ensures (k == |q| || q[k].slot != s) && (k == 0 || q[k - 1].slot != s) ==>
      r[s] == Links(if k == 0 then Null else Ptr(q[k - 1].slot), if k < |q| then Ptr(q[k].slot) else Null)
    ensures k < |q| && q[k].slot != s && (k == 0 || q[k - 1].slot != q[k].slot) ==> r[q[k].slot].next == L[q[k].slot].next
    ensures 0 < k && q[k - 1].slot != s && (k == |q| || q[k].slot != q[k - 1].slot) ==> r[q[k - 1].slot].prev == L[q[k - 1].slot].prev
    ensures forall x :: x in L && x != s && (k == |q| || x != q[k].slot) && (k == 0 || x != q[k - 1].slot) ==> r[x] == L[x]
  {
    var before := if k == 0 then Null else Ptr(q[k - 1].slot);
    var after := if k < |q| then Ptr(q[k].slot) else Null;
    var L1 := L[s := Links(before, after)];
    var L2 := if k < |q| then (assert ThreadedAt(q, L, k); SetPrev(L1, q[k].slot, Ptr(s))) else L1;
    if k > 0 then (assert ThreadedAt(q, L, k - 1); SetNext(L2, q[k - 1].slot, Ptr(s))) else L2
  }

  /** Unlinking position `i`: entry `j` of the shorter list is entry `j'`
      of the old one, and only the neighbours of `i` see new pointers. */
  lemma UnlinkView(q: seq<Entry>, i: nat, j: nat)
    requires i < |q| && j + 1 < |q|
    ensures var r := q[..i] + q[i + 1..]; var j' := if j < i then j else j + 1;
      && |r| == |q| - 1 && r[j] == q[j']
      && PrevLink(r, j) == (if j' == i + 1 then PrevLink(q, i) else PrevLink(q, j'))
      && NextLink(r, j) == (if j' + 1 == i then NextLink(q, i) else NextLink(q, j'))
  {
  }

  /** Linking `e` in at position `k`: where each entry of the longer list
      came from, and which pointers differ from the old list's. */
  lemma LinkInView(q: seq<Entry>, k: nat, e: Entry, j: nat)
    requires k <= |q| && j <= |q|
    ensures var r := q[..k] + [e] + q[k..];
      && |r| == |q| + 1
      && (j < k ==> r[j] == q[j] && PrevLink(r, j) == PrevLink(q, j)
                    && NextLink(r, j) == (if j + 1 == k then Ptr(e.slot) else NextLink(q, j)))
      && (j == k ==> r[j] == e && PrevLink(r, j) == (if k == 0 then Null else Ptr(q[k - 1].slot))
                     && NextLink(r, j) == (if k < |q| then Ptr(q[k].slot) else Null))
      && (j > k ==> r[j] == q[j - 1] && NextLink(r, j) == NextLink(q, j - 1)
                    && PrevLink(r, j) == (if j == k + 1 then Ptr(e.slot) else PrevLink(q, j - 1)))
  {
  }

  /** After remove_timer's writes the table threads the list without the
      removed entry. */
  lemma UnlinkThreaded(q: seq<Entry>, L: map<Slot, Links>, i: nat)
    requires i < |q| && Distinct(q) && Threaded(q, L)
    ensures Threaded(q[..i] + q[i + 1..], Unlink(L, q, i))
  {
    var r := q[..i] + q[i + 1..];
    var L' := Unlink(L, q, i);
    forall j | 0 <= j < |r|
      ensures ThreadedAt(r, L', j)
    {
      UnlinkView(q, i, j);
      var j': nat := if j < i then j else j + 1;
      assert ThreadedAt(q, L, j');
      if i > 0 && j' + 1 != i {
        assert q[j'].slot != q[i - 1].slot;
      }
      if i + 1 < |q| && j' != i + 1 {
        assert q[j'].slot != q[i + 1].slot;
      }
      if i > 0 && i + 1 < |q| {
        assert q[i - 1].slot != q[i + 1].slot;
      }
    }
  }

  /** After insert_timer's writes the table threads the list with the new
      entry at position `k`. */
  lemma LinkInThreaded(q: seq<Entry>, L: map<Slot, Links>, k: nat, e: Entry)
    requires k <= |q| && Distinct(q) && Threaded(q, L)
    requires forall j :: 0 <= j < |q| ==> q[j].slot != e.slot
    ensures Threaded(q[..k] + [e] + q[k..], LinkIn(L, q, k, e.slot))
  {
    var r := q[..k] + [e] + q[k..];
    var L' := LinkIn(L, q, k, e.slot);
    forall j | 0 <= j < |r|
      ensures ThreadedAt(r, L', j)
    {
      LinkInView(q, k, e, j);
      if k > 0 && k < |q| {
        assert q[k - 1].slot != q[k].slot;
      }
      if j < k {
        assert ThreadedAt(q, L, j);
        if j + 1 < k {
          assert q[j].slot != q[k - 1].slot;
        }
        if k < |q| {
          assert q[j].slot != q[k].slot;
        }
      } else if j > k {
        assert ThreadedAt(q, L, j - 1);
        if k > 0 {
          assert q[j - 1].slot != q[k - 1].slot;
        }
        if j > k + 1 {
          assert q[j - 1].slot != q[k].slot;
        }
      }
    }
  }

  /** remove_timer on a well-formed list: the list without position `i`
      is still sorted and duplicate-free, is threaded by the rewritten
      table, starts where the new head points, and has lost exactly the
      removed slot. */
  lemma UnlinkKeeps(q: seq<Entry>, L: map<Slot, Links>, i: nat)
    requires i < |q| && Sorted(q) && Distinct(q) && Threaded(q, L)
    ensures var r := q[..i] + q[i + 1..];
      && r == Remove(q, q[i].slot)
      && Sorted(r) && Distinct(r) && Threaded(r, Unlink(L, q, i))
      && HeadLink(r) == (if i == 0 then NextLink(q, i) else HeadLink(q))
      && Members(r) == Members(q) - {q[i].slot}
  {
    UnlinkThreaded(q, L, i);
    RemoveAt(q, i);
    RemoveAtKeeps(q, i);
    RemoveMembers(q, q[i].slot);
  }

  /** insert_timer on a well-formed list: linking `e` in at InsertPos
      gives Insert(q, e), sorted and duplicate-free, threaded by the
      rewritten table, headed by `e` exactly when it went in first, and
      holding one slot more. */
  lemma LinkInKeeps(q: seq<Entry>, L: map<Slot, Links>, e: Entry)
    requires Sorted(q) && Distinct(q) && Threaded(q, L) && e.slot !in Members(q)
    ensures var k := InsertPos(q, e.deadline); var r := q[..k] + [e] + q[k..];
      && r == Insert(q, e)
      && Sorted(r) && Distinct(r) && Threaded(r, LinkIn(L, q, k, e.slot))
      && HeadLink(r) == (if k == 0 then Ptr(e.slot) else HeadLink(q))
      && Members(r) == Members(q) + {e.slot}
  {
    var k := InsertPos(q, e.deadline);
    forall j | 0 <= j < |q|
      ensures q[j].slot != e.slot
    {
      MemberIndex(q, e.slot);
    }
    LinkInThreaded(q, L, k, e);
    InsertSorted(q, e);
    InsertMembers(q, e);
    InsertDistinct(q, e);
  }
}
