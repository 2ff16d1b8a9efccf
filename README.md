# Time server timeout list, in Dafny

This project models the timeout service of `components/TimeServerNVTMR/src/time_server.c`.
The service turns one 1 ms hardware tick into many logical timers:

- Each client owns a fixed table of timer slots. Each slot is OFF, RELATIVE, ABSOLUTE or PERIODIC.
- Every armed slot is threaded into one global doubly linked list, sorted by `timeout_time`. Its head is `timer_head`.
- Control calls re-arm a slot: `_oneshot_relative`, `_oneshot_absolute` and `_periodic`. `_stop` disarms it.
- `_completed` reads and clears a client's mask of fired timers. `_time` reads the clock.
- On every tick, `irq_handle` advances the clock. Then `signal_clients` fires every head entry whose deadline has been reached. Each fired entry sets a bit in its owner's mask. A periodic slot is linked in again one period later; a one-shot slot is turned OFF.

The files are:

- `timeout_queue.dfy` (module `TimeoutQueue`) describes the list as a value: the sequence of `(slot, deadline)` entries from the head onwards. It defines:
  - `InsertPos`, the stopping point of the scan in `insert_timer`;
  - `Insert` and `Remove`, what `insert_timer` and `remove_timer` leave;
  - `Overdue`, the measure that bounds the drain.
- `timer_slot.dfy` (module `TimerSlot`) holds one slot's settings as a value. It defines:
  - `Signalled`, what `signal_client` does to a slot;
  - `Fire`, what a whole tick does to a slot;
  - the predicates that follow a slot part-way through a drain.
- `bitmask.dfy` (module `Bitmask`) defines `BIT(id)` on 32-bit masks, what or-ing it in does, and which bits one mask holds over another.
- `link_table.dfy` (module `LinkTable`) describes the prev/next pointers as a map from slot to links. It proves that the prev/next writes of `remove_timer` and `insert_timer` thread the new list.
- `drain.dfy` (module `Drain`) states the two invariants of the drain loop in `signal_clients`, over whole tables of slots. It proves what they give once the loop stops.
- `time_server.dfy` (module `TimeServer`) holds the state of the server in one object of class `Server`:
  - `timers`, a two-dimensional array of slot settings (`client_state[cid].timers[tid]`);
  - `links`, a parallel array of prev/next pointers;
  - `completed`, an array of masks;
  - `timerHead` and `currentTime`.

  The methods of `Server` run the C functions' own loops and pointer writes on those arrays. Each method is proved against the list and slot functions above. Three ghost fields read the arrays abstractly: `queue` (the list from `timerHead`), `linkMap` and `table`. `Valid()` ties them to the arrays. It also says:
  - the list is sorted and has no duplicate slot;
  - every entry carries its slot's `timeout_time`;
  - a slot is on the list exactly when its type is not OFF;
  - every periodic slot has a positive period.

A pointer to a slot is modelled as the slot's coordinates `(cid, tid)`. In the source these are the slot's `client_id` and `id` fields, which `post_init` sets to the coordinates and nothing changes later.

## Model

| member | source | states |
|---|---|---|
| TimeServer.Server.constructor | components/TimeServerNVTMR/src/time_server.c:284-294 | post_init allocates fresh slot, link and mask tables, leaves every slot OFF with prev and next NULL and every mask 0; the clock is 0 and the list is empty; the state is Valid |
| TimeServer.Server.InitialValid | components/TimeServerNVTMR/src/time_server.c:284-294 | the all-OFF, all-NULL state with an empty list satisfies every invariant of the server |
| TimeServer.OffTimers | components/TimeServerNVTMR/src/time_server.c:289-294 | the inner loop of post_init leaves every slot of the fresh table OFF |
| TimeServer.UnlinkedTable | components/TimeServerNVTMR/src/time_server.c:289-294 | the inner loop of post_init leaves every prev and next pointer NULL |
| TimeServer.ZeroMasks | components/TimeServerNVTMR/src/time_server.c:284-286 | the outer loop of post_init leaves every client's completed mask 0 |
| TimeServer.Server.CurrentTimeNs | components/TimeServerNVTMR/src/time_server.c:78-81 | current_time_ns returns the clock, reading nothing else |
| TimeServer.Server.UpdateCurrentTimeNs | components/TimeServerNVTMR/src/time_server.c:73-76 | the clock grows by exactly `ns` and nothing else changes |
| TimeServer.Server.DetachLinks | components/TimeServerNVTMR/src/time_server.c:83-94 | the prev/next writes of remove_timer leave the link table equal to Unlink of the list at the slot's position; the head moves to the successor exactly when the slot was first |
| TimeServer.Server.RemoveTimer | components/TimeServerNVTMR/src/time_server.c:83-94 | after remove_timer the list is the old list with exactly that slot deleted, in the same order, still sorted and threaded, and its members lose exactly that slot |
| TimeServer.Server.FindPosition | components/TimeServerNVTMR/src/time_server.c:98-99 | the scan stops at InsertPos: after every entry with a strictly smaller deadline, at the first whose deadline is not smaller; `current` is the entry before it, or NULL at the head |
| TimeServer.Server.AttachLinks | components/TimeServerNVTMR/src/time_server.c:100-109 | the prev/next writes of insert_timer leave the link table equal to LinkIn at the scan's stop; timer_head becomes the slot exactly when it lands first |
| TimeServer.Server.InsertTimer | components/TimeServerNVTMR/src/time_server.c:96-110 | after insert_timer the list is Insert(old list, slot at its timeout_time), sorted and threaded, and its members gain exactly that slot |
| TimeServer.Server.RemovePlan | components/TimeServerNVTMR/src/time_server.c:83-94 | the list without position i is Remove of that slot, still sorted, duplicate-free and scheduled, threaded by the unlink writes, with the head moving on only when position 0 goes, and its members lose exactly that slot |
| TimeServer.Server.InsertPlan | components/TimeServerNVTMR/src/time_server.c:96-110 | the list with the new entry at the scan's stop is sorted, duplicate-free, threaded by the new pointers, and headed by the new entry exactly when it went in at position 0 |
| TimeServer.Server.SetTimer | components/TimeServerNVTMR/src/time_server.c:160-161 | writing an unlinked slot's settings changes that slot only and leaves the list valid |
| TimeServer.Server.Rearm | components/TimeServerNVTMR/src/time_server.c:156-162 | re-arming first unlinks the slot if it is armed: the list becomes Insert(Remove(old list, slot), slot at its new deadline), so the slot is on it exactly once, and only that slot's settings change |
| TimeServer.Server.Disarm | components/TimeServerNVTMR/src/time_server.c:209-212 | an armed slot is unlinked and turned OFF; the list loses exactly it and no other slot changes |
| TimeServer.Server.OneshotRelative | components/TimeServerNVTMR/src/time_server.c:150-165 | -1 and no state change for a tid out of range, else 0; the slot becomes RELATIVE with deadline now + ns and is re-linked by that deadline |
| TimeServer.Server.OneshotAbsolute | components/TimeServerNVTMR/src/time_server.c:167-182 | -1 and no state change for a tid out of range, else 0; the slot becomes ABSOLUTE with deadline ns verbatim and is re-linked by that deadline |
| TimeServer.Server.Periodic | components/TimeServerNVTMR/src/time_server.c:184-200 | -1 and no state change for a tid out of range, else 0; the slot becomes PERIODIC with period ns and deadline now + ns and is re-linked by that deadline |
| TimeServer.Server.Stop | components/TimeServerNVTMR/src/time_server.c:202-215 | -1 and no state change for a tid out of range, else 0; the slot is OFF and off the list afterwards; on a slot already OFF nothing changes at all, so a second stop is a no-op |
| TimeServer.Server.Completed | components/TimeServerNVTMR/src/time_server.c:217-225 | returns the client's mask as it was and leaves it 0, so an immediate second call returns 0; other clients' masks are unchanged |
| TimeServer.Server.Time | components/TimeServerNVTMR/src/time_server.c:227-232 | returns the clock, whichever client asks, and changes nothing |
| TimeServer.Server.Mark | components/TimeServerNVTMR/src/time_server.c:115 | the mask of the slot's client gains BIT(id); every other mask is unchanged |
| TimeServer.Server.FireSlot | components/TimeServerNVTMR/src/time_server.c:116-129 | the fired slot becomes Signalled (periodic: one period later; one-shot: OFF), and the list becomes Fired: unlinked, and linked in again at deadline + period when periodic |
| TimeServer.Server.FirePeriodic | components/TimeServerNVTMR/src/time_server.c:116-123 | a periodic slot is unlinked and linked in again at deadline + period, its table entry becomes Signalled, and the list invariants hold again |
| TimeServer.Server.FireOnce | components/TimeServerNVTMR/src/time_server.c:116-127 | a one-shot slot is unlinked and turned OFF, its table entry becomes Signalled, and the list invariants hold again |
| TimeServer.Server.SignalClient | components/TimeServerNVTMR/src/time_server.c:112-130 | signal_client on a slot of the list: its bit is set in its owner's mask, the slot becomes Signalled and the list becomes Fired; the slot was armed, so the OFF case cannot occur |
| TimeServer.Server.FireHead | components/TimeServerNVTMR/src/time_server.c:134-136 | one pass of the drain loop keeps both drain invariants and strictly lowers Overdue of the list, so the loop ends |
| TimeServer.Server.NoneDue | components/TimeServerNVTMR/src/time_server.c:134 | once the head of the sorted list is not due, no armed slot is due |
| TimeServer.Server.DrainEnd | components/TimeServerNVTMR/src/time_server.c:134-137 | when the loop guard fails, the head's deadline is after now, and the drain invariants give Drained |
| TimeServer.Server.SignalClients | components/TimeServerNVTMR/src/time_server.c:132-137 | afterwards the list is empty or its head's deadline is after now; every slot is Fire(old slot, now); the bits added to the masks are exactly those of the slots that were due |
| TimeServer.Server.IrqHandle | components/TimeServerNVTMR/src/time_server.c:140-148 | the clock grows by exactly TIMER_PERIOD, and the list is then drained at the new time as in SignalClients |
| TimeoutQueue.InsertPos | components/TimeServerNVTMR/src/time_server.c:99 | the scan's stop: every entry before it has a strictly smaller deadline, and the entry at it, if any, does not |
| TimeoutQueue.Insert | components/TimeServerNVTMR/src/time_server.c:96-110 | the list after insert_timer is exactly one entry longer; where the new entry lands and that nothing else changes is InsertIndex, InsertSorted and InsertContents |
| TimeoutQueue.Remove | components/TimeServerNVTMR/src/time_server.c:83-94 | the list after remove_timer is no longer than before and no longer holds the slot (that it is exactly one position shorter is RemoveAt) |
| TimeoutQueue.InsertPosUnique | components/TimeServerNVTMR/src/time_server.c:99 | the scan's stopping point is the only position with every entry before it smaller than the new deadline and the entry at it not smaller |
| TimeoutQueue.InsertIndex | components/TimeServerNVTMR/src/time_server.c:100-109 | Insert puts the new entry at InsertPos, keeps the entries before it in place, and moves the rest one position along |
| TimeoutQueue.InsertSorted | components/TimeServerNVTMR/src/time_server.c:96-110 | Insert keeps a sorted list sorted and puts the new entry after every strictly smaller deadline and ahead of equal ones |
| TimeoutQueue.InsertContents | components/TimeServerNVTMR/src/time_server.c:96-110 | Insert adds exactly the new entry: the multiset grows by it, and the list without position InsertPos is the old list |
| TimeoutQueue.InsertMembers | components/TimeServerNVTMR/src/time_server.c:96-110 | Insert adds exactly the new slot to the members |
| TimeoutQueue.InsertDistinct | components/TimeServerNVTMR/src/time_server.c:96-110 | inserting a slot not yet on a duplicate-free list keeps it duplicate-free |
| TimeoutQueue.RemoveAt | components/TimeServerNVTMR/src/time_server.c:83-94 | on a duplicate-free list, Remove of the slot at position i is the list without position i |
| TimeoutQueue.RemoveAtKeeps | components/TimeServerNVTMR/src/time_server.c:83-94 | deleting one position keeps a list sorted and duplicate-free |
| TimeoutQueue.RemoveMembers | components/TimeServerNVTMR/src/time_server.c:83-94 | Remove takes exactly that slot out of the members |
| TimeoutQueue.RemoveAbsent | components/TimeServerNVTMR/src/time_server.c:157-159 | removing a slot that is not on the list changes nothing, so the OFF branch of the control calls matches Remove |
| TimeoutQueue.RemoveIdempotent | components/TimeServerNVTMR/src/time_server.c:209-212 | removing twice is removing once |
| TimeoutQueue.RemoveInsert | components/TimeServerNVTMR/src/time_server.c:96-110 | Remove undoes Insert of a slot not yet on the list |
| TimeoutQueue.RemoveSplice | components/TimeServerNVTMR/src/time_server.c:83-94 | removing a slot found only between two halves rejoins the halves |
| TimeoutQueue.HeadRemoved | components/TimeServerNVTMR/src/time_server.c:134-135 | removing the head of a duplicate-free list leaves its tail |
| TimeoutQueue.OverdueInsert | components/TimeServerNVTMR/src/time_server.c:122-123 | Insert adds exactly the new entry's lateness to Overdue |
| Drain.FiringShrinksOverdue | components/TimeServerNVTMR/src/time_server.c:116-136 | firing a due head with a well-formed slot (Fired) lowers Overdue, both when it is only unlinked and when it is linked in again one positive period later, so the drain loop ends |
| Drain.ZeroPeriodRequeueFixpoint | components/TimeServerNVTMR/src/time_server.c:121-123 | firing a periodic head with period 0 (Fired) leaves the sorted list exactly as it was, so the drain makes no progress |
| TimerSlot.Signalled | components/TimeServerNVTMR/src/time_server.c:117-129 | a fired periodic slot stays periodic and moves on by one period; a one-shot slot becomes OFF with its deadline kept |
| TimerSlot.NextDeadline | components/TimeServerNVTMR/src/time_server.c:121-123 | where repeated firing takes a periodic deadline at a tick: the first of d, d + p, ... after now, never below d; when it moved (d < r), at most one period past now |
| TimerSlot.NextDeadlineSteps | components/TimeServerNVTMR/src/time_server.c:121-123 | NextDeadline is d + k·p, and k is 0 exactly when the slot was not due: the slot fires k times, each moving it by one period |
| TimerSlot.Fire | components/TimeServerNVTMR/src/time_server.c:134-136 | after a tick a slot is not due; it changed exactly when it was due; its period is kept |
| TimerSlot.DrainStep | components/TimeServerNVTMR/src/time_server.c:117-129 | firing a due slot part-way through a drain keeps it part-way through the drain and differs from its start |
| TimerSlot.DrainDone | components/TimeServerNVTMR/src/time_server.c:134 | once a slot part-way through a drain is not due, it is Fire(start, now), and it changed exactly when it was due at the start |
| LinkTable.Unlink | components/TimeServerNVTMR/src/time_server.c:85-93 | the writes of remove_timer: the predecessor's next becomes the removed entry's next and its prev is kept, the successor's prev becomes the removed entry's prev and its next is kept, and no other slot's links change |
| LinkTable.LinkIn | components/TimeServerNVTMR/src/time_server.c:100-109 | the writes of insert_timer: the new slot's prev and next are the entries either side of the scan's stop (NULL at the ends); the entry at the stop points back at it and the one before points forward at it, each keeping its other link; no other slot's links change |
| LinkTable.UnlinkThreaded | components/TimeServerNVTMR/src/time_server.c:85-93 | the prev/next writes of remove_timer thread the list without the removed position |
| LinkTable.LinkInThreaded | components/TimeServerNVTMR/src/time_server.c:100-109 | the prev/next writes of insert_timer thread the list with the new entry at the scan's stop |
| LinkTable.UnlinkKeeps | components/TimeServerNVTMR/src/time_server.c:83-94 | unlinking position i gives Remove of its slot, sorted, duplicate-free and threaded, headed by the successor when i is 0 |
| LinkTable.LinkInKeeps | components/TimeServerNVTMR/src/time_server.c:96-110 | linking in at InsertPos gives Insert, sorted, duplicate-free and threaded, headed by the new entry exactly when it went first |
| Drain.Fired | components/TimeServerNVTMR/src/time_server.c:116-129 | the list after signal_client: a periodic slot is on it again at its old deadline plus its period; a one-shot slot is no longer on it |
| Drain.DrainStart | components/TimeServerNVTMR/src/time_server.c:134 | before the first pass, both drain invariants hold |
| Drain.DrainOne | components/TimeServerNVTMR/src/time_server.c:115-129 | firing one due slot and setting its bit keeps both drain invariants |
| Drain.DrainPass | components/TimeServerNVTMR/src/time_server.c:134-136 | one pass of the loop on the tables keeps both invariants and lowers Overdue |
| Drain.DrainAll | components/TimeServerNVTMR/src/time_server.c:134-137 | once nothing armed is due, every slot is Fire(start, now) and the bits added are exactly those of the slots that were due |
| Bitmask.BitAlone | components/TimeServerNVTMR/src/time_server.c:115 | BIT(i) has bit i set and no other bit |
| Bitmask.SetBit | components/TimeServerNVTMR/src/time_server.c:115 | or-ing in BIT(a) sets bit a and leaves every other bit as it was |
| Bitmask.AddBit | components/TimeServerNVTMR/src/time_server.c:115 | when a mask holds exactly a set of bits over its value at the start of the drain, or-ing in BIT(t) makes it hold exactly that set plus t |
| Drain.DrainOneMark | components/TimeServerNVTMR/src/time_server.c:115 | setting BIT(tid) in the mask of the one slot that changed keeps every mask equal to its start value plus exactly the bits of the changed slots |
| Drain.OwnTids | components/TimeServerNVTMR/src/time_server.c:115-129 | when only slot s changes, the changed timer ids of its client grow by exactly s.tid |
| Drain.OtherTids | components/TimeServerNVTMR/src/time_server.c:115-129 | when only slot s changes, every other client has the same changed timer ids as before |

## Left out

- Locking: `time_server_lock` and `time_server_unlock` are not modelled. Each operation is one atomic method.
- Device I/O is not modelled: the timer device set-up in `post_init` (lines 297-356), and `timer_handle_irq` and `irq_acknowledge` in `irq_handle`.
- Client notification is not modelled. `the_timer_emit` is an external call, and the model keeps no log of notified clients.
- Badge wrappers are not modelled. `the_timer_*` and `the_timer_get_sender_id() - 1` are RPC transport. The control methods take `cid` directly and require `cid < numClients`; the source does not check `cid` either.
- `malloc` and its asserts in `post_init` are foreign calls. The constructor allocates fresh arrays instead.
- Integers are unbounded `nat`s. The model does not capture 64-bit wrap-around of `timeout_time += periodic_ns` and `current_time_ns() + ns`, or of the clock.
- `signal_client`'s `current_time` parameter is unused in the source, so `SignalClient` has no such parameter.
- Pointers left in removed slots are not modelled. `remove_timer` leaves the removed slot's own `prev`/`next` pointing into the list. `Valid()` constrains only the pointers of slots on the list, so those stale values are allowed but not described.
- `the_timer_tsc_frequency` only returns `TIMER_FREQUENCY`. It is kept as the constant `TimeServer.TimerFrequency`.
- `apps/can-test/components/canbus/src/canbus.c` is not part of this model. It is a device test loop.
- TimeServer.Server.Periodic: requires `ns > 0`. The source accepts 0, after which the next tick's drain never ends (see Findings).
- TimeServer.Server.constructor: requires `timersPerClient <= 32`. The source states no such bound, but `completed` is a `uint32_t` set with `BIT(id)`, so slot ids from 32 upwards cannot be recorded.
- Tie order: the scan at time_server.c:99 stops at the first entry whose deadline is not smaller, so a new entry lands ahead of existing entries with an equal deadline, not after them in FIFO order. The model follows the code (`TimeoutQueue.InsertSorted`).

## Findings

| source | as written | input that shows it | evidently intended | confidence | as-written member | corrected member |
|---|---|---|---|---|---|---|
| components/TimeServerNVTMR/src/time_server.c:184-200 | `_periodic` accepts `ns == 0`; when that slot falls due, `signal_client` adds 0 to its deadline and links it in again at the head, so the drain loop at lines 134-136 fires it forever | `_periodic(0, 0, 0)` followed by one tick: the head is due at the new time and stays the head with the same deadline | a periodic timer has a positive period, so every drain ends | not executed | Drain.ZeroPeriodRequeueFixpoint | TimeServer.Server.Periodic |
