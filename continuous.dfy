/**
 * `execute_continuous_schedule`: the messages of a reply are grouped by delay, each group
 * rotates through its messages, and a priority queue ordered by (send time, message index)
 * decides what is sent next. A group is rescheduled one delay after its previous send time
 * while the message just sent still has repeats to go (or repeats for ever), and the first
 * failed send ends the schedule.
 */
module Continuous {
  import opened Wrappers
  import opened Transport
  import opened SimSchedule
  import ReplyExecution
  import opened Arith

  /** `rotation_state`: the delay of a group, the schedule indices in it, and `current_index`. */
  datatype Rotation = Rotation(delay: int, members: seq<nat>, cursor: nat)

  /** A heap entry `(send_time, msg_index, msg, rotation_state)`: `group` names the rotation. */
  datatype Pending = Pending(time: int, msg: nat, group: nat)

  /** The heap's order on entries: by send time, then by message index. */
  predicate Before(p: Pending, q: Pending)
  {
    p.time < q.time || (p.time == q.time && p.msg < q.msg)
  }

  // ----- grouping by delay -----

  /** The group already holding `delay`, if any. */
  function GroupOf(rs: seq<Rotation>, delay: int): (g: Option<nat>)
    ensures g.Some? ==> g.value < |rs| && rs[g.value].delay == delay
    ensures g.None? ==> forall h :: 0 <= h < |rs| ==> rs[h].delay != delay
    decreases |rs|
  {
    if rs == [] then None
    else if rs[|rs| - 1].delay == delay then Some(|rs| - 1)
    else GroupOf(rs[..|rs| - 1], delay)
  }

  /** `delay_groups[delay].append((i, msg))`, creating the group on the first message with that delay. */
  function AddMember(rs: seq<Rotation>, delay: int, i: nat): seq<Rotation>
  {
    match GroupOf(rs, delay)
    case Some(g) => Join(rs, g, i)
    case None => rs + [Rotation(delay, [i], 0)]
  }

  /** The delay groups of a schedule, in order of first appearance (dictionary insertion order). */
  function DelayGroups(es: seq<Entry>): (rs: seq<Rotation>)
    ensures |rs| <= |es|
    decreases |es|
  {
    if es == [] then [] else AddMember(DelayGroups(es[..|es| - 1]), es[|es| - 1].delay, |es| - 1)
  }

  /** Each group is non-empty, starts at cursor 0 and lists its messages in schedule order. */
  predicate Shaped(rs: seq<Rotation>)
  {
    && (forall g :: 0 <= g < |rs| ==> |rs[g].members| > 0 && rs[g].cursor == 0)
    && (forall g, j, k :: 0 <= g < |rs| && 0 <= j < k < |rs[g].members| ==> rs[g].members[j] < rs[g].members[k])
  }

  /** Every member of a group is a message of the schedule with the group's delay. */
  predicate OfDelay(es: seq<Entry>, rs: seq<Rotation>)
  {
    forall g, j :: 0 <= g < |rs| && 0 <= j < |rs[g].members| ==>
      rs[g].members[j] < |es| && es[rs[g].members[j]].delay == rs[g].delay
  }

  /** The first message of a group. */
  function First(r: Rotation): nat
  {
    if r.members == [] then 0 else r.members[0]
  }

  /** Delays differ between groups, and groups are ordered by their first message. */
  predicate Apart(rs: seq<Rotation>)
  {
    && (forall g, h :: 0 <= g < |rs| && 0 <= h < |rs| && g != h ==> rs[g].delay != rs[h].delay)
    && (forall g, h :: 0 <= g < h < |rs| ==> First(rs[g]) < First(rs[h]))
  }

  /** Message `i` is a member of some group. */
  predicate Covers(rs: seq<Rotation>, i: nat)
  {
    exists g, j :: 0 <= g < |rs| && 0 <= j < |rs[g].members| && rs[g].members[j] == i
  }

  /** `rs` partitions the schedule `es` by delay, in order of first appearance. */
  predicate Grouping(es: seq<Entry>, rs: seq<Rotation>)
  {
    Shaped(rs) && OfDelay(es, rs) && Apart(rs) && forall i :: 0 <= i < |es| ==> Covers(rs, i)
  }

  /** Adding message `i` to group `g`. */
  function Join(rs: seq<Rotation>, g: nat, i: nat): seq<Rotation>
    requires g < |rs|
  {
    rs[g := rs[g].(members := rs[g].members + [i])]
  }

  lemma JoinShaped(rs: seq<Rotation>, g: nat, i: nat)
    requires Shaped(rs) && g < |rs| && forall j :: 0 <= j < |rs[g].members| ==> rs[g].members[j] < i
    ensures Shaped(Join(rs, g, i))
  {
    var rs' := Join(rs, g, i);
    assert forall h :: 0 <= h < |rs| && h != g ==> rs'[h] == rs[h];
    assert forall j :: 0 <= j < |rs[g].members| ==> rs'[g].members[j] == rs[g].members[j];
  }

  lemma JoinOfDelay(es: seq<Entry>, rs: seq<Rotation>, e: Entry, g: nat)
    requires OfDelay(es, rs) && g < |rs| && rs[g].delay == e.delay
    ensures OfDelay(es + [e], Join(rs, g, |es|))
  {
    var es' := es + [e];
    var rs' := Join(rs, g, |es|);
    assert forall k :: 0 <= k < |es| ==> es'[k] == es[k];
    assert forall h :: 0 <= h < |rs| && h != g ==> rs'[h] == rs[h];
    assert forall j :: 0 <= j < |rs[g].members| ==> rs'[g].members[j] == rs[g].members[j];
  }

  lemma JoinApart(rs: seq<Rotation>, g: nat, i: nat)
    requires Shaped(rs) && Apart(rs) && g < |rs|
    ensures Apart(Join(rs, g, i))
  {
    var rs' := Join(rs, g, i);
    assert forall h :: 0 <= h < |rs| && h != g ==> rs'[h] == rs[h];
    assert First(rs'[g]) == First(rs[g]);
  }

  lemma JoinCovers(es: seq<Entry>, rs: seq<Rotation>, g: nat)
    requires (forall i :: 0 <= i < |es| ==> Covers(rs, i)) && g < |rs|
    ensures forall i :: 0 <= i < |es| + 1 ==> Covers(Join(rs, g, |es|), i)
  {
    var rs' := Join(rs, g, |es|);
    forall k | 0 <= k < |es|
      ensures Covers(rs', k)
    {
      assert Covers(rs, k);
      var g', j :| 0 <= g' < |rs| && 0 <= j < |rs[g'].members| && rs[g'].members[j] == k;
      assert rs'[g'].members[j] == k;
    }
    assert rs'[g].members[|rs[g].members|] == |es|;
  }

  /** A message joins the existing group of its delay. */
  lemma JoinGroup(es: seq<Entry>, rs: seq<Rotation>, e: Entry, g: nat)
    requires Grouping(es, rs) && g < |rs| && rs[g].delay == e.delay
    ensures Grouping(es + [e], Join(rs, g, |es|))
  {
    JoinShaped(rs, g, |es|);
    JoinOfDelay(es, rs, e, g);
    JoinApart(rs, g, |es|);
    JoinCovers(es, rs, g);
  }

  /** A message opens a new group for a delay not seen before. */
  lemma NewGroup(es: seq<Entry>, rs: seq<Rotation>, e: Entry)
    requires Grouping(es, rs) && forall h :: 0 <= h < |rs| ==> rs[h].delay != e.delay
    ensures Grouping(es + [e], rs + [Rotation(e.delay, [|es|], 0)])
  {
    var es' := es + [e];
    var i := |es|;
    var rs' := rs + [Rotation(e.delay, [i], 0)];
    assert forall k :: 0 <= k < |es| ==> es'[k] == es[k];
    assert forall h :: 0 <= h < |rs| ==> rs'[h] == rs[h];
    assert First(rs'[|rs|]) == i;
    assert Shaped(rs');
    assert OfDelay(es', rs');
    assert Apart(rs') by {
      forall h | 0 <= h < |rs|
        ensures First(rs[h]) < i
      {
        assert OfDelay(es, rs) && rs[h].members[0] < |es|;
      }
    }
    forall k | 0 <= k < |es|
      ensures Covers(rs', k)
    {
      assert Covers(rs, k);
      var g', j :| 0 <= g' < |rs| && 0 <= j < |rs[g'].members| && rs[g'].members[j] == k;
      assert rs'[g'].members[j] == k;
    }
    assert rs'[|rs|].members[0] == i;
    assert Covers(rs', i);
  }

  lemma AddMemberKeepsGrouping(es: seq<Entry>, rs: seq<Rotation>, e: Entry)
    requires Grouping(es, rs)
    ensures Grouping(es + [e], AddMember(rs, e.delay, |es|))
  {
    match GroupOf(rs, e.delay)
    case Some(g) =>
      assert OfDelay(es, rs);
      JoinGroup(es, rs, e, g);
    case None => NewGroup(es, rs, e);
  }

  /** The delay groups partition the schedule as `Grouping` describes. */
  lemma {:induction false} DelayGroupsPartition(es: seq<Entry>)
    ensures Grouping(es, DelayGroups(es))
    decreases |es|
  {
    if es != [] {
      var front, e := es[..|es| - 1], es[|es| - 1];
      assert front + [e] == es;
      assert DelayGroups(es) == AddMember(DelayGroups(front), e.delay, |front|);
      DelayGroupsPartition(front);
      AddMemberKeepsGrouping(front, DelayGroups(front), e);
    }
  }

  // ----- the send queue -----

  predicate SortedQueue(q: seq<Pending>)
  {
    forall i, j :: 0 <= i < j < |q| ==> Before(q[i], q[j])
  }

  predicate OneEntryPerGroup(q: seq<Pending>)
  {
    forall i, j :: 0 <= i < j < |q| ==> q[i].group != q[j].group
  }

  /** `heapq.heappush` on a queue kept in (time, index) order: the queue gains exactly `p`. */
  function Insert(q: seq<Pending>, p: Pending): (r: seq<Pending>)
    ensures |r| == |q| + 1
    ensures forall x :: x in r <==> x == p || x in q
    decreases |q|
  {
    if q == [] then [p]
    else if Before(p, q[0]) then [p] + q
    else
      assert q == [q[0]] + q[1..];
      [q[0]] + Insert(q[1..], p)
  }

  /** What the tail of a queue inherits from the queue. */
  lemma QueueTail(q: seq<Pending>)
    requires q != []
    ensures forall x :: x in q[1..] ==> x in q
    ensures SortedQueue(q) ==> SortedQueue(q[1..]) && forall x :: x in q[1..] ==> Before(q[0], x)
    ensures OneEntryPerGroup(q) ==> OneEntryPerGroup(q[1..]) && forall x :: x in q[1..] ==> x.group != q[0].group
  {
    forall x | x in q[1..]
      ensures x in q && (SortedQueue(q) ==> Before(q[0], x)) && (OneEntryPerGroup(q) ==> x.group != q[0].group)
    {
      var k :| 0 <= k < |q[1..]| && q[1..][k] == x;
      assert q[k + 1] == x;
    }
    forall i, j | 0 <= i < j < |q[1..]|
      ensures q[1..][i] == q[i + 1] && q[1..][j] == q[j + 1]
    {
    }
  }

  lemma ConsSorted(x0: Pending, t: seq<Pending>)
    requires SortedQueue(t) && forall x :: x in t ==> Before(x0, x)
    ensures SortedQueue([x0] + t)
  {
    var r := [x0] + t;
    forall i, j | 0 <= i < j < |r|
      ensures Before(r[i], r[j])
    {
      assert r[j] == t[j - 1];
      if i > 0 {
        assert r[i] == t[i - 1];
      } else {
        assert t[j - 1] in t;
      }
    }
  }

  lemma ConsGroups(x0: Pending, t: seq<Pending>)
    requires OneEntryPerGroup(t) && forall x :: x in t ==> x.group != x0.group
    ensures OneEntryPerGroup([x0] + t)
  {
    var r := [x0] + t;
    forall i, j | 0 <= i < j < |r|
      ensures r[i].group != r[j].group
    {
      assert r[j] == t[j - 1];
      if i > 0 {
        assert r[i] == t[i - 1];
      } else {
        assert t[j - 1] in t;
      }
    }
  }

  /** Pushing a message not already queued keeps the queue in (time, index) order. */
  lemma {:induction false} InsertSorted(q: seq<Pending>, p: Pending)
    requires SortedQueue(q) && forall x :: x in q ==> x.msg != p.msg
    ensures SortedQueue(Insert(q, p))
    decreases |q|
  {
    if q != [] {
      QueueTail(q);
      if Before(p, q[0]) {
        ConsSorted(p, q);
      } else {
        InsertSorted(q[1..], p);
        assert Before(q[0], p);
        ConsSorted(q[0], Insert(q[1..], p));
      }
    }
  }

  /** Pushing for a group not already queued keeps one entry per group. */
  lemma {:induction false} InsertGroups(q: seq<Pending>, p: Pending)
    requires OneEntryPerGroup(q) && forall x :: x in q ==> x.group != p.group
    ensures OneEntryPerGroup(Insert(q, p))
    decreases |q|
  {
    if q != [] {
      QueueTail(q);
      if Before(p, q[0]) {
        ConsGroups(p, q);
      } else {
        InsertGroups(q[1..], p);
        ConsGroups(q[0], Insert(q[1..], p));
      }
    }
  }

  // ----- scheduler state -----

  /** The schedule being executed, the rotations, the send queue, the connection, and whether a send failed. */
  datatype Sched = Sched(entries: seq<Entry>, rotations: seq<Rotation>, queue: seq<Pending>, wire: Wire, failed: bool)

  /** Every rotation is non-empty, its cursor is in range, and its members are messages of its delay. */
  predicate RotationsOK(st: Sched)
  {
    var rs := st.rotations;
    && (forall g :: 0 <= g < |rs| ==> 0 < |rs[g].members| && rs[g].cursor < |rs[g].members|)
    && (forall g, j :: 0 <= g < |rs| && 0 <= j < |rs[g].members| ==>
          rs[g].members[j] < |st.entries| && st.entries[rs[g].members[j]].delay == rs[g].delay)
    && (forall g, h :: 0 <= g < |rs| && 0 <= h < |rs| && g != h ==> rs[g].delay != rs[h].delay)
  }

  /** The message a rotation will send next. */
  function Current(r: Rotation): nat
  {
    if r.cursor < |r.members| then r.members[r.cursor] else 0
  }

  /** Every queued entry names a group and that group's current message. */
  predicate QueueCurrent(q: seq<Pending>, rs: seq<Rotation>)
  {
    forall p :: p in q ==> p.group < |rs| && p.msg == Current(rs[p.group])
  }

  /**
   * The scheduler's invariant: the rotations are sound, every queued entry names its group's
   * current message, the queue holds at most one entry per group, and it is ordered.
   */
  predicate Valid(st: Sched)
  {
    && RotationsOK(st)
    && QueueCurrent(st.queue, st.rotations)
    && OneEntryPerGroup(st.queue)
    && SortedQueue(st.queue)
  }

  /** Whether the message just sent, now sent `e.sentCount` times, is to be sent again. */
  predicate Again(e: Entry)
  {
    e.repeat == 0 || e.sentCount < e.repeat
  }

  /** One pass of the inner loop: pop the earliest entry, wait until it is due, send it, and reschedule its group. */
  function Step(st: Sched): (r: Sched)
    requires Valid(st) && st.queue != []
  {
    var p := st.queue[0];
    Advance(st, Attempt(WaitUntil(st.wire, p.time), st.entries[p.msg].path))
  }

  /** What the scheduler does with the outcome of sending the head of the queue. */
  function Advance(st: Sched, a: Attempted): Sched
    requires Valid(st) && st.queue != []
  {
    var p := st.queue[0];
    if !a.ok then st.(queue := st.queue[1..], wire := a.wire, failed := true)
    else
      var e := st.entries[p.msg].(sentCount := st.entries[p.msg].sentCount + 1);
      var entries := st.entries[p.msg := e];
      if Again(e) then Reschedule(st).(entries := entries, wire := a.wire, failed := false)
      else st.(entries := entries, queue := st.queue[1..], wire := a.wire, failed := false)
  }

  /** Updating send counts leaves the invariant alone: it only reads the delays. */
  lemma RecountValid(st: Sched, entries: seq<Entry>)
    requires Valid(st) && |entries| == |st.entries|
    requires forall k :: 0 <= k < |entries| ==> entries[k].delay == st.entries[k].delay
    ensures Valid(st.(entries := entries))
  {
    assert RotationsOK(st.(entries := entries));
  }

  /** `heappop` keeps the invariant. */
  lemma PopValid(st: Sched)
    requires Valid(st) && st.queue != []
    ensures Valid(st.(queue := st.queue[1..]))
  {
    QueueTail(st.queue);
  }

  /** The rotation after `current_index` moves on by one, wrapping round. */
  function Advanced(r: Rotation): Rotation
  {
    r.(cursor := if r.members == [] then 0 else (r.cursor + 1) % |r.members|)
  }

  /** The group just sent advances its cursor, and its next message is pushed one delay after the last send time. */
  function Reschedule(st: Sched): Sched
    requires Valid(st) && st.queue != []
  {
    var p := st.queue[0];
    var rot' := Advanced(st.rotations[p.group]);
    st.(rotations := st.rotations[p.group := rot'],
        queue := Insert(st.queue[1..], Pending(p.time + rot'.delay, Current(rot'), p.group)))
  }

  lemma CursorMoved(st: Sched, g: nat, c: nat)
    requires RotationsOK(st) && g < |st.rotations| && c < |st.rotations[g].members|
    ensures RotationsOK(st.(rotations := st.rotations[g := st.rotations[g].(cursor := c)]))
  {
  }

  lemma OtherGroupsCurrent(q: seq<Pending>, rs: seq<Rotation>, g: nat, r: Rotation)
    requires QueueCurrent(q, rs) && g < |rs| && forall x :: x in q ==> x.group != g
    ensures QueueCurrent(q, rs[g := r])
  {
  }

  /** A queued entry of another group holds a message of another delay, so never the one pushed. */
  lemma OtherMessages(st: Sched, q: seq<Pending>, g: nat, m: nat)
    requires RotationsOK(st) && QueueCurrent(q, st.rotations) && g < |st.rotations|
    requires forall x :: x in q ==> x.group != g
    requires m in st.rotations[g].members
    ensures forall x :: x in q ==> x.msg != m
  {
    forall x | x in q
      ensures x.msg != m
    {
      var rx := st.rotations[x.group];
      assert st.entries[rx.members[rx.cursor]].delay == rx.delay;
      var j :| 0 <= j < |st.rotations[g].members| && st.rotations[g].members[j] == m;
      assert st.entries[m].delay == st.rotations[g].delay;
    }
  }

  lemma RescheduleValid(st: Sched)
    requires Valid(st) && st.queue != []
    ensures Valid(Reschedule(st))
  {
    var p := st.queue[0];
    var rest := st.queue[1..];
    var g := p.group;
    var rot := st.rotations[g];
    var rot' := Advanced(rot);
    var rs := st.rotations[g := rot'];
    var next := Pending(p.time + rot'.delay, Current(rot'), g);
    var r := Reschedule(st);
    assert r.rotations == rs && r.queue == Insert(rest, next) && r.entries == st.entries;
    QueueTail(st.queue);
    assert forall x :: x in rest ==> x.group != g;
    assert RotationsOK(r) by {
      CursorMoved(st, g, rot'.cursor);
    }
    assert QueueCurrent(r.queue, r.rotations) by {
      assert QueueCurrent(rest, st.rotations);
      OtherGroupsCurrent(rest, st.rotations, g, rot');
      assert rs[g] == rot';
      InsertCurrent(rest, rs, next);
    }
    assert SortedQueue(r.queue) by {
      assert Current(rot') in rot.members;
      OtherMessages(st, rest, g, Current(rot'));
      InsertSorted(rest, next);
    }
    assert OneEntryPerGroup(r.queue) by {
      InsertGroups(rest, next);
    }
  }

  lemma InsertCurrent(q: seq<Pending>, rs: seq<Rotation>, p: Pending)
    requires QueueCurrent(q, rs) && p.group < |rs| && p.msg == Current(rs[p.group])
    ensures QueueCurrent(Insert(q, p), rs)
  {
  }

  lemma AdvanceValid(st: Sched, a: Attempted)
    requires Valid(st) && st.queue != []
    ensures Valid(Advance(st, a))
    ensures Advance(st, a).wire == a.wire && Advance(st, a).failed == !a.ok
  {
    var p := st.queue[0];
    var r := Advance(st, a);
    if !a.ok {
      PopValid(st);
    } else {
      var e := st.entries[p.msg].(sentCount := st.entries[p.msg].sentCount + 1);
      var entries := st.entries[p.msg := e];
      assert forall k :: 0 <= k < |entries| ==> entries[k].delay == st.entries[k].delay;
      if Again(e) {
        RescheduleValid(st);
        RecountValid(Reschedule(st), entries);
      } else {
        PopValid(st);
        RecountValid(st.(queue := st.queue[1..]), entries);
      }
    }
  }

  /** A step keeps the invariant, and uses up an outcome unless it is the failing one. */
  lemma StepValid(st: Sched)
    requires Valid(st) && st.queue != [] && !st.failed
    ensures Valid(Step(st))
    ensures |Step(st).wire.outcomes| + (if Step(st).failed then 0 else 1) <= |st.wire.outcomes|
  {
    var p := st.queue[0];
    var w := WaitUntil(st.wire, p.time);
    assert |w.outcomes| == |st.wire.outcomes|;
    AttemptConsumes(w, st.entries[p.msg].path);
    AdvanceValid(st, Attempt(w, st.entries[p.msg].path));
  }

  /** The main loop, from a state to the end: the queue runs empty or a send fails. */
  function Run(st: Sched): (r: Sched)
    requires Valid(st)
    ensures r.failed || r.queue == []
    decreases |st.wire.outcomes| + (if st.failed then 0 else 1)
  {
    if st.failed || st.queue == [] then st
    else
      StepValid(st);
      Run(Step(st))
  }

  /** The first push for group `g`: its first message, one delay after the start. */
  function Initial(rs: seq<Rotation>, start: int, g: nat): Pending
    requires g < |rs|
  {
    Pending(start + rs[g].delay, First(rs[g]), g)
  }

  /** The invariant holds all the way to the end of the run. */
  lemma {:induction false} RunValid(st: Sched)
    requires Valid(st)
    ensures Valid(Run(st))
    decreases |st.wire.outcomes| + (if st.failed then 0 else 1)
  {
    if !st.failed && st.queue != [] {
      StepValid(st);
      RunValid(Step(st));
    }
  }

  /** The initial pushes, one per delay group in group order. */
  function InitialQueue(rs: seq<Rotation>, start: int, n: nat): seq<Pending>
    requires n <= |rs|
    decreases n
  {
    if n == 0 then [] else Insert(InitialQueue(rs, start, n - 1), Initial(rs, start, n - 1))
  }

  /** The initial queue holds the first push of each of the first `n` groups. */
  lemma {:induction false} InitialQueueMembers(rs: seq<Rotation>, start: int, n: nat)
    requires n <= |rs|
    ensures |InitialQueue(rs, start, n)| == n
    ensures forall x :: x in InitialQueue(rs, start, n) ==>
      x.group < n && x.time == start + rs[x.group].delay && x.msg == First(rs[x.group])
    decreases n
  {
    if n > 0 {
      InitialQueueMembers(rs, start, n - 1);
    }
  }

  /** The initial queue is ordered and holds one entry per group. */
  lemma {:induction false} InitialQueueOrdered(rs: seq<Rotation>, start: int, n: nat)
    requires Apart(rs) && n <= |rs|
    ensures OneEntryPerGroup(InitialQueue(rs, start, n)) && SortedQueue(InitialQueue(rs, start, n))
    decreases n
  {
    if n > 0 {
      var q := InitialQueue(rs, start, n - 1);
      var p := Initial(rs, start, n - 1);
      InitialQueueOrdered(rs, start, n - 1);
      InitialQueueMembers(rs, start, n - 1);
      forall x | x in q
        ensures x.msg != p.msg && x.group != p.group
      {
        assert First(rs[x.group]) < First(rs[n - 1]);
      }
      InsertSorted(q, p);
      InsertGroups(q, p);
    }
  }

  /** The state after the initial pushes. */
  function Start(es: seq<Entry>, w: Wire): Sched
  {
    var rs := DelayGroups(es);
    Sched(es, rs, InitialQueue(rs, w.clock, |rs|), w, false)
  }

  lemma StartValid(es: seq<Entry>, w: Wire)
    ensures Valid(Start(es, w))
  {
    var rs := DelayGroups(es);
    DelayGroupsPartition(es);
    InitialQueueMembers(rs, w.clock, |rs|);
    InitialQueueOrdered(rs, w.clock, |rs|);
  }

  /** `execute_continuous_schedule(connection, reply_schedule)` on values: the schedule and connection afterwards. */
  function ContinuousRun(es: seq<Entry>, w: Wire): (r: Sched)
    ensures r.failed || r.queue == []
  {
    StartValid(es, w);
    Run(Start(es, w))
  }

  // ----- what one step does -----

  /** A send succeeds exactly when the next scripted outcome exists and is a success. */
  predicate NextSendOk(w: Wire)
  {
    |w.outcomes| > 0 && w.outcomes[0]
  }

  /**
   * The entry sent is the earliest of the queue by (send time, message index); the send happens
   * once its time has come, and it is logged then unless it fails.
   */
  lemma StepSendsEarliest(st: Sched)
    requires Valid(st) && st.queue != [] && !st.failed
    ensures forall x :: x in st.queue[1..] ==> Before(st.queue[0], x)
    ensures Step(st).failed <==> !NextSendOk(st.wire)
    ensures !Step(st).failed ==>
      Step(st).wire.log == st.wire.log + [SendRecord(st.entries[st.queue[0].msg].path, Max(st.wire.clock, st.queue[0].time))]
    ensures Step(st).failed ==> Step(st).wire.log == st.wire.log
  {
    QueueTail(st.queue);
    var p := st.queue[0];
    AdvanceValid(st, Attempt(WaitUntil(st.wire, p.time), st.entries[p.msg].path));
  }

  /**
   * After a successful send the message's count goes up by one; its group is pushed again, one
   * delay after this send's scheduled time and with the cursor moved on, exactly when the message
   * repeats for ever (`repeat == 0`) or has repeats left; otherwise the group leaves the queue.
   */
  lemma StepReschedules(st: Sched)
    requires Valid(st) && st.queue != [] && NextSendOk(st.wire)
    ensures var p := st.queue[0];
      var e := st.entries[p.msg].(sentCount := st.entries[p.msg].sentCount + 1);
      && Step(st).entries == st.entries[p.msg := e]
      && (Again(e) ==>
            && Step(st).rotations == st.rotations[p.group := Advanced(st.rotations[p.group])]
            && Pending(p.time + st.rotations[p.group].delay, Current(Advanced(st.rotations[p.group])), p.group) in Step(st).queue
            && (forall x :: x in Step(st).queue && x.group != p.group <==> x in st.queue[1..]))
      && (!Again(e) ==>
            && Step(st).rotations == st.rotations
            && Step(st).queue == st.queue[1..]
            && (forall x :: x in Step(st).queue ==> x.group != p.group))
  {
    QueueTail(st.queue);
    var p := st.queue[0];
    var a := Attempt(WaitUntil(st.wire, p.time), st.entries[p.msg].path);
    assert a.ok;
  }

  /** A failed send ends the schedule: nothing more is sent and no count changes. */
  lemma FailedSendEnds(st: Sched)
    requires Valid(st) && st.queue != [] && !st.failed && !NextSendOk(st.wire)
    ensures Run(st) == Step(st)
    ensures Run(st).failed && Run(st).entries == st.entries && Run(st).wire.log == st.wire.log
  {
    StepValid(st);
  }

  /** Every step keeps the number of messages and of groups. */
  lemma StepSizes(st: Sched)
    requires Valid(st) && st.queue != [] && !st.failed
    ensures |Step(st).entries| == |st.entries| && |Step(st).rotations| == |st.rotations|
  {
    var p := st.queue[0];
    AdvanceValid(st, Attempt(WaitUntil(st.wire, p.time), st.entries[p.msg].path));
  }

  /**
   * A group absent from the queue stays absent for the rest of the run: its rotation no longer
   * moves and none of its messages is sent again.
   */
  lemma {:induction false} DroppedGroupStaysOut(st: Sched, g: nat)
    requires Valid(st) && g < |st.rotations| && forall x :: x in st.queue ==> x.group != g
    ensures g < |Run(st).rotations| && Run(st).rotations[g] == st.rotations[g]
    ensures forall x :: x in Run(st).queue ==> x.group != g
    ensures forall m :: m in st.rotations[g].members ==> m < |Run(st).entries| && Run(st).entries[m] == st.entries[m]
    decreases |st.wire.outcomes| + (if st.failed then 0 else 1)
  {
    if !st.failed && st.queue != [] {
      var p := st.queue[0];
      StepValid(st);
      StepSizes(st);
      var r := Step(st);
      assert p.group != g;
      assert r.rotations[g] == st.rotations[g] by {
        if NextSendOk(st.wire) { StepReschedules(st); }
      }
      assert forall x :: x in r.queue ==> x.group != g by {
        if NextSendOk(st.wire) { StepReschedules(st); } else { FailedSendEnds(st); }
      }
      forall m | m in st.rotations[g].members
        ensures r.entries[m] == st.entries[m]
      {
        var j :| 0 <= j < |st.rotations[g].members| && st.rotations[g].members[j] == m;
        var rp := st.rotations[p.group];
        assert st.entries[m].delay == st.rotations[g].delay;
        assert st.entries[rp.members[rp.cursor]].delay == rp.delay;
        assert m != p.msg;
        if NextSendOk(st.wire) { StepReschedules(st); } else { FailedSendEnds(st); }
      }
      DroppedGroupStaysOut(r, g);
    }
  }

  // ----- whole runs -----

  /** One step of a single-message schedule whose next send succeeds. */
  lemma SingleStep(e: Entry, s: nat, t: int, w: Wire)
    requires NextSendOk(w) && w.clock <= t
    requires Valid(Sched([e.(sentCount := s)], [Rotation(e.delay, [0], 0)], [Pending(t, 0, 0)], w, false))
    ensures var e1 := e.(sentCount := s + 1);
      var w1 := w.(outcomes := w.outcomes[1..], clock := t, log := w.log + [SendRecord(e.path, t)]);
      Step(Sched([e.(sentCount := s)], [Rotation(e.delay, [0], 0)], [Pending(t, 0, 0)], w, false))
        == if Again(e1) then Sched([e1], [Rotation(e.delay, [0], 0)], [Pending(t + e.delay, 0, 0)], w1, false)
           else Sched([e1], [Rotation(e.delay, [0], 0)], [], w1, false)
  {
    var rot := Rotation(e.delay, [0], 0);
    var st := Sched([e.(sentCount := s)], [rot], [Pending(t, 0, 0)], w, false);
    var e1 := e.(sentCount := s + 1);
    var w1 := w.(outcomes := w.outcomes[1..], clock := t, log := w.log + [SendRecord(e.path, t)]);
    var a := Attempt(WaitUntil(w, t), e.path);
    assert a == Attempted(true, w1);
    assert st.entries[0 := e1] == [e1];
    assert Advanced(rot) == rot;
    assert [rot][0 := rot] == [rot];
    assert Insert([], Pending(t + e.delay, 0, 0)) == [Pending(t + e.delay, 0, 0)];
    assert Step(st) == Advance(st, a);
  }

  /** The connection after `m` successful sends of `path`, the first at `t` and then one delay `d` apart. */
  function Sending(path: string, t: int, d: int, m: nat, w: Wire): Wire
    requires m <= |w.outcomes|
    decreases m
  {
    if m == 0 then w
    else Sending(path, t + d, d, m - 1, w.(outcomes := w.outcomes[1..], clock := t, log := w.log + [SendRecord(path, t)]))
  }

  lemma {:induction false} SendingFacts(path: string, t: int, d: nat, m: nat, w: Wire)
    requires m <= |w.outcomes|
    ensures Sending(path, t, d, m, w).log == w.log + ReplyExecution.Sends(path, t - d, d, m)
    ensures Sending(path, t, d, m, w).outcomes == w.outcomes[m..]
    decreases m
  {
    if m > 0 {
      var rec := SendRecord(path, t);
      var w1 := w.(outcomes := w.outcomes[1..], clock := t, log := w.log + [rec]);
      SendingFacts(path, t + d, d, m - 1, w1);
      var rest := ReplyExecution.Sends(path, t, d, m - 1);
      assert ReplyExecution.Sends(path, t - d, d, m) == [rec] + rest;
      assert w.log + [rec] + rest == w.log + ([rec] + rest);
      assert w.outcomes[m..] == w1.outcomes[m - 1..];
    }
  }

  /** A single message queued in its own group is a valid scheduler state. */
  lemma SingleValid(e: Entry, t: int, w: Wire)
    ensures Valid(Sched([e], [Rotation(e.delay, [0], 0)], [Pending(t, 0, 0)], w, false))
  {
  }

  /** One message with a finite repeat count, from a state where it is queued at `t` with `s` sends done. */
  lemma {:induction false} SingleMessageLoop(e: Entry, s: nat, t: int, w: Wire)
    requires e.repeat != 0 && e.delay >= 0 && s < ReplyExecution.Need(e) && w.clock <= t
    requires ReplyExecution.LeadingTrues(w.outcomes) >= ReplyExecution.Need(e) - s
    ensures Valid(Sched([e.(sentCount := s)], [Rotation(e.delay, [0], 0)], [Pending(t, 0, 0)], w, false))
    ensures Run(Sched([e.(sentCount := s)], [Rotation(e.delay, [0], 0)], [Pending(t, 0, 0)], w, false))
      == Sched([e.(sentCount := ReplyExecution.Need(e))], [Rotation(e.delay, [0], 0)], [],
               Sending(e.path, t, e.delay, ReplyExecution.Need(e) - s, w), false)
    decreases ReplyExecution.Need(e) - s
  {
    var st := Sched([e.(sentCount := s)], [Rotation(e.delay, [0], 0)], [Pending(t, 0, 0)], w, false);
    var w1 := w.(outcomes := w.outcomes[1..], clock := t, log := w.log + [SendRecord(e.path, t)]);
    var e1 := e.(sentCount := s + 1);
    SingleValid(e.(sentCount := s), t, w);
    assert NextSendOk(w);
    SingleStep(e, s, t, w);
    StepValid(st);
    assert Run(st) == Run(Step(st));
    if Again(e1) {
      ReplyExecution.LeadingTruesDrop(w.outcomes, 1);
      SingleMessageLoop(e, s + 1, t + e.delay, w1);
    } else {
      assert s + 1 == ReplyExecution.Need(e);
    }
  }

  /**
   * A schedule of one message with a finite repeat count and a non-negative delay, started
   * with a clean count, is sent `max(1, repeat)` times, one delay apart and the first one
   * delay after the start, when every one of those sends succeeds.
   */
  lemma SingleMessage(e: Entry, w: Wire)
    requires e.repeat != 0 && e.delay >= 0 && e.sentCount == 0
    requires ReplyExecution.LeadingTrues(w.outcomes) >= ReplyExecution.Need(e)
    ensures var r := ContinuousRun([e], w);
      && !r.failed && r.queue == []
      && r.entries == [e.(sentCount := ReplyExecution.Need(e))]
      && r.wire.log == w.log + ReplyExecution.Sends(e.path, w.clock, e.delay, ReplyExecution.Need(e))
      && r.wire.outcomes == w.outcomes[ReplyExecution.Need(e)..]
  {
    UniformGroups([e], e.delay);
    assert Range(1) == [0];
    var st := Sched([e], [Rotation(e.delay, [0], 0)], [Pending(w.clock + e.delay, 0, 0)], w, false);
    assert Start([e], w) == st;
    StartValid([e], w);
    assert e.(sentCount := 0) == e;
    SingleMessageLoop(e, 0, w.clock + e.delay, w);
    SendingFacts(e.path, w.clock + e.delay, e.delay, ReplyExecution.Need(e), w);
  }

  /**
   * Message `i` is the only member of group `g`, it is `e0` apart from its count, and the count
   * stays within `max(1, repeat)`: below it exactly while the group is still queued.
   */
  predicate SoloState(st: Sched, g: nat, i: nat, e0: Entry)
  {
    && g < |st.rotations| && st.rotations[g].members == [i] && i < |st.entries|
    && e0.repeat != 0
    && st.entries[i] == e0.(sentCount := st.entries[i].sentCount)
    && 0 <= st.entries[i].sentCount <= ReplyExecution.Need(e0)
    && (st.entries[i].sentCount < ReplyExecution.Need(e0) <==> exists x :: x in st.queue && x.group == g)
  }

  /** A successful step of the solo group itself keeps `SoloState`. */
  lemma SoloStepOwn(st: Sched, g: nat, i: nat, e0: Entry)
    requires Valid(st) && st.queue != [] && !st.failed && NextSendOk(st.wire) && SoloState(st, g, i, e0)
    requires st.queue[0].group == g
    ensures SoloState(Step(st), g, i, e0)
  {
    var p := st.queue[0];
    var r := Step(st);
    StepReschedules(st);
    StepSizes(st);
    assert p in st.queue;
    assert p.msg == i;
    var e := st.entries[i].(sentCount := st.entries[i].sentCount + 1);
    assert r.entries[i] == e;
    if Again(e) {
      assert Pending(p.time + st.rotations[g].delay, Current(Advanced(st.rotations[g])), g) in r.queue;
    }
  }

  /** A successful step of another group keeps `SoloState`: message `i` and its group are untouched. */
  lemma SoloStepOther(st: Sched, g: nat, i: nat, e0: Entry)
    requires Valid(st) && st.queue != [] && !st.failed && NextSendOk(st.wire) && SoloState(st, g, i, e0)
    requires st.queue[0].group != g
    ensures SoloState(Step(st), g, i, e0)
  {
    var p := st.queue[0];
    var r := Step(st);
    StepReschedules(st);
    StepSizes(st);
    assert p in st.queue;
    OtherMessages(st, [p], g, i);
    assert r.entries[i] == st.entries[i];
    assert r.rotations[g] == st.rotations[g];
    assert (exists x :: x in st.queue && x.group == g) <==> (exists x :: x in st.queue[1..] && x.group == g) by {
      if exists x :: x in st.queue && x.group == g {
        var x :| x in st.queue && x.group == g;
        assert st.queue == [p] + st.queue[1..];
        assert x in st.queue[1..];
      }
      QueueTail(st.queue);
    }
  }

  /**
   * From a `SoloState`, message `i` is never sent more than `max(1, repeat)` times and keeps its
   * other fields, however the run ends; a run that does not fail leaves it sent exactly that often.
   */
  lemma {:induction false} SoloRun(st: Sched, g: nat, i: nat, e0: Entry)
    requires Valid(st) && SoloState(st, g, i, e0)
    ensures i < |Run(st).entries| && Run(st).entries[i] == e0.(sentCount := Run(st).entries[i].sentCount)
    ensures 0 <= Run(st).entries[i].sentCount <= ReplyExecution.Need(e0)
    ensures !Run(st).failed ==> Run(st).entries[i] == e0.(sentCount := ReplyExecution.Need(e0))
    decreases |st.wire.outcomes| + (if st.failed then 0 else 1)
  {
    if !st.failed && st.queue != [] {
      if NextSendOk(st.wire) {
        StepValid(st);
        if st.queue[0].group == g {
          SoloStepOwn(st, g, i, e0);
        } else {
          SoloStepOther(st, g, i, e0);
        }
        SoloRun(Step(st), g, i, e0);
      } else {
        FailedSendEnds(st);
      }
    } else if !st.failed {
      assert !(exists x :: x in st.queue && x.group == g);
    }
  }

  /** Every group's first push is in the initial queue. */
  lemma {:induction false} InitialQueueHolds(rs: seq<Rotation>, start: int, n: nat, g: nat)
    requires g < n <= |rs|
    ensures Initial(rs, start, g) in InitialQueue(rs, start, n)
    decreases n
  {
    if g < n - 1 {
      InitialQueueHolds(rs, start, n - 1, g);
    }
  }

  /** A strictly rising sequence with a single value in it has at most one element. */
  lemma StrictlyRisingConstant(ms: seq<nat>, i: nat)
    ensures (forall k :: 0 <= k < |ms| ==> ms[k] == i) && (forall a, b :: 0 <= a < b < |ms| ==> ms[a] < ms[b]) ==> |ms| <= 1
  {
    if |ms| > 1 {
      var first, second := ms[0], ms[1];
    }
  }

  /** A message whose delay no other message has forms a group of its own. */
  lemma SoloGroup(es: seq<Entry>, i: nat) returns (g: nat)
    requires i < |es| && forall j :: 0 <= j < |es| && j != i ==> es[j].delay != es[i].delay
    ensures g < |DelayGroups(es)| && DelayGroups(es)[g].members == [i]
  {
    var rs := DelayGroups(es);
    DelayGroupsPartition(es);
    assert Covers(rs, i);
    var j: nat;
    g, j :| 0 <= g < |rs| && 0 <= j < |rs[g].members| && rs[g].members[j] == i;
    var ms := rs[g].members;
    assert forall k :: 0 <= k < |ms| ==> ms[k] == i by {
      forall k | 0 <= k < |ms|
        ensures ms[k] == i
      {
        assert ms[k] < |es| && es[ms[k]].delay == rs[g].delay;
        assert es[i].delay == rs[g].delay;
      }
    }
    StrictlyRisingConstant(ms, i);
    assert ms == [i];
  }

  /**
   * In any schedule, a message with a finite repeat count whose delay no other message shares,
   * started with a clean count, is never sent more than `max(1, repeat)` times, whatever its
   * delay and however the run ends; when the run ends without a failed send it has been sent
   * exactly that often.
   */
  lemma SoloGroupSentInFull(es: seq<Entry>, w: Wire, i: nat)
    requires i < |es| && es[i].repeat != 0 && es[i].sentCount == 0
    requires forall j :: 0 <= j < |es| && j != i ==> es[j].delay != es[i].delay
    ensures i < |ContinuousRun(es, w).entries|
    ensures ContinuousRun(es, w).entries[i] == es[i].(sentCount := ContinuousRun(es, w).entries[i].sentCount)
    ensures ContinuousRun(es, w).entries[i].sentCount <= ReplyExecution.Need(es[i])
    ensures !ContinuousRun(es, w).failed ==>
      i < |ContinuousRun(es, w).entries| &&
      ContinuousRun(es, w).entries[i] == es[i].(sentCount := ReplyExecution.Need(es[i]))
  {
    var g := SoloGroup(es, i);
    var st := Start(es, w);
    var rs := DelayGroups(es);
    StartValid(es, w);
    InitialQueueHolds(rs, w.clock, |rs|, g);
    assert Initial(rs, w.clock, g) in st.queue;
    assert es[i].(sentCount := 0) == es[i];
    assert SoloState(st, g, i, es[i]);
    SoloRun(st, g, i, es[i]);
  }

  /** `list(range(n))`. */
  function Range(n: nat): (r: seq<nat>)
    ensures |r| == n && forall i :: 0 <= i < n ==> r[i] == i
  {
    seq(n, i => i)
  }

  /** A schedule whose messages all share one delay forms a single group holding all of them. */
  lemma {:induction false} UniformGroups(es: seq<Entry>, d: int)
    requires |es| > 0 && forall i :: 0 <= i < |es| ==> es[i].delay == d
    ensures DelayGroups(es) == [Rotation(d, Range(|es|), 0)]
    decreases |es|
  {
    var front := es[..|es| - 1];
    if |es| == 1 {
      assert front == [];
      assert Range(1) == [0];
    } else {
      UniformGroups(front, d);
      assert Range(|front|) + [|front|] == Range(|es|);
    }
  }

  /** `k` sends rotating through `paths` from position `c`, one delay `d` apart, the first at `t`. */
  function Rotating(paths: seq<string>, c: nat, t: int, d: int, k: nat): (log: seq<SendRecord>)
    requires c < |paths|
    ensures |log| == k
    decreases k
  {
    if k == 0 then [] else [SendRecord(paths[c], t)] + Rotating(paths, (c + 1) % |paths|, t + d, d, k - 1)
  }

  lemma RotatingTail(paths: seq<string>, c: nat, t: int, d: int, k: nat, j: nat)
    requires c < |paths| && 0 < j < k
    ensures Rotating(paths, c, t, d, k)[j] == Rotating(paths, (c + 1) % |paths|, t + d, d, k - 1)[j - 1]
  {
  }

  /** The `j`-th of those sends is of `paths[(c + j) % |paths|]` at `t + j * d`. */
  lemma {:induction false} RotatingAt(paths: seq<string>, c: nat, t: int, d: int, k: nat, j: nat)
    requires c < |paths| && j < k
    ensures Rotating(paths, c, t, d, k)[j] == SendRecord(paths[(c + j) % |paths|], t + j * d)
    decreases j
  {
    var n := |paths|;
    if j == 0 {
      assert Rotating(paths, c, t, d, k)[0] == SendRecord(paths[c], t);
      assert c % n == c by {
        ModUnique(c, n, 0, c);
      }
      assert t + 0 * d == t;
    } else {
      var c1 := (c + 1) % n;
      var r1 := Rotating(paths, c1, t + d, d, k - 1)[j - 1];
      assert Rotating(paths, c, t, d, k)[j] == r1 by {
        RotatingTail(paths, c, t, d, k, j);
      }
      assert r1 == SendRecord(paths[(c1 + (j - 1)) % n], t + d + (j - 1) * d) by {
        RotatingAt(paths, c1, t + d, d, k - 1, j - 1);
      }
      assert (c1 + (j - 1)) % n == (c + j) % n by {
        ModShift(c, j - 1, n);
      }
      assert t + d + (j - 1) * d == t + j * d by {
        MulStep(j, d);
      }
    }
  }

  lemma ModShift(c: nat, j: nat, n: nat)
    requires n > 0
    ensures ((c + 1) % n + j) % n == (c + 1 + j) % n
  {
    var q, r := (c + 1) / n, (c + 1) % n;
    var q2, r2 := (r + j) / n, (r + j) % n;
    assert c + 1 == q * n + r;
    assert r + j == q2 * n + r2;
    assert (q + q2) * n == q * n + q2 * n;
    ModUnique(c + 1 + j, n, q + q2, r2);
  }

  /** Paths of a schedule. */
  function Paths(es: seq<Entry>): (ps: seq<string>)
    ensures |ps| == |es| && forall i :: 0 <= i < |es| ==> ps[i] == es[i].path
  {
    seq(|es|, i requires 0 <= i < |es| => es[i].path)
  }

  /** One step of the single-group rotation whose next send succeeds. */
  lemma RotationStep(es: seq<Entry>, d: int, c: nat, t: int, w: Wire)
    requires c < |es| && NextSendOk(w) && w.clock <= t && es[c].repeat == 0
    requires Valid(Sched(es, [Rotation(d, Range(|es|), c)], [Pending(t, c, 0)], w, false))
    ensures var c' := (c + 1) % |es|;
      var w1 := w.(outcomes := w.outcomes[1..], clock := t, log := w.log + [SendRecord(es[c].path, t)]);
      Step(Sched(es, [Rotation(d, Range(|es|), c)], [Pending(t, c, 0)], w, false))
        == Sched(es[c := es[c].(sentCount := es[c].sentCount + 1)], [Rotation(d, Range(|es|), c')], [Pending(t + d, c', 0)], w1, false)
  {
    var n := |es|;
    var c' := (c + 1) % n;
    var rot := Rotation(d, Range(n), c);
    var st := Sched(es, [rot], [Pending(t, c, 0)], w, false);
    var w1 := w.(outcomes := w.outcomes[1..], clock := t, log := w.log + [SendRecord(es[c].path, t)]);
    var a := Attempt(WaitUntil(w, t), es[c].path);
    assert a == Attempted(true, w1);
    assert Advanced(rot) == Rotation(d, Range(n), c');
    assert [rot][0 := Advanced(rot)] == [Advanced(rot)];
    assert Current(Advanced(rot)) == c';
    assert Insert([], Pending(t + d, c', 0)) == [Pending(t + d, c', 0)];
    assert Step(st) == Advance(st, a);
  }

  /** The connection after the rotation from position `c`, due at `t`, runs until a send fails. */
  function Rotated(paths: seq<string>, c: nat, t: int, d: int, w: Wire): Wire
    requires c < |paths|
    decreases |w.outcomes|
  {
    if !NextSendOk(w) then Attempt(WaitUntil(w, t), paths[c]).wire
    else Rotated(paths, (c + 1) % |paths|, t + d, d,
                 w.(outcomes := w.outcomes[1..], clock := t, log := w.log + [SendRecord(paths[c], t)]))
  }

  lemma {:induction false} RotatedLog(paths: seq<string>, c: nat, t: int, d: int, w: Wire)
    requires c < |paths|
    ensures Rotated(paths, c, t, d, w).log == w.log + Rotating(paths, c, t, d, ReplyExecution.LeadingTrues(w.outcomes))
    decreases |w.outcomes|
  {
    if NextSendOk(w) {
      var rec := SendRecord(paths[c], t);
      var w1 := w.(outcomes := w.outcomes[1..], clock := t, log := w.log + [rec]);
      RotatedLog(paths, (c + 1) % |paths|, t + d, d, w1);
      var later := Rotating(paths, (c + 1) % |paths|, t + d, d, ReplyExecution.LeadingTrues(w1.outcomes));
      assert Rotating(paths, c, t, d, ReplyExecution.LeadingTrues(w.outcomes)) == [rec] + later;
      assert w.log + [rec] + later == w.log + ([rec] + later);
    }
  }

  /** A single-group rotation in progress: cursor at `c`, its message due at `t`, nothing failed yet. */
  predicate RotState(st: Sched, paths: seq<string>, d: int, c: nat, t: int)
  {
    && |st.entries| > 0 && d >= 0 && c < |st.entries| && st.wire.clock <= t && paths == Paths(st.entries)
    && (forall i :: 0 <= i < |st.entries| ==> st.entries[i].delay == d && st.entries[i].repeat == 0)
    && st == Sched(st.entries, [Rotation(d, Range(|st.entries|), c)], [Pending(t, c, 0)], st.wire, false)
    && Valid(st)
  }

  lemma RotationAdvance(st: Sched, paths: seq<string>, d: int, c: nat, t: int)
    requires RotState(st, paths, d, c, t) && NextSendOk(st.wire)
    ensures Valid(Step(st)) && Run(st) == Run(Step(st))
    ensures RotState(Step(st), paths, d, (c + 1) % |paths|, t + d)
    ensures Step(st).wire == st.wire.(outcomes := st.wire.outcomes[1..], clock := t, log := st.wire.log + [SendRecord(paths[c], t)])
  {
    var es := st.entries;
    RotationStep(es, d, c, t, st.wire);
    StepValid(st);
    var es1 := es[c := es[c].(sentCount := es[c].sentCount + 1)];
    assert Step(st).entries == es1;
    assert Paths(es1) == paths;
  }

  /** The rotation ends at a failed send, with the connection that send leaves. */
  lemma RotationFails(st: Sched, paths: seq<string>, d: int, c: nat, t: int)
    requires RotState(st, paths, d, c, t) && !NextSendOk(st.wire)
    ensures Run(st).failed && Run(st).wire == Rotated(paths, c, t, d, st.wire)
  {
    var w := st.wire;
    assert Run(st) == Step(st) && Step(st).failed by {
      FailedSendEnds(st);
    }
    assert Step(st).wire == Attempt(WaitUntil(w, t), paths[c]).wire by {
      AdvanceValid(st, Attempt(WaitUntil(w, t), st.entries[c].path));
    }
  }

  /** The single-group rotation, from a state with the cursor at `c` and its message due at `t`. */
  lemma {:induction false} RotationLoop(st: Sched, paths: seq<string>, d: int, c: nat, t: int)
    requires RotState(st, paths, d, c, t)
    ensures Run(st).failed && Run(st).wire == Rotated(paths, c, t, d, st.wire)
    decreases |st.wire.outcomes|
  {
    var w := st.wire;
    if !NextSendOk(w) {
      RotationFails(st, paths, d, c, t);
    } else {
      var w1 := w.(outcomes := w.outcomes[1..], clock := t, log := w.log + [SendRecord(paths[c], t)]);
      assert Rotated(paths, c, t, d, w) == Rotated(paths, (c + 1) % |paths|, t + d, d, w1);
      RotationAdvance(st, paths, d, c, t);
      RotationLoop(Step(st), paths, d, (c + 1) % |paths|, t + d);
    }
  }

  /** The start of a single-group schedule: one group with every message, its first due one delay in. */
  lemma RotationStart(es: seq<Entry>, d: int, w: Wire)
    requires |es| > 0 && forall i :: 0 <= i < |es| ==> es[i].delay == d
    ensures Start(es, w) == Sched(es, [Rotation(d, Range(|es|), 0)], [Pending(w.clock + d, 0, 0)], w, false)
  {
    UniformGroups(es, d);
    var rs := [Rotation(d, Range(|es|), 0)];
    assert InitialQueue(rs, w.clock, 1) == Insert([], Initial(rs, w.clock, 0));
  }

  /** The sends of the rotation, position by position. */
  lemma RotatedAt(paths: seq<string>, t0: int, d: int, w: Wire, k: nat)
    requires |paths| > 0 && k < ReplyExecution.LeadingTrues(w.outcomes)
    ensures |Rotated(paths, 0, t0, d, w).log| == |w.log| + ReplyExecution.LeadingTrues(w.outcomes)
    ensures Rotated(paths, 0, t0, d, w).log[|w.log| + k] == SendRecord(paths[k % |paths|], t0 + k * d)
  {
    var K := ReplyExecution.LeadingTrues(w.outcomes);
    var sends := Rotating(paths, 0, t0, d, K);
    RotatedLog(paths, 0, t0, d, w);
    assert sends[k] == SendRecord(paths[(0 + k) % |paths|], t0 + k * d) by {
      RotatingAt(paths, 0, t0, d, K, k);
    }
  }

  /** The single-group run ends with a failed send, after the rotation's sends. */
  lemma RotationRunWire(es: seq<Entry>, d: int, w: Wire)
    requires |es| > 0 && d >= 0
    requires forall i :: 0 <= i < |es| ==> es[i].delay == d && es[i].repeat == 0
    ensures ContinuousRun(es, w).failed && ContinuousRun(es, w).wire == Rotated(Paths(es), 0, w.clock + d, d, w)
  {
    var st := Start(es, w);
    assert st.wire == w && RotState(st, Paths(es), d, 0, w.clock + d) by {
      RotationStart(es, d, w);
      StartValid(es, w);
    }
    assert ContinuousRun(es, w) == Run(st);
    RotationLoop(st, Paths(es), d, 0, w.clock + d);
  }

  /**
   * Messages sharing one non-negative delay and repeating for ever go out in rotation: the
   * `k`-th send is of message `k % n`, `(k + 1)` delays after the start, until the first
   * failed send ends the schedule.
   */
  lemma RotationRun(es: seq<Entry>, d: int, w: Wire, k: nat)
    requires |es| > 0 && d >= 0
    requires forall i :: 0 <= i < |es| ==> es[i].delay == d && es[i].repeat == 0
    requires k < ReplyExecution.LeadingTrues(w.outcomes)
    ensures ContinuousRun(es, w).failed
    ensures |ContinuousRun(es, w).wire.log| == |w.log| + ReplyExecution.LeadingTrues(w.outcomes)
    ensures ContinuousRun(es, w).wire.log[|w.log| + k] == SendRecord(es[k % |es|].path, w.clock + (k + 1) * d)
  {
    RotationRunWire(es, d, w);
    RotatedAt(Paths(es), w.clock + d, d, w, k);
    assert w.clock + d + k * d == w.clock + (k + 1) * d by {
      MulStep(k + 1, d);
    }
  }

  // ----- the method -----

  /** The first loop of `execute_continuous_schedule`: group the schedule's messages by delay. */
  method GroupByDelay(schedule: array<Entry>) returns (rs: seq<Rotation>)
    ensures rs == DelayGroups(schedule[..])
  {
    rs := [];
    for i := 0 to schedule.Length
      invariant rs == DelayGroups(schedule[..i])
    {
      assert schedule[..i + 1][..i] == schedule[..i];
      rs := AddMember(rs, schedule[i].delay, i);
    }
    assert schedule[..schedule.Length] == schedule[..];
  }

  /** The second loop: push the first message of every group, due one delay after `start`. */
  method InitialPushes(rs: seq<Rotation>, start: int) returns (queue: seq<Pending>)
    ensures queue == InitialQueue(rs, start, |rs|)
  {
    queue := [];
    for g := 0 to |rs|
      invariant queue == InitialQueue(rs, start, g)
    {
      queue := Insert(queue, Pending(start + rs[g].delay, First(rs[g]), g));
    }
  }

  /** One pass of the inner loop, on the schedule and connection in place. */
  method SendDue(conn: Connection, schedule: array<Entry>, rs: seq<Rotation>, queue: seq<Pending>)
    returns (ok: bool, rs': seq<Rotation>, queue': seq<Pending>)
    requires Valid(Sched(schedule[..], rs, queue, conn.State(), false)) && queue != []
    modifies conn, schedule
    ensures Sched(schedule[..], rs', queue', conn.State(), !ok) == Step(Sched(old(schedule[..]), rs, queue, old(conn.State()), false))
  {
    ghost var st := Sched(schedule[..], rs, queue, conn.State(), false);
    var p := queue[0];
    queue' := queue[1..];
    rs' := rs;
    conn.SleepUntil(p.time);
    ok := conn.SendFile(schedule[p.msg].path);
    if !ok {
      return;
    }
    schedule[p.msg] := schedule[p.msg].(sentCount := schedule[p.msg].sentCount + 1);
    var e := schedule[p.msg];
    if e.repeat == 0 || e.sentCount < e.repeat {
      var rot := rs[p.group];
      rot := rot.(cursor := (rot.cursor + 1) % |rot.members|);
      rs' := rs[p.group := rot];
      queue' := Insert(queue', Pending(p.time + rot.delay, rot.members[rot.cursor], p.group));
      assert rot == Advanced(rs[p.group]);
    }
    assert schedule[..] == st.entries[p.msg := e];
  }

  /**
   * `execute_continuous_schedule(connection, reply_schedule)`, in place: the schedule's send
   * counts and the connection end as `ContinuousRun` says.
   */
  method ExecuteContinuousSchedule(conn: Connection, schedule: array<Entry>)
    modifies conn, schedule
    ensures schedule[..] == ContinuousRun(old(schedule[..]), old(conn.State())).entries
    ensures conn.State() == ContinuousRun(old(schedule[..]), old(conn.State())).wire
  {
    ghost var final := ContinuousRun(schedule[..], conn.State());
    StartValid(schedule[..], conn.State());
    var rs := GroupByDelay(schedule);
    var queue := InitialPushes(rs, conn.clock);
    assert Sched(schedule[..], rs, queue, conn.State(), false) == Start(old(schedule[..]), old(conn.State()));
    while queue != []
      invariant Valid(Sched(schedule[..], rs, queue, conn.State(), false))
      invariant Run(Sched(schedule[..], rs, queue, conn.State(), false)) == final
      decreases |conn.outcomes|
    {
      ghost var st := Sched(schedule[..], rs, queue, conn.State(), false);
      StepValid(st);
      var ok;
      ok, rs, queue := SendDue(conn, schedule, rs, queue);
      if !ok {
        return;
      }
    }
  }
}
