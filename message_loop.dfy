/**
 * `run_message_loop`: the simulator's main loop over the configured replies.
 * Phase one waits for `ReceiveCount` non-empty messages and answers the k-th of them with
 * the k-th reply, sent by `execute_reply_schedule`; once the replies run out further messages
 * are counted but not answered. Phase two sends every reply not used in phase one with
 * `execute_continuous_schedule`, one after another.
 */
module MessageLoop {
  import opened Wrappers
  import opened Transport
  import opened SimConfig
  import opened SimSchedule
  import ReplyExecution
  import Continuous

  /** What the loop did with reply `index`: answered a message with it, or streamed it. */
  datatype Dispatch = Replied(index: nat) | Streamed(index: nat)

  /**
   * The loop's result: the connection, the index of the next reply, the replies dispatched so
   * far, and whether the loop is still waiting for a message that never comes.
   */
  datatype Outcome = Outcome(wire: Wire, next: nat, trace: seq<Dispatch>, stalled: bool)

  /** The schedule `create_message_schedule_for_reply` builds for a reply, fresh each time. */
  function ScheduleOf(reply: Reply, dir: Directory, matches: Matcher): seq<Entry>
  {
    Expand(reply.messages, dir, matches)
  }

  /** `execute_reply_schedule` on a non-empty schedule; an empty one sends nothing. */
  function Answer(es: seq<Entry>, w: Wire): (w': Wire)
    ensures w'.inbox == w.inbox
  {
    if es == [] then w else ReplyExecution.RunReply(es, w).wire
  }

  /** `execute_continuous_schedule` on a non-empty schedule; an empty one sends nothing. */
  function Stream(es: seq<Entry>, w: Wire): Wire
  {
    if es == [] then w else Continuous.ContinuousRun(es, w).wire
  }

  /**
   * Phase one, from `received` counted messages and reply index `next`. A receipt that is not
   * a non-empty message is skipped; when the receipts run out the loop is stalled.
   */
  function PhaseOne(replies: seq<Reply>, receiveCount: int, dir: Directory, matches: Matcher,
                    w: Wire, received: nat, next: nat, trace: seq<Dispatch>): (r: Outcome)
    ensures r.stalled ==> r.wire.inbox == []
    decreases |w.inbox|
  {
    if received >= receiveCount then Outcome(w, next, trace, false)
    else if w.inbox == [] then Outcome(w, next, trace, true)
    else
      var w1 := w.(inbox := w.inbox[1..]);
      if !Counts(w.inbox[0]) then
        PhaseOne(replies, receiveCount, dir, matches, w1, received, next, trace)
      else if next < |replies| then
        var w2 := Answer(ScheduleOf(replies[next], dir, matches), w1);
        PhaseOne(replies, receiveCount, dir, matches, w2, received + 1, next + 1, trace + [Replied(next)])
      else
        PhaseOne(replies, receiveCount, dir, matches, w1, received + 1, next, trace)
  }

  /** Phase two: every reply from `next` on, streamed in order. */
  function PhaseTwo(replies: seq<Reply>, dir: Directory, matches: Matcher,
                    w: Wire, next: nat, trace: seq<Dispatch>): (r: Outcome)
    ensures !r.stalled
    decreases |replies| - next
  {
    if next >= |replies| then Outcome(w, next, trace, false)
    else
      var w' := Stream(ScheduleOf(replies[next], dir, matches), w);
      PhaseTwo(replies, dir, matches, w', next + 1, trace + [Streamed(next)])
  }

  /** The whole loop: nothing happens without replies, and a stalled phase one never ends. */
  function Loop(config: Config, dir: Directory, matches: Matcher, w: Wire): (r: Outcome)
    ensures r.stalled ==> r.wire.inbox == [] && config.replies != []
  {
    if config.replies == [] then Outcome(w, 0, [], false)
    else
      var one := PhaseOne(config.replies, config.receiveCount, dir, matches, w, 0, 0, []);
      if one.stalled then one
      else PhaseTwo(config.replies, dir, matches, one.wire, one.next, one.trace)
  }

  /** The number of receipts that count as a message. */
  function CountedIn(s: seq<Receipt>): nat
  {
    if s == [] then 0 else (if Counts(s[0]) then 1 else 0) + CountedIn(s[1..])
  }

  /** What is left of the receipts once `k` of them have been counted. */
  function After(s: seq<Receipt>, k: int): seq<Receipt>
  {
    if k <= 0 || s == [] then s
    else After(s[1..], if Counts(s[0]) then k - 1 else k)
  }

  /**
   * The order the loop promises: the first `ReceiveCount` replies answer messages, the rest
   * are streamed, and every reply is dispatched exactly once.
   */
  function Plan(n: nat, receiveCount: int): (p: seq<Dispatch>)
    ensures |p| == n
  {
    seq(n, i requires 0 <= i < n => if i < receiveCount then Replied(i) else Streamed(i))
  }

  /** Replies 0 .. k-1, each answering a message. */
  function Answered(k: nat): (t: seq<Dispatch>)
    ensures |t| == k && forall i :: 0 <= i < k ==> t[i] == Replied(i)
  {
    if k == 0 then [] else Answered(k - 1) + [Replied(k - 1)]
  }

  /** Replies lo .. hi-1, each streamed. */
  function StreamedFrom(lo: nat, hi: nat): (t: seq<Dispatch>)
    ensures |t| == (if lo <= hi then hi - lo else 0)
    ensures forall i :: 0 <= i < |t| ==> t[i] == Streamed(lo + i)
    decreases hi - lo
  {
    if lo >= hi then [] else [Streamed(lo)] + StreamedFrom(lo + 1, hi)
  }

  /** The dispatch index of a trace entry (`Replied(i)` and `Streamed(i)` are both reply `i`). */
  function IndexOf(d: Dispatch): nat
  {
    match d
    case Replied(i) => i
    case Streamed(i) => i
  }

  /** Phase one stalls exactly when fewer messages arrive than remain to be counted. */
  lemma {:induction false} PhaseOneStalls(replies: seq<Reply>, receiveCount: int, dir: Directory, matches: Matcher,
                                          w: Wire, received: nat, next: nat, trace: seq<Dispatch>)
    ensures PhaseOne(replies, receiveCount, dir, matches, w, received, next, trace).stalled <==>
            CountedIn(w.inbox) < receiveCount - received
    decreases |w.inbox|
  {
    var o := PhaseOne(replies, receiveCount, dir, matches, w, received, next, trace);
    if received < receiveCount && w.inbox != [] {
      var w1 := w.(inbox := w.inbox[1..]);
      assert w1.inbox == w.inbox[1..];
      if !Counts(w.inbox[0]) {
        assert o == PhaseOne(replies, receiveCount, dir, matches, w1, received, next, trace);
        assert CountedIn(w.inbox) == CountedIn(w1.inbox);
        PhaseOneStalls(replies, receiveCount, dir, matches, w1, received, next, trace);
      } else {
        assert CountedIn(w.inbox) == 1 + CountedIn(w1.inbox);
        if next < |replies| {
          var w2 := Answer(ScheduleOf(replies[next], dir, matches), w1);
          assert w2.inbox == w1.inbox;
          assert o == PhaseOne(replies, receiveCount, dir, matches, w2, received + 1, next + 1, trace + [Replied(next)]);
          PhaseOneStalls(replies, receiveCount, dir, matches, w2, received + 1, next + 1, trace + [Replied(next)]);
        } else {
          assert o == PhaseOne(replies, receiveCount, dir, matches, w1, received + 1, next, trace);
          PhaseOneStalls(replies, receiveCount, dir, matches, w1, received + 1, next, trace);
        }
      }
    }
  }

  /** A phase one that does not stall leaves the receipts after the last counted message. */
  lemma {:induction false} PhaseOneLeaves(replies: seq<Reply>, receiveCount: int, dir: Directory, matches: Matcher,
                                          w: Wire, received: nat, next: nat, trace: seq<Dispatch>)
    ensures var o := PhaseOne(replies, receiveCount, dir, matches, w, received, next, trace);
      !o.stalled ==> o.wire.inbox == After(w.inbox, receiveCount - received)
    decreases |w.inbox|
  {
    var o := PhaseOne(replies, receiveCount, dir, matches, w, received, next, trace);
    if received < receiveCount && w.inbox != [] {
      var w1 := w.(inbox := w.inbox[1..]);
      assert w1.inbox == w.inbox[1..];
      if !Counts(w.inbox[0]) {
        assert o == PhaseOne(replies, receiveCount, dir, matches, w1, received, next, trace);
        assert After(w.inbox, receiveCount - received) == After(w1.inbox, receiveCount - received);
        PhaseOneLeaves(replies, receiveCount, dir, matches, w1, received, next, trace);
      } else {
        assert After(w.inbox, receiveCount - received) == After(w1.inbox, receiveCount - (received + 1));
        if next < |replies| {
          var w2 := Answer(ScheduleOf(replies[next], dir, matches), w1);
          assert w2.inbox == w1.inbox;
          assert o == PhaseOne(replies, receiveCount, dir, matches, w2, received + 1, next + 1, trace + [Replied(next)]);
          PhaseOneLeaves(replies, receiveCount, dir, matches, w2, received + 1, next + 1, trace + [Replied(next)]);
        } else {
          assert o == PhaseOne(replies, receiveCount, dir, matches, w1, received + 1, next, trace);
          PhaseOneLeaves(replies, receiveCount, dir, matches, w1, received + 1, next, trace);
        }
      }
    }
  }

  /** A non-stalled phase one has answered with the first min(ReceiveCount, |replies|) replies, in order. */
  lemma {:induction false} PhaseOneTrace(replies: seq<Reply>, receiveCount: int, dir: Directory, matches: Matcher,
                                         w: Wire, received: nat, next: nat)
    requires next == Min(received, |replies|)
    requires received <= receiveCount || received == 0
    ensures var o := PhaseOne(replies, receiveCount, dir, matches, w, received, next, Answered(next));
      !o.stalled ==> (o.next == Min(Max(receiveCount, 0), |replies|) && o.trace == Answered(o.next))
    decreases |w.inbox|
  {
    if received < receiveCount && w.inbox != [] {
      var w1 := w.(inbox := w.inbox[1..]);
      if !Counts(w.inbox[0]) {
        PhaseOneTrace(replies, receiveCount, dir, matches, w1, received, next);
      } else if next < |replies| {
        var w2 := Answer(ScheduleOf(replies[next], dir, matches), w1);
        assert Answered(next) + [Replied(next)] == Answered(next + 1);
        PhaseOneTrace(replies, receiveCount, dir, matches, w2, received + 1, next + 1);
      } else {
        PhaseOneTrace(replies, receiveCount, dir, matches, w1, received + 1, next);
      }
    }
  }

  /** Phase two streams every remaining reply, in order, and ends past the last one. */
  lemma {:induction false} PhaseTwoTrace(replies: seq<Reply>, dir: Directory, matches: Matcher,
                                         w: Wire, next: nat, trace: seq<Dispatch>)
    requires next <= |replies|
    ensures var o := PhaseTwo(replies, dir, matches, w, next, trace);
      !o.stalled && o.next == |replies| && o.trace == trace + StreamedFrom(next, |replies|)
    decreases |replies| - next
  {
    if next < |replies| {
      var w' := Stream(ScheduleOf(replies[next], dir, matches), w);
      var t' := trace + [Streamed(next)];
      assert PhaseTwo(replies, dir, matches, w, next, trace) == PhaseTwo(replies, dir, matches, w', next + 1, t');
      PhaseTwoTrace(replies, dir, matches, w', next + 1, t');
      var rest := StreamedFrom(next + 1, |replies|);
      assert StreamedFrom(next, |replies|) == [Streamed(next)] + rest;
      assert t' + rest == trace + ([Streamed(next)] + rest);
    } else {
      assert StreamedFrom(next, |replies|) == [];
    }
  }

  /** The answered prefix followed by the streamed rest is the plan. */
  lemma PlanSplits(n: nat, receiveCount: int)
    ensures Plan(n, receiveCount)
      == Answered(Min(Max(receiveCount, 0), n)) + StreamedFrom(Min(Max(receiveCount, 0), n), n)
  {
  }

  /** The loop dispatches the replies exactly in the order of `Plan`, unless it stalls. */
  lemma LoopFollowsPlan(config: Config, dir: Directory, matches: Matcher, w: Wire)
    ensures var o := Loop(config, dir, matches, w);
      !o.stalled ==> o.trace == Plan(|config.replies|, config.receiveCount)
  {
    var n := |config.replies|;
    var rc := config.receiveCount;
    if n > 0 {
      var one := PhaseOne(config.replies, rc, dir, matches, w, 0, 0, []);
      assert Answered(0) == [];
      PhaseOneTrace(config.replies, rc, dir, matches, w, 0, 0);
      if !one.stalled {
        PhaseTwoTrace(config.replies, dir, matches, one.wire, one.next, one.trace);
        PlanSplits(n, rc);
      }
    }
  }

  /** The loop stalls exactly when replies exist and fewer than `ReceiveCount` messages arrive. */
  lemma LoopStalls(config: Config, dir: Directory, matches: Matcher, w: Wire)
    ensures Loop(config, dir, matches, w).stalled
      <==> config.replies != [] && CountedIn(w.inbox) < config.receiveCount
  {
    PhaseOneStalls(config.replies, config.receiveCount, dir, matches, w, 0, 0, []);
    PhaseOneLeaves(config.replies, config.receiveCount, dir, matches, w, 0, 0, []);
    if config.replies != [] {
      var one := PhaseOne(config.replies, config.receiveCount, dir, matches, w, 0, 0, []);
      assert Answered(0) == [];
      PhaseOneTrace(config.replies, config.receiveCount, dir, matches, w, 0, 0);
      if !one.stalled {
        PhaseTwoTrace(config.replies, dir, matches, one.wire, one.next, one.trace);
      }
    }
  }

  /**
   * Phase one consumes the receipts up to and including the `ReceiveCount`-th message and no
   * further; phase two then starts from the reply after the last one used.
   */
  lemma PhaseOneConsumes(config: Config, dir: Directory, matches: Matcher, w: Wire)
    ensures var one := PhaseOne(config.replies, config.receiveCount, dir, matches, w, 0, 0, []);
      !one.stalled ==> (one.wire.inbox == After(w.inbox, config.receiveCount)
        && one.next == Min(Max(config.receiveCount, 0), |config.replies|))
  {
    PhaseOneStalls(config.replies, config.receiveCount, dir, matches, w, 0, 0, []);
    PhaseOneLeaves(config.replies, config.receiveCount, dir, matches, w, 0, 0, []);
    assert Answered(0) == [];
    PhaseOneTrace(config.replies, config.receiveCount, dir, matches, w, 0, 0);
  }

  /** Every reply appears in the plan once, at its own position, so no reply is used twice. */
  lemma PlanDispatchesEachOnce(n: nat, receiveCount: int)
    ensures forall i :: 0 <= i < n ==> IndexOf(Plan(n, receiveCount)[i]) == i
    ensures forall i :: 0 <= i < n ==> (Plan(n, receiveCount)[i].Replied? <==> i < receiveCount)
  {
  }

  /** Without replies the loop returns at once and the connection is untouched. */
  lemma NoRepliesNoTraffic(config: Config, dir: Directory, matches: Matcher, w: Wire)
    requires config.replies == []
    ensures Loop(config, dir, matches, w) == Outcome(w, 0, [], false)
  {
  }

  /** A sequence as a freshly allocated array with the same elements. */
  method ToArray(s: seq<Entry>) returns (a: array<Entry>)
    ensures fresh(a) && a[..] == s
  {
    a := new Entry[|s|](i requires 0 <= i < |s| => s[i]);
  }

  /** Builds the schedule of `reply` and runs it with `execute_reply_schedule`, unless it is empty. */
  method AnswerReply(conn: Connection, reply: Reply, dir: Directory, matches: Matcher)
    modifies conn
    ensures conn.State() == Answer(ScheduleOf(reply, dir, matches), old(conn.State()))
  {
    var schedule := CreateMessageScheduleForReply(reply, dir, matches);
    if schedule != [] {
      var a := ToArray(schedule);
      ReplyExecution.ExecuteReplySchedule(conn, a);
    }
  }

  /** Builds the schedule of `reply` and runs it with `execute_continuous_schedule`, unless it is empty. */
  method StreamReply(conn: Connection, reply: Reply, dir: Directory, matches: Matcher)
    modifies conn
    ensures conn.State() == Stream(ScheduleOf(reply, dir, matches), old(conn.State()))
  {
    var schedule := CreateMessageScheduleForReply(reply, dir, matches);
    if schedule != [] {
      var a := ToArray(schedule);
      Continuous.ExecuteContinuousSchedule(conn, a);
    }
  }

  /**
   * The loop itself. It returns true when it stops waiting for a message that the receipts
   * never bring, where the source would go on waiting.
   */
  method RunMessageLoop(conn: Connection, config: Config, dir: Directory, matches: Matcher) returns (stalled: bool)
    modifies conn
    ensures conn.State() == Loop(config, dir, matches, old(conn.State())).wire
    ensures stalled == Loop(config, dir, matches, old(conn.State())).stalled
  {
    var replies := config.replies;
    var receiveCount := config.receiveCount;
    if replies == [] {
      return false;
    }
    ghost var one := PhaseOne(replies, receiveCount, dir, matches, conn.State(), 0, 0, []);
    var receivedCount: nat := 0;
    var current: nat := 0;
    ghost var trace: seq<Dispatch> := [];
    if receiveCount > 0 {
      while receivedCount < receiveCount
        invariant PhaseOne(replies, receiveCount, dir, matches, conn.State(), receivedCount, current, trace) == one
        decreases |conn.inbox|
      {
        var received := conn.ReceiveWithTimeout();
        if received.None? {
          return true;
        }
        if !Counts(received.value) {
          continue;
        }
        receivedCount := receivedCount + 1;
        if current < |replies| {
          AnswerReply(conn, replies[current], dir, matches);
          trace := trace + [Replied(current)];
          current := current + 1;
        }
      }
    }
    assert one == Outcome(conn.State(), current, trace, false);
    ghost var final := PhaseTwo(replies, dir, matches, conn.State(), current, trace);
    while current < |replies|
      invariant PhaseTwo(replies, dir, matches, conn.State(), current, trace) == final
      decreases |replies| - current
    {
      StreamReply(conn, replies[current], dir, matches);
      trace := trace + [Streamed(current)];
      current := current + 1;
    }
    return false;
  }
}
