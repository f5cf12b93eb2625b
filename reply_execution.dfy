/**
 * `execute_reply_schedule`: the messages of one reply are sent strictly one after another.
 * Each message waits its delay (when positive) before every send, is sent once and then
 * repeated until it has been sent `repeat` times, and the first failed send ends the reply.
 */
module ReplyExecution {
  import opened Wrappers
  import opened Transport
  import opened SimSchedule
  import opened Arith

  /** A message after its sends: the updated entry, the connection, and whether every send succeeded. */
  datatype Burst = Burst(entry: Entry, wire: Wire, ok: bool)

  /** The loop `for i in range(from, repeat)` of one message. */
  function Repeats(e: Entry, w: Wire, from: int): (b: Burst)
    ensures b.wire.inbox == w.inbox
    decreases e.repeat - from
  {
    if from >= e.repeat then Burst(e, w, true)
    else
      var a := Attempt(Pause(w, e.delay), e.path);
      if !a.ok then Burst(e, a.wire, false)
      else Repeats(e.(sentCount := e.sentCount + 1), a.wire, from + 1)
  }

  /** One message: the wait, the first send (which sets the count to 1), then the repeats. */
  function SendMessage(e: Entry, w: Wire): (b: Burst)
    ensures b.wire.inbox == w.inbox
  {
    var a := Attempt(Pause(w, e.delay), e.path);
    if !a.ok then Burst(e, a.wire, false)
    else Repeats(e.(sentCount := 1), a.wire, 1)
  }

  datatype ReplyOutcome = ReplyOutcome(entries: seq<Entry>, wire: Wire)

  /** The whole reply: the schedule after execution and the connection. */
  function RunReply(es: seq<Entry>, w: Wire): (r: ReplyOutcome)
    ensures |r.entries| == |es|
    ensures r.wire.inbox == w.inbox
    decreases |es|
  {
    if es == [] then ReplyOutcome([], w)
    else
      var b := SendMessage(es[0], w);
      if !b.ok then ReplyOutcome([b.entry] + es[1..], b.wire)
      else
        var r := RunReply(es[1..], b.wire);
        ReplyOutcome([b.entry] + r.entries, r.wire)
  }

  /** `execute_reply_schedule(connection, reply_schedule)`, updating the entries' `sent_count` in place. */
  method ExecuteReplySchedule(conn: Connection, schedule: array<Entry>)
    modifies conn, schedule
    ensures schedule[..] == RunReply(old(schedule[..]), old(conn.State())).entries
    ensures conn.State() == RunReply(old(schedule[..]), old(conn.State())).wire
  {
    ghost var final := ReplyFrom(schedule[..], 0, conn.State());
    ReplyFromSuffix(schedule[..], 0, conn.State());
    assert schedule[..][..0] == [] && schedule[..][0..] == schedule[..];
    var k := 0;
    while k < schedule.Length
      invariant 0 <= k <= schedule.Length
      invariant ReplyFrom(schedule[..], k, conn.State()) == final
    {
      ghost var before := schedule[..];
      var ok := SendScheduledMessage(conn, schedule, k);
      assert schedule[..] == before[k := schedule[k]];
      if !ok {
        return;
      }
      k := k + 1;
    }
  }

  /** The reply from message `k` on, over the whole schedule: the entries before `k` are already done. */
  function ReplyFrom(es: seq<Entry>, k: nat, w: Wire): ReplyOutcome
    requires k <= |es|
    decreases |es| - k
  {
    if k == |es| then ReplyOutcome(es, w)
    else
      var b := SendMessage(es[k], w);
      if !b.ok then ReplyOutcome(es[k := b.entry], b.wire)
      else ReplyFrom(es[k := b.entry], k + 1, b.wire)
  }

  lemma {:induction false} ReplyFromSuffix(es: seq<Entry>, k: nat, w: Wire)
    requires k <= |es|
    ensures ReplyFrom(es, k, w) == ReplyOutcome(es[..k] + RunReply(es[k..], w).entries, RunReply(es[k..], w).wire)
    decreases |es| - k
  {
    if k == |es| {
      assert es[..k] == es;
    } else {
      var b := SendMessage(es[k], w);
      var es' := es[k := b.entry];
      RunReplyAt(es, k, w);
      if b.ok {
        ReplyFromSuffix(es', k + 1, b.wire);
        assert es'[..k + 1] == es[..k] + [b.entry];
        assert es'[k + 1..] == es[k + 1..];
      } else {
        assert es' == es[..k] + [b.entry] + es[k + 1..];
      }
    }
  }

  lemma RunReplyAt(es: seq<Entry>, k: nat, w: Wire)
    requires k < |es|
    ensures var b := SendMessage(es[k], w);
      RunReply(es[k..], w)
      == if !b.ok then ReplyOutcome([b.entry] + es[k + 1..], b.wire)
         else ReplyOutcome([b.entry] + RunReply(es[k + 1..], b.wire).entries, RunReply(es[k + 1..], b.wire).wire)
  {
    assert es[k..][0] == es[k] && es[k..][1..] == es[k + 1..];
  }

  /** The body of the loop over the reply's messages, for the message at index `k`. */
  method SendScheduledMessage(conn: Connection, schedule: array<Entry>, k: nat) returns (ok: bool)
    requires k < schedule.Length
    modifies conn, schedule
    ensures Burst(schedule[k], conn.State(), ok) == SendMessage(old(schedule[k]), old(conn.State()))
    ensures forall j :: 0 <= j < schedule.Length && j != k ==> schedule[j] == old(schedule[j])
  {
    ghost var burst := SendMessage(schedule[k], conn.State());
    var msg := schedule[k];
    conn.Sleep(msg.delay);
    ok := conn.SendFile(msg.path);
    if !ok {
      return;
    }
    msg := msg.(sentCount := 1);
    schedule[k] := msg;
    var i := 1;
    while i < msg.repeat
      invariant schedule[k] == msg
      invariant forall j :: 0 <= j < schedule.Length && j != k ==> schedule[j] == old(schedule[j])
      invariant Repeats(msg, conn.State(), i) == burst
      invariant ok
      decreases msg.repeat - i
    {
      conn.Sleep(msg.delay);
      ok := conn.SendFile(msg.path);
      if !ok {
        return;
      }
      msg := msg.(sentCount := msg.sentCount + 1);
      schedule[k] := msg;
      i := i + 1;
    }
  }

  /** The time `n` waits of `step` take. */
  function Waited(step: nat, n: nat): nat
  {
    if n == 0 then 0 else step + Waited(step, n - 1)
  }

  lemma {:induction false} WaitedIsProduct(step: nat, n: nat)
    ensures Waited(step, n) == step * n
  {
    if n > 0 {
      WaitedIsProduct(step, n - 1);
    }
  }

  /** The number of successes at the head of the outcome script. */
  function LeadingTrues(s: seq<bool>): (n: nat)
    ensures n <= |s|
  {
    if s == [] || !s[0] then 0 else 1 + LeadingTrues(s[1..])
  }

  lemma {:induction false} LeadingTruesDrop(s: seq<bool>, n: nat)
    requires n <= LeadingTrues(s)
    ensures LeadingTrues(s[n..]) == LeadingTrues(s) - n
    decreases n
  {
    if n > 0 {
      LeadingTruesDrop(s[1..], n - 1);
      assert s[1..][n - 1..] == s[n..];
    }
  }

  /** How many sends a message makes when none fails: `repeat` of them, and at least one. */
  function Need(e: Entry): nat
  {
    if e.repeat > 1 then e.repeat else 1
  }

  /** The time each wait adds: the delay when it is positive. */
  function Step(e: Entry): nat
  {
    if e.delay > 0 then e.delay else 0
  }

  /** `k` successful sends of `path`, each after a wait of `step` from the previous one, starting at `t`. */
  function Sends(path: string, t: int, step: nat, k: nat): (log: seq<SendRecord>)
    ensures |log| == k
    decreases k
  {
    if k == 0 then [] else [SendRecord(path, t + step)] + Sends(path, t + step, step, k - 1)
  }

  /** The `j`-th of those sends happens `(j + 1) * step` after `t`: a wait precedes every send, the first included. */
  lemma {:induction false} SendsAt(path: string, t: int, step: nat, k: nat, j: nat)
    requires j < k
    ensures Sends(path, t, step, k)[j] == SendRecord(path, t + (j + 1) * step)
    decreases k
  {
    if j > 0 {
      SendsAt(path, t + step, step, k - 1, j - 1);
      assert t + step + j * step == t + (j + 1) * step;
    }
  }

  /**
   * The repeat loop in closed form: with `L` leading successes and `m` repeats still to go, it
   * sends `min(L, m)` times and fails exactly when `L < m`.
   */
  lemma {:induction false} RepeatsClosed(e: Entry, w: Wire, from: int)
    ensures var L := LeadingTrues(w.outcomes);
      var m := if e.repeat > from then e.repeat - from else 0;
      var k := Min(L, m);
      var b := Repeats(e, w, from);
      && (b.ok <==> L >= m)
      && b.entry == e.(sentCount := e.sentCount + k)
      && b.wire.log == w.log + Sends(e.path, w.clock, Step(e), k)
    decreases e.repeat - from
  {
    var L := LeadingTrues(w.outcomes);
    var m := if e.repeat > from then e.repeat - from else 0;
    if from < e.repeat {
      var p := Pause(w, e.delay);
      assert p.clock == w.clock + Step(e);
      var a := Attempt(p, e.path);
      if a.ok {
        var e' := e.(sentCount := e.sentCount + 1);
        assert LeadingTrues(a.wire.outcomes) == L - 1;
        var m' := if e.repeat > from + 1 then e.repeat - (from + 1) else 0;
        assert m' == m - 1;
        var k := Min(L, m);
        assert Min(L - 1, m') == k - 1;
        RepeatsClosed(e', a.wire, from + 1);
        var r := Repeats(e', a.wire, from + 1);
        assert Repeats(e, w, from) == r;
        assert r.entry == e'.(sentCount := e'.sentCount + (k - 1));
        var rec := SendRecord(e.path, w.clock + Step(e));
        var later := Sends(e.path, w.clock + Step(e), Step(e), k - 1);
        assert a.wire.log == w.log + [rec];
        assert r.wire.log == w.log + [rec] + later;
        assert Sends(e.path, w.clock, Step(e), k) == [rec] + later;
        AppendAssoc(w.log, [rec], later);
      } else {
        assert Repeats(e, w, from) == Burst(e, a.wire, false);
        assert a.wire.log == w.log;
      }
    } else {
      assert Repeats(e, w, from) == Burst(e, w, true) && m == 0;
    }
  }

  /** Dropping one outcome and then `n - 1` more (as far as there are any) drops `n`. */
  lemma DropAfterOne(s: seq<bool>, n: nat)
    requires s != [] && n >= 1
    ensures s[1..][Min(n - 1, |s| - 1)..] == s[Min(n, |s|)..]
  {
  }

  /** The repeat loop waits once per attempt: `min(L, m)` attempts, plus the failing one. */
  lemma {:induction false} RepeatsCost(e: Entry, w: Wire, from: int)
    ensures var L := LeadingTrues(w.outcomes);
      var m := if e.repeat > from then e.repeat - from else 0;
      var attempts := if L >= m then m else L + 1;
      var b := Repeats(e, w, from);
      b.wire.clock == w.clock + Waited(Step(e), attempts)
    decreases e.repeat - from
  {
    var L := LeadingTrues(w.outcomes);
    var m := if e.repeat > from then e.repeat - from else 0;
    var attempts := if L >= m then m else L + 1;
    if from < e.repeat {
      var p := Pause(w, e.delay);
      assert p.clock == w.clock + Step(e) && p.outcomes == w.outcomes;
      var a := Attempt(p, e.path);
      assert a.wire.clock == p.clock;
      if a.ok {
        assert a.wire.outcomes == w.outcomes[1..];
        assert LeadingTrues(a.wire.outcomes) == L - 1;
        var m' := if e.repeat > from + 1 then e.repeat - (from + 1) else 0;
        assert m' == m - 1;
        assert (if L - 1 >= m' then m' else L) == attempts - 1;
        var e' := e.(sentCount := e.sentCount + 1);
        RepeatsCost(e', a.wire, from + 1);
        assert Repeats(e, w, from) == Repeats(e', a.wire, from + 1);
        assert Waited(Step(e), attempts) == Step(e) + Waited(Step(e), attempts - 1);
      } else {
        assert attempts == 1;
        assert Waited(Step(e), 1) == Step(e) + Waited(Step(e), 0);
      }
    }
  }

  /** The repeat loop uses one outcome per attempt, as long as there are any. */
  lemma {:induction false} RepeatsUses(e: Entry, w: Wire, from: int)
    ensures var L := LeadingTrues(w.outcomes);
      var m := if e.repeat > from then e.repeat - from else 0;
      var attempts := if L >= m then m else L + 1;
      var b := Repeats(e, w, from);
      b.wire.outcomes == w.outcomes[Min(attempts, |w.outcomes|)..]
    decreases e.repeat - from
  {
    var L := LeadingTrues(w.outcomes);
    var m := if e.repeat > from then e.repeat - from else 0;
    var attempts := if L >= m then m else L + 1;
    if from < e.repeat {
      var p := Pause(w, e.delay);
      assert p.outcomes == w.outcomes;
      var a := Attempt(p, e.path);
      if a.ok {
        assert a.wire.outcomes == w.outcomes[1..];
        assert LeadingTrues(a.wire.outcomes) == L - 1;
        var m' := if e.repeat > from + 1 then e.repeat - (from + 1) else 0;
        assert m' == m - 1;
        assert (if L - 1 >= m' then m' else L) == attempts - 1;
        var e' := e.(sentCount := e.sentCount + 1);
        RepeatsUses(e', a.wire, from + 1);
        var r := Repeats(e', a.wire, from + 1);
        assert Repeats(e, w, from) == r;
        assert r.wire.outcomes == a.wire.outcomes[Min(attempts - 1, |a.wire.outcomes|)..];
        DropAfterOne(w.outcomes, attempts);
      } else {
        assert attempts == 1;
        assert Repeats(e, w, from).wire == a.wire;
        if w.outcomes == [] {
          assert a.wire.outcomes == w.outcomes;
        } else {
          assert a.wire.outcomes == w.outcomes[1..];
        }
      }
    } else {
      assert Repeats(e, w, from).wire == w && attempts == 0;
      assert w.outcomes[0..] == w.outcomes;
    }
  }

  /**
   * One message in closed form: with `L` leading successes it logs `min(L, Need)` sends,
   * succeeds exactly when `L >= Need`, and its count is left alone only when its first send fails.
   */
  lemma SendMessageClosed(e: Entry, w: Wire)
    ensures var L := LeadingTrues(w.outcomes);
      var k := Min(L, Need(e));
      var b := SendMessage(e, w);
      && (b.ok <==> L >= Need(e))
      && b.entry == (if L == 0 then e else e.(sentCount := k))
      && b.wire.log == w.log + Sends(e.path, w.clock, Step(e), k)
  {
    var L := LeadingTrues(w.outcomes);
    var k := Min(L, Need(e));
    var b := SendMessage(e, w);
    var p := Pause(w, e.delay);
    var a := Attempt(p, e.path);
    if a.ok {
      var e1 := e.(sentCount := 1);
      assert b == Repeats(e1, a.wire, 1);
      assert LeadingTrues(a.wire.outcomes) == L - 1;
      RepeatsClosed(e1, a.wire, 1);
      assert (if e1.repeat > 1 then e1.repeat - 1 else 0) == Need(e) - 1;
      assert b.entry == e1.(sentCount := 1 + Min(L - 1, Need(e) - 1));
      assert b.entry == e.(sentCount := k);
      var rec := SendRecord(e.path, w.clock + Step(e));
      var later := Sends(e.path, w.clock + Step(e), Step(e), k - 1);
      assert a.wire.clock == w.clock + Step(e) && a.wire.log == w.log + [rec];
      assert b.wire.log == (w.log + [rec]) + later;
      assert Sends(e.path, w.clock, Step(e), k) == [rec] + later;
      AppendAssoc(w.log, [rec], later);
    }
  }

  /** One message uses one outcome and one wait per attempt: `Need` attempts, or `L + 1` when one fails. */
  lemma SendMessageCost(e: Entry, w: Wire)
    ensures var L := LeadingTrues(w.outcomes);
      var attempts := if L >= Need(e) then Need(e) else L + 1;
      var b := SendMessage(e, w);
      && b.wire.clock == w.clock + Waited(Step(e), attempts)
      && b.wire.outcomes == w.outcomes[Min(attempts, |w.outcomes|)..]
  {
    var L := LeadingTrues(w.outcomes);
    var a := Attempt(Pause(w, e.delay), e.path);
    if a.ok {
      RepeatsCost(e.(sentCount := 1), a.wire, 1);
      RepeatsUses(e.(sentCount := 1), a.wire, 1);
      assert LeadingTrues(a.wire.outcomes) == L - 1;
      var attempts := if L >= Need(e) then Need(e) else L + 1;
      assert w.outcomes[1..][Min(attempts - 1, |w.outcomes| - 1)..] == w.outcomes[Min(attempts, |w.outcomes|)..];
    }
  }

  /** The sends a whole reply needs when none fails. */
  function TotalNeed(es: seq<Entry>): nat
    decreases |es|
  {
    if es == [] then 0 else Need(es[0]) + TotalNeed(es[1..])
  }

  /** The sends of a fully successful reply: message after message, each with its own spacing. */
  function ReplyLog(es: seq<Entry>, t: int): (log: seq<SendRecord>)
    ensures |log| == TotalNeed(es)
    decreases |es|
  {
    if es == [] then []
    else Sends(es[0].path, t, Step(es[0]), Need(es[0])) + ReplyLog(es[1..], t + Waited(Step(es[0]), Need(es[0])))
  }

  /**
   * With enough successes, every message is sent `Need` times and exactly `TotalNeed` outcomes are used.
   */
  lemma {:induction false} RunReplyAllSent(es: seq<Entry>, w: Wire)
    requires LeadingTrues(w.outcomes) >= TotalNeed(es)
    ensures var r := RunReply(es, w);
      && (forall j :: 0 <= j < |es| ==> r.entries[j] == es[j].(sentCount := Need(es[j])))
      && r.wire.outcomes == w.outcomes[TotalNeed(es)..]
    decreases |es|
  {
    if es != [] {
      var b := SendMessage(es[0], w);
      var n := Need(es[0]);
      assert b.ok && b.entry == es[0].(sentCount := n) by {
        SendMessageClosed(es[0], w);
      }
      assert b.wire.outcomes == w.outcomes[n..] by {
        SendMessageCost(es[0], w);
      }
      assert LeadingTrues(b.wire.outcomes) >= TotalNeed(es[1..]) by {
        LeadingTruesDrop(w.outcomes, n);
      }
      var r := RunReply(es[1..], b.wire);
      RunReplyAllSent(es[1..], b.wire);
      assert RunReply(es, w) == ReplyOutcome([b.entry] + r.entries, r.wire);
      assert b.wire.outcomes[TotalNeed(es[1..])..] == w.outcomes[TotalNeed(es)..];
      forall j | 0 <= j < |es|
        ensures RunReply(es, w).entries[j] == es[j].(sentCount := Need(es[j]))
      {
        if j > 0 {
          assert RunReply(es, w).entries[j] == r.entries[j - 1];
        }
      }
    }
  }

  /**
   * With enough successes the log gains the sends of each message in turn: the first message's
   * `Need` sends, then the next message's, each send preceded by its message's wait.
   */
  lemma {:induction false} RunReplyLog(es: seq<Entry>, w: Wire)
    requires LeadingTrues(w.outcomes) >= TotalNeed(es)
    ensures RunReply(es, w).wire.log == w.log + ReplyLog(es, w.clock)
    decreases |es|
  {
    if es != [] {
      var b := SendMessage(es[0], w);
      var n := Need(es[0]);
      assert b.ok && b.wire.log == w.log + Sends(es[0].path, w.clock, Step(es[0]), n) by {
        SendMessageClosed(es[0], w);
      }
      assert b.wire.outcomes == w.outcomes[n..] && b.wire.clock == w.clock + Waited(Step(es[0]), n) by {
        SendMessageCost(es[0], w);
      }
      assert LeadingTrues(b.wire.outcomes) >= TotalNeed(es[1..]) by {
        LeadingTruesDrop(w.outcomes, n);
      }
      var rest := RunReply(es[1..], b.wire);
      assert RunReply(es, w).wire == rest.wire;
      RunReplyLog(es[1..], b.wire);
      var head := Sends(es[0].path, w.clock, Step(es[0]), n);
      assert ReplyLog(es, w.clock) == head + ReplyLog(es[1..], b.wire.clock);
      assert rest.wire.log == (w.log + head) + ReplyLog(es[1..], b.wire.clock);
    }
  }

  /** Where a reply with `budget` leading successes first fails: the message index (with `budget < TotalNeed`). */
  function FailIndex(es: seq<Entry>, budget: nat): (f: nat)
    requires budget < TotalNeed(es)
    ensures f < |es|
    decreases |es|
  {
    if budget < Need(es[0]) then 0 else 1 + FailIndex(es[1..], budget - Need(es[0]))
  }

  /** How many sends of the failing message succeeded before its failure. */
  function FailSent(es: seq<Entry>, budget: nat): (k: nat)
    requires budget < TotalNeed(es)
    ensures k < Need(es[FailIndex(es, budget)])
    decreases |es|
  {
    if budget < Need(es[0]) then budget else FailSent(es[1..], budget - Need(es[0]))
  }

  /** The schedule after a reply with `budget < TotalNeed` leading successes, message by message. */
  function Settled(es: seq<Entry>, budget: nat): (r: seq<Entry>)
    requires budget < TotalNeed(es)
    ensures |r| == |es|
    decreases |es|
  {
    if budget < Need(es[0]) then [if budget == 0 then es[0] else es[0].(sentCount := budget)] + es[1..]
    else [es[0].(sentCount := Need(es[0]))] + Settled(es[1..], budget - Need(es[0]))
  }

  lemma {:induction false} RunReplySettled(es: seq<Entry>, w: Wire)
    requires LeadingTrues(w.outcomes) < TotalNeed(es)
    ensures RunReply(es, w).entries == Settled(es, LeadingTrues(w.outcomes))
    decreases |es|
  {
    var L := LeadingTrues(w.outcomes);
    var b := SendMessage(es[0], w);
    var n := Need(es[0]);
    if L < n {
      assert !b.ok && b.entry == (if L == 0 then es[0] else es[0].(sentCount := L)) by {
        SendMessageClosed(es[0], w);
      }
    } else {
      assert b.ok && b.entry == es[0].(sentCount := n) by {
        SendMessageClosed(es[0], w);
      }
      assert b.wire.outcomes == w.outcomes[n..] by {
        SendMessageCost(es[0], w);
      }
      assert LeadingTrues(b.wire.outcomes) == L - n by {
        LeadingTruesDrop(w.outcomes, n);
      }
      RunReplySettled(es[1..], b.wire);
    }
  }

  /** `Settled` message by message: complete before the failing one, its partial count, untouched after. */
  lemma {:induction false} SettledAt(es: seq<Entry>, budget: nat)
    requires budget < TotalNeed(es)
    ensures var f := FailIndex(es, budget);
      var k := FailSent(es, budget);
      var r := Settled(es, budget);
      && (forall j :: 0 <= j < f ==> r[j] == es[j].(sentCount := Need(es[j])))
      && r[f] == (if k == 0 then es[f] else es[f].(sentCount := k))
      && (forall j :: f < j < |es| ==> r[j] == es[j])
    decreases |es|
  {
    var n := Need(es[0]);
    var r := Settled(es, budget);
    if budget >= n {
      assert TotalNeed(es) == n + TotalNeed(es[1..]);
      var later := Settled(es[1..], budget - n);
      SettledAt(es[1..], budget - n);
      assert FailIndex(es, budget) == 1 + FailIndex(es[1..], budget - n);
      assert FailSent(es, budget) == FailSent(es[1..], budget - n);
      assert r == [es[0].(sentCount := n)] + later;
      forall j | 1 <= j < |es|
        ensures r[j] == later[j - 1] && es[j] == es[1..][j - 1]
      {
      }
    }
  }

  /**
   * The first failed send ends the reply: the messages before it are complete, the failing one
   * records the sends it made (or keeps its count when its first send failed), and later ones
   * are untouched.
   */
  lemma RunReplyStopsAtFailure(es: seq<Entry>, w: Wire)
    requires LeadingTrues(w.outcomes) < TotalNeed(es)
    ensures var L := LeadingTrues(w.outcomes);
      var f := FailIndex(es, L);
      var k := FailSent(es, L);
      var r := RunReply(es, w);
      && (forall j :: 0 <= j < f ==> r.entries[j] == es[j].(sentCount := Need(es[j])))
      && r.entries[f] == (if k == 0 then es[f] else es[f].(sentCount := k))
      && (forall j :: f < j < |es| ==> r.entries[j] == es[j])
  {
    RunReplySettled(es, w);
    SettledAt(es, LeadingTrues(w.outcomes));
  }

  /** A reply that fails logs exactly its `L` leading successes. */
  lemma {:induction false} RunReplyFailureLog(es: seq<Entry>, w: Wire)
    requires LeadingTrues(w.outcomes) < TotalNeed(es)
    ensures |RunReply(es, w).wire.log| == |w.log| + LeadingTrues(w.outcomes)
    decreases |es|
  {
    var L := LeadingTrues(w.outcomes);
    var b := SendMessage(es[0], w);
    var n := Need(es[0]);
    if L < n {
      assert !b.ok && |b.wire.log| == |w.log| + L by {
        SendMessageClosed(es[0], w);
      }
      assert RunReply(es, w).wire == b.wire;
    } else {
      assert b.ok && |b.wire.log| == |w.log| + n by {
        SendMessageClosed(es[0], w);
      }
      assert b.wire.outcomes == w.outcomes[n..] by {
        SendMessageCost(es[0], w);
      }
      assert LeadingTrues(b.wire.outcomes) == L - n by {
        LeadingTruesDrop(w.outcomes, n);
      }
      RunReplyFailureLog(es[1..], b.wire);
      assert RunReply(es, w).wire == RunReply(es[1..], b.wire).wire;
    }
  }
}
