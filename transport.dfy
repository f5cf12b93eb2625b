/**
 * The simulator's side of the Unix-domain stream socket connection, as far as the scheduling logic can observe it.
 * A send either succeeds or fails (`send_file` returns False on any socket or file error),
 * a receive yields nothing, an empty string or some bytes (`receive_with_timeout`), and the
 * wall clock is a logical millisecond counter that only the simulator's own sleeps advance.
 * Which sends succeed and what arrives are given in advance as a script.
 */
module Transport {
  import opened Wrappers
  import opened Bytes

  /** What one `receive_with_timeout` call returns: None (timeout or error) or the bytes read. */
  datatype Receipt = NoData | Data(payload: seq<byte>)

  /** `if not received_data: continue` — only a non-empty receipt is counted. */
  predicate Counts(r: Receipt)
  {
    r.Data? && |r.payload| > 0
  }

  /** One successful `connection.send` of a file's contents, and the logical time it happened at. */
  datatype SendRecord = SendRecord(path: string, at: int)

  /**
   * The connection: the outcomes the remaining sends will have (once the script is used up
   * every send fails, the peer being gone), the receipts still to arrive, the clock, and the
   * sends made so far.
   */
  datatype Wire = Wire(outcomes: seq<bool>, inbox: seq<Receipt>, clock: int, log: seq<SendRecord>)

  datatype Attempted = Attempted(ok: bool, wire: Wire)

  /** `send_file(sock, path)`: consumes one scripted outcome and logs the send when it succeeds. */
  function Attempt(w: Wire, path: string): Attempted
  {
    if w.outcomes == [] then Attempted(false, w)
    else if w.outcomes[0] then
      Attempted(true, w.(outcomes := w.outcomes[1..], log := w.log + [SendRecord(path, w.clock)]))
    else Attempted(false, w.(outcomes := w.outcomes[1..]))
  }

  /** A successful send uses up one outcome; a failed one uses up at most one. */
  lemma AttemptConsumes(w: Wire, path: string)
    ensures |Attempt(w, path).wire.outcomes| + (if Attempt(w, path).ok then 1 else 0) <= |w.outcomes|
  {
  }

  /** `if delay > 0: time.sleep(delay / 1000.0)`. */
  function Pause(w: Wire, ms: int): Wire
  {
    if ms > 0 then w.(clock := w.clock + ms) else w
  }

  /** Waiting until the clock reaches `t` (nothing happens when it already has). */
  function WaitUntil(w: Wire, t: int): Wire
  {
    w.(clock := Max(w.clock, t))
  }

  /** The socket with its scripted peer, updated in place by the calls the simulator makes. */
  class Connection {
    var outcomes: seq<bool>
    var inbox: seq<Receipt>
    var clock: int
    var log: seq<SendRecord>

    function State(): Wire
      reads this
    {
      Wire(outcomes, inbox, clock, log)
    }

    constructor (w: Wire)
      ensures State() == w
    {
      outcomes := w.outcomes;
      inbox := w.inbox;
      clock := w.clock;
      log := w.log;
    }

    /** `send_file`: True exactly when the scripted outcome is a success. */
    method SendFile(path: string) returns (ok: bool)
      modifies this
      ensures Attempted(ok, State()) == Attempt(old(State()), path)
    {
      if outcomes == [] {
        ok := false;
      } else {
        ok := outcomes[0];
        outcomes := outcomes[1..];
        if ok {
          log := log + [SendRecord(path, clock)];
        }
      }
    }

    /** `time.sleep(ms / 1000.0)` guarded by `ms > 0`. */
    method Sleep(ms: int)
      modifies this
      ensures State() == Pause(old(State()), ms)
    {
      if ms > 0 {
        clock := clock + ms;
      }
    }

    /** Polling `time.time()` until the head of the send queue is due. */
    method SleepUntil(t: int)
      modifies this
      ensures State() == WaitUntil(old(State()), t)
    {
      if clock < t {
        clock := t;
      }
    }

    /**
     * `receive_with_timeout`: the next scripted receipt, or None once the script is used up
     * (in the source the loop would go on waiting for ever at that point).
     */
    method ReceiveWithTimeout() returns (r: Option<Receipt>)
      modifies this
      ensures old(inbox) == [] ==> r == None && State() == old(State())
      ensures old(inbox) != [] ==> r == Some(old(inbox)[0]) && State() == old(State()).(inbox := old(inbox)[1..])
    {
      if inbox == [] {
        r := None;
      } else {
        r := Some(inbox[0]);
        inbox := inbox[1..];
      }
    }
  }
}
