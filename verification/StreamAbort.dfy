/**
 * `AbortOnError` (src/proxy_stream.rs): passes an upstream body on chunk by chunk and ends it with an
 * error the moment upstream fails or stalls.
 */
module StreamAbort {
  type Bytes = seq<bv8>

  /** What the upstream body answers when it is polled. */
  datatype Upstream = Chunk(data: Bytes) | Failed | Ended | Waiting

  /** What the wrapper answers. */
  datatype Downstream = Data(data: Bytes) | Error | End | Pending

  datatype Reason = UpstreamFailed | IdleTimeout

  /** Milliseconds. */
  const YEAR: nat := 86_400 * 365 * 1000

  /**
   * `idle` is the configured timeout and `limit` the last instant the clock can name. `far` is the
   * timer library's own delay for a first deadline past that limit.
   */
  datatype Timing = Timing(idle: nat, limit: nat, far: nat)

  /** The deadline armed at `now`: past the limit it is a year off. */
  function Rearmed(tm: Timing, now: nat): nat {
    if now + tm.idle <= tm.limit then now + tm.idle else now + YEAR
  }

  function FirstDeadline(tm: Timing, now: nat): nat {
    if now + tm.idle <= tm.limit then now + tm.idle else now + tm.far
  }

  datatype Wrapper = Wrapper(failed: bool, deadline: nat)

  /** One poll: the new state, the answer, and what is logged. `up` is not asked for once it has failed. */
  function Poll(tm: Timing, w: Wrapper, up: Upstream, now: nat): (Wrapper, Downstream, seq<Reason>) {
    if w.failed then (w, End, [])
    else
      match up
      case Chunk(data) => (w.(deadline := Rearmed(tm, now)), Data(data), [])
      case Failed => (w.(failed := true), Error, [UpstreamFailed])
      case Ended => (w, End, [])
      case Waiting => if now >= w.deadline then (w.(failed := true), Error, [IdleTimeout]) else (w, Pending, [])
  }

  class AbortOnError {
    const tm: Timing
    var failed: bool
    var deadline: nat
    var log: seq<Reason>

    constructor (tm: Timing, now: nat)
      ensures this.tm == tm && State() == Wrapper(false, FirstDeadline(tm, now)) && log == []
    {
      this.tm := tm;
      failed := false;
      deadline := if now + tm.idle <= tm.limit then now + tm.idle else now + tm.far;
      log := [];
    }

    function State(): Wrapper
      reads this
    {
      Wrapper(failed, deadline)
    }

    method Rearm(now: nat)
      modifies this`deadline
      ensures deadline == Rearmed(tm, now)
    {
      deadline := if now + tm.idle <= tm.limit then now + tm.idle else now + YEAR;
    }

    method Abort(kind: Reason) returns (r: Downstream)
      modifies this`failed, this`log
      ensures failed && r == Error && log == old(log) + [kind]
    {
      failed := true;
      log := log + [kind];
      r := Error;
    }

    method PollNext(up: Upstream, now: nat) returns (r: Downstream)
      modifies this
      ensures
        var (w, answer, logged) := Poll(tm, old(State()), up, now);
        State() == w && r == answer && log == old(log) + logged
    {
      if failed {
        assert log == log + [];
        return End;
      }
      match up
      case Chunk(data) =>
        Rearm(now);
        r := Data(data);
      case Failed => r := Abort(UpstreamFailed);
      case Ended => r := End;
      case Waiting =>
        if now >= deadline {
          r := Abort(IdleTimeout);
        } else {
          r := Pending;
        }
    }
  }

  // ---------------------------------------------------------------- whole runs

  /** A poll: when it happened, and what upstream had to say. */
  datatype PollAt = PollAt(now: nat, up: Upstream)

  /** The state before poll `n`. */
  function Before(tm: Timing, start: nat, polls: seq<PollAt>, n: nat): Wrapper
    requires n <= |polls|
  {
    if n == 0 then Wrapper(false, FirstDeadline(tm, start))
    else Poll(tm, Before(tm, start, polls, n - 1), polls[n - 1].up, polls[n - 1].now).0
  }

  function Answer(tm: Timing, start: nat, polls: seq<PollAt>, n: nat): Downstream
    requires n < |polls|
  {
    Poll(tm, Before(tm, start, polls, n), polls[n].up, polls[n].now).1
  }

  function LogAt(tm: Timing, start: nat, polls: seq<PollAt>, n: nat): seq<Reason>
    requires n < |polls|
  {
    Poll(tm, Before(tm, start, polls, n), polls[n].up, polls[n].now).2
  }

  /** What the first `n` polls log. */
  function Log(tm: Timing, start: nat, polls: seq<PollAt>, n: nat): seq<Reason>
    requires n <= |polls|
  {
    if n == 0 then []
    else Log(tm, start, polls, n - 1) + LogAt(tm, start, polls, n - 1)
  }

  /** The chunks the first `n` answers pass on. */
  function Delivered(tm: Timing, start: nat, polls: seq<PollAt>, n: nat): seq<Bytes>
    requires n <= |polls|
  {
    if n == 0 then []
    else
      var last := Answer(tm, start, polls, n - 1);
      Delivered(tm, start, polls, n - 1) + if last.Data? then [last.data] else []
  }

  // ---------------------------------------------------------------- the same, without a state

  /** When the deadline in force at poll `n` was armed: at the last chunk, or at creation. */
  function ArmedAt(start: nat, polls: seq<PollAt>, n: nat): nat
    requires n <= |polls|
  {
    if n == 0 then start
    else if polls[n - 1].up.Chunk? then polls[n - 1].now
    else ArmedAt(start, polls, n - 1)
  }

  predicate AnyChunk(polls: seq<PollAt>, n: nat)
    requires n <= |polls|
  {
    exists i :: 0 <= i < n && polls[i].up.Chunk?
  }

  function Due(tm: Timing, start: nat, polls: seq<PollAt>, n: nat): nat
    requires n <= |polls|
  {
    var at := ArmedAt(start, polls, n);
    if AnyChunk(polls, n) then Rearmed(tm, at) else FirstDeadline(tm, at)
  }

  /** Poll `n` finds upstream failed, or stalled up to the deadline. */
  predicate Fails(tm: Timing, start: nat, polls: seq<PollAt>, n: nat)
    requires n < |polls|
  {
    polls[n].up.Failed? || (polls[n].up.Waiting? && polls[n].now >= Due(tm, start, polls, n))
  }

  /** No poll before `n` fails. */
  ghost predicate FineUntil(tm: Timing, start: nat, polls: seq<PollAt>, n: nat) {
    n <= |polls| && forall i :: 0 <= i < n ==> !Fails(tm, start, polls, i)
  }

  function Passed(up: Upstream): Downstream {
    match up
    case Chunk(data) => Data(data)
    case Failed => Error
    case Ended => End
    case Waiting => Pending
  }

  function ReasonOf(up: Upstream): Reason {
    if up.Failed? then UpstreamFailed else IdleTimeout
  }

  /** While nothing has failed the state is the deadline that is due. */
  lemma {:induction false} FineState(tm: Timing, start: nat, polls: seq<PollAt>, n: nat)
    requires FineUntil(tm, start, polls, n)
    ensures Before(tm, start, polls, n) == Wrapper(false, Due(tm, start, polls, n))
  {
    if n > 0 {
      FineState(tm, start, polls, n - 1);
      assert !Fails(tm, start, polls, n - 1);
      assert AnyChunk(polls, n) <==> AnyChunk(polls, n - 1) || polls[n - 1].up.Chunk?;
      assert !AnyChunk(polls, n) ==> ArmedAt(start, polls, n) == ArmedAt(start, polls, n - 1);
    }
  }

  lemma {:induction false} BrokenState(tm: Timing, start: nat, polls: seq<PollAt>, k: nat, n: nat)
    requires FineUntil(tm, start, polls, k) && k < n <= |polls| && Fails(tm, start, polls, k)
    ensures Before(tm, start, polls, n).failed
  {
    FineState(tm, start, polls, k);
    if n > k + 1 {
      BrokenState(tm, start, polls, k, n - 1);
    }
  }

  /** Before the first failure an answer is upstream's own, and nothing is logged. */
  lemma FineAnswer(tm: Timing, start: nat, polls: seq<PollAt>, n: nat)
    requires n < |polls| && FineUntil(tm, start, polls, n) && !Fails(tm, start, polls, n)
    ensures Answer(tm, start, polls, n) == Passed(polls[n].up) && Answer(tm, start, polls, n) != Error
    ensures LogAt(tm, start, polls, n) == []
  {
    FineState(tm, start, polls, n);
  }

  /** The first failure is answered by an error and a log line. */
  lemma FailingAnswer(tm: Timing, start: nat, polls: seq<PollAt>, n: nat)
    requires n < |polls| && FineUntil(tm, start, polls, n) && Fails(tm, start, polls, n)
    ensures Answer(tm, start, polls, n) == Error
    ensures LogAt(tm, start, polls, n) == [ReasonOf(polls[n].up)]
  {
    FineState(tm, start, polls, n);
  }

  /** After it the stream is over. */
  lemma BrokenAnswer(tm: Timing, start: nat, polls: seq<PollAt>, k: nat, n: nat)
    requires FineUntil(tm, start, polls, k) && k < n < |polls| && Fails(tm, start, polls, k)
    ensures Answer(tm, start, polls, n) == End && LogAt(tm, start, polls, n) == []
  {
    BrokenState(tm, start, polls, k, n);
  }

  lemma {:induction false} FirstFailure(tm: Timing, start: nat, polls: seq<PollAt>, n: nat) returns (k: nat)
    requires n <= |polls|
    ensures k <= n && FineUntil(tm, start, polls, k) && (k < n ==> Fails(tm, start, polls, k))
  {
    k := 0;
    if n > 0 {
      k := FirstFailure(tm, start, polls, n - 1);
      if k == n - 1 && !Fails(tm, start, polls, n - 1) {
        k := n;
      }
    }
  }

  // ---------------------------------------------------------------- what every run keeps

  /** The chunks in the first `n` upstream answers. */
  function Chunks(polls: seq<PollAt>, n: nat): seq<Bytes>
    requires n <= |polls|
  {
    if n == 0 then []
    else Chunks(polls, n - 1) + if polls[n - 1].up.Chunk? then [polls[n - 1].up.data] else []
  }

  lemma {:induction false} ChunksGrow(polls: seq<PollAt>, k: nat, n: nat)
    requires k <= n <= |polls|
    ensures Chunks(polls, k) <= Chunks(polls, n)
  {
    if k < n {
      ChunksGrow(polls, k, n - 1);
    }
  }

  ghost predicate FailsFirstAt(tm: Timing, start: nat, polls: seq<PollAt>, k: nat, n: nat) {
    k <= n <= |polls| && FineUntil(tm, start, polls, k) && (k < n ==> Fails(tm, start, polls, k))
  }

  lemma {:induction false} DeliveredIsChunks(tm: Timing, start: nat, polls: seq<PollAt>, k: nat, n: nat)
    requires FailsFirstAt(tm, start, polls, k, n)
    ensures Delivered(tm, start, polls, n) == Chunks(polls, k)
    ensures Log(tm, start, polls, n) == if k < n then [ReasonOf(polls[k].up)] else []
  {
    if n > 0 {
      var m := n - 1;
      if k == n {
        assert !Fails(tm, start, polls, m);
        FineAnswer(tm, start, polls, m);
        DeliveredIsChunks(tm, start, polls, m, m);
      } else if k == m {
        FailingAnswer(tm, start, polls, m);
        DeliveredIsChunks(tm, start, polls, m, m);
      } else {
        BrokenAnswer(tm, start, polls, k, m);
        DeliveredIsChunks(tm, start, polls, k, m);
      }
    }
  }

  /** The answer to poll `i` when poll `k` is the first to fail. */
  function Expected(polls: seq<PollAt>, k: nat, i: nat): Downstream
    requires i < |polls|
  {
    if i < k then Passed(polls[i].up) else if i == k then Error else End
  }

  lemma AnswerIsExpected(tm: Timing, start: nat, polls: seq<PollAt>, k: nat, n: nat, i: nat)
    requires FailsFirstAt(tm, start, polls, k, n) && i < n
    ensures Answer(tm, start, polls, i) == Expected(polls, k, i)
    ensures Answer(tm, start, polls, i) == Error <==> i == k
  {
    if i < k {
      assert !Fails(tm, start, polls, i);
      FineAnswer(tm, start, polls, i);
    } else if i == k {
      FailingAnswer(tm, start, polls, i);
    } else {
      BrokenAnswer(tm, start, polls, k, i);
    }
  }

  /**
   * Whatever upstream says and whenever it is polled, the client gets a prefix of upstream's chunks,
   * unchanged and in order: all of them, with nothing logged, unless some poll failed; and then there
   * is one error, one log line, and no answer but the end after it.
   */
  lemma ClientGetsAPrefix(tm: Timing, start: nat, polls: seq<PollAt>, n: nat) returns (k: nat)
    requires n <= |polls|
    ensures k <= n && Delivered(tm, start, polls, n) == Chunks(polls, k) <= Chunks(polls, n)
    ensures forall i :: 0 <= i < n ==> Answer(tm, start, polls, i) == Expected(polls, k, i)
    ensures forall i :: 0 <= i < n ==> (Answer(tm, start, polls, i) == Error <==> i == k)
    ensures Log(tm, start, polls, n) == if k < n then [ReasonOf(polls[k].up)] else []
  {
    k := FirstFailure(tm, start, polls, n);
    DeliveredIsChunks(tm, start, polls, k, n);
    ChunksGrow(polls, k, n);
    forall i | 0 <= i < n
      ensures Answer(tm, start, polls, i) == Expected(polls, k, i)
      ensures Answer(tm, start, polls, i) == Error <==> i == k
    {
      AnswerIsExpected(tm, start, polls, k, n, i);
    }
  }

  /** An end without an error before it is upstream's own end, with every chunk before it delivered. */
  lemma CleanEndIsUpstreams(tm: Timing, start: nat, polls: seq<PollAt>, n: nat)
    requires n < |polls| && Answer(tm, start, polls, n) == End
    requires forall i :: 0 <= i < n ==> Answer(tm, start, polls, i) != Error
    ensures polls[n].up == Ended && Delivered(tm, start, polls, n) == Chunks(polls, n)
  {
    var k := FirstFailure(tm, start, polls, n + 1);
    AnswerIsExpected(tm, start, polls, k, n + 1, n);
    if k < n {
      AnswerIsExpected(tm, start, polls, k, n + 1, k);
      assert false;
    }
    DeliveredIsChunks(tm, start, polls, n, n);
  }

  /**
   * A poll that stays pending comes before the deadline, and an idle abort only once `idle` has passed
   * since the last chunk, or since creation. With an `idle` the clock cannot hold that is not so: the
   * abort comes after the stand-in delay, and before `idle` has passed.
   */
  lemma IdleAbortsAreDue(tm: Timing, start: nat, polls: seq<PollAt>, n: nat)
    requires n < |polls| && polls[n].up.Waiting? && polls[n].now <= tm.limit
    requires forall i :: 0 <= i < n ==> Answer(tm, start, polls, i) != Error
    ensures
      var at, answer := ArmedAt(start, polls, n), Answer(tm, start, polls, n);
      && (answer == Pending <==> polls[n].now < Due(tm, start, polls, n))
      && (answer == Error <==> polls[n].now >= Due(tm, start, polls, n))
      && (at + tm.idle <= tm.limit ==> (answer == Error <==> polls[n].now >= at + tm.idle))
      && (answer == Error ==> (polls[n].now < at + tm.idle <==> at + tm.idle > tm.limit))
      && (at + tm.idle > tm.limit && AnyChunk(polls, n) ==>
        (answer == Error <==> polls[n].now >= at + 365 * 24 * 60 * 60 * 1000))
      && (at + tm.idle > tm.limit && !AnyChunk(polls, n) ==> (answer == Error <==> polls[n].now >= at + tm.far))
  {
    var k := FirstFailure(tm, start, polls, n);
    if k < n {
      FailingAnswer(tm, start, polls, k);
      assert false;
    }
    FineState(tm, start, polls, n);
  }
}
