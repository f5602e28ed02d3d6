/**
 * `Client::ask`: after a failure to reach the runtime it is left alone for a while. Every
 * connection attempt goes to the egress log. Times are nanoseconds on a clock that never goes
 * back.
 */
module BackOff {
  import opened Options

  const RETRY_AFTER: int := 60_000_000_000

  datatype AiError = Down | Status(code: nat) | Malformed

  datatype Reply = Content(text: string) | Failed(error: AiError)

  /** What one question meets: the times the clock is read at and the connection tried, and what
      the runtime does. `kept` says that the content is JSON and passes the schema's check. */
  datatype World = World(asked: int, tried: int, failed: int, encodes: bool, connects: bool, reply: Reply, kept: bool)

  datatype Answer = Answered(text: string) | Refused(error: AiError)

  /** A connection attempt, and what the question that made it came to, and when. */
  datatype Attempt = Attempt(at: int, connected: bool, over: int, reply: Reply)

  predicate Rests(error: AiError) { error.Down? || error.Status? }

  /** The clock is read in order, no earlier than `since`. */
  predicate InOrder(w: World, since: int) { since <= w.asked <= w.tried <= w.failed }

  /** The client's state: until when it rests, what it logged and what it tried. */
  datatype State = State(downUntil: Option<int>, log: seq<bool>, attempts: seq<Attempt>)

  /** The exchange with the runtime. */
  function Exchange(w: World): Reply {
    if !w.encodes then Failed(Malformed) else if !w.connects then Failed(Down) else w.reply
  }

  function After(s: State, flat: bool, w: World): State {
    if !flat then s
    else if s.downUntil.Some? && w.asked < s.downUntil.value then s
    else
      var failed := Exchange(w).Failed? && Rests(Exchange(w).error);
      State(if failed then Some(w.failed + RETRY_AFTER) else None,
            if w.encodes then s.log + [w.connects] else s.log,
            if w.encodes then s.attempts + [Attempt(w.tried, w.connects, w.failed, Exchange(w))] else s.attempts)
  }

  class Client {
    var downUntil: Option<int>
    var log: seq<bool>
    ghost var attempts: seq<Attempt>

    ghost function Now(): State
      reads this
    {
      State(downUntil, log, attempts)
    }

    constructor ()
      ensures Now() == State(None, [], [])
    {
      downUntil, log, attempts := None, [], [];
    }

    method Resting(now: int) returns (resting: bool)
      modifies `downUntil
      ensures resting <==> old(downUntil).Some? && now < old(downUntil).value
      ensures downUntil == if resting then old(downUntil) else None
    {
      match downUntil
      case Some(until) =>
        if now < until {
          return true;
        }
        downUntil := None;
        resting := false;
      case None =>
        resting := false;
    }

    /** One question, with an egress sink attached. */
    method Ask(flat: bool, w: World) returns (answer: Answer)
      modifies this
      ensures Now() == After(old(Now()), flat, w)
      ensures old(downUntil).Some? && w.asked < old(downUntil).value && flat ==>
        answer == Refused(Down) && attempts == old(attempts)
      ensures !flat ==> answer == Refused(Malformed) && attempts == old(attempts)
      ensures flat && !(old(downUntil).Some? && w.asked < old(downUntil).value) ==>
        (!w.encodes ==> answer == Refused(Malformed) && attempts == old(attempts)) &&
        (w.encodes ==> |attempts| == |old(attempts)| + 1) &&
        (w.encodes && !w.connects ==> answer == Refused(Down)) &&
        (w.encodes && w.connects && w.reply.Failed? ==> answer == Refused(w.reply.error)) &&
        (w.encodes && w.connects && w.reply.Content? ==>
           answer == if w.kept then Answered(w.reply.text) else Refused(Malformed))
    {
      if !flat {
        return Refused(Malformed);
      }
      var resting := Resting(w.asked);
      if resting {
        return Refused(Down);
      }
      var reply: Reply;
      if !w.encodes {
        reply := Failed(Malformed);
      } else {
        log := log + [w.connects];
        reply := if w.connects then w.reply else Failed(Down);
        attempts := attempts + [Attempt(w.tried, w.connects, w.failed, reply)];
      }
      match reply
      case Content(text) =>
        answer := if w.kept then Answered(text) else Refused(Malformed);
      case Failed(error) =>
        if Rests(error) {
          downUntil := Some(w.failed + RETRY_AFTER);
        }
        answer := Refused(error);
    }
  }

  // -------------------------------------------------------------------------
  // Whole conversations
  // -------------------------------------------------------------------------

  /** A question asked: whether its schema is flat, and what it met. */
  datatype Question = Question(flat: bool, world: World)

  predicate OneAtATime(qs: seq<Question>, since: int) {
    qs == [] || (InOrder(qs[0].world, since) && OneAtATime(qs[1..], qs[0].world.failed))
  }

  function AfterAll(s: State, qs: seq<Question>): State
    decreases |qs|
  {
    if qs == [] then s else AfterAll(After(s, qs[0].flat, qs[0].world), qs[1..])
  }

  /** An attempt that did not reach a runtime in order: none there, or an error status. */
  predicate Unreached(a: Attempt) { a.reply == Failed(Down) || (a.reply.Failed? && a.reply.error.Status?) }

  /** After an attempt that failed to reach the runtime, the next comes no sooner than the rest. */
  ghost predicate Spaced(attempts: seq<Attempt>) {
    forall i, j | 0 <= i < j < |attempts| :: attempts[i].at <= attempts[j].at &&
      (Unreached(attempts[i]) ==> attempts[i].at <= attempts[i].over <= attempts[j].at - RETRY_AFTER)
  }

  /** The client rests for its last attempt, if that failed to reach the runtime, and for no other. */
  ghost predicate RestIsEarned(s: State) {
    s.downUntil.Some? ==>
      s.attempts != [] && var last := s.attempts[|s.attempts| - 1];
      Unreached(last) && s.downUntil.value == last.over + RETRY_AFTER
  }

  /** The state at time `now`: the client rests as long as its last failure asks for. */
  ghost predicate Inv(s: State, now: int) {
    Spaced(s.attempts) && |s.log| == |s.attempts| && RestIsEarned(s) &&
    (forall i | 0 <= i < |s.attempts| :: s.log[i] == s.attempts[i].connected && s.attempts[i].at <= now) &&
    forall i | 0 <= i < |s.attempts| && Unreached(s.attempts[i]) ::
      s.attempts[i].at <= s.attempts[i].over &&
      s.attempts[i].over + RETRY_AFTER <= if s.downUntil.Some? then s.downUntil.value else now
  }

  lemma {:induction false} AskKeepsInv(s: State, flat: bool, w: World, now: int)
    requires Inv(s, now) && InOrder(w, now)
    ensures Inv(After(s, flat, w), w.failed)
  {
    var t := After(s, flat, w);
    forall i, j | 0 <= i < j < |t.attempts|
      ensures t.attempts[i].at <= t.attempts[j].at
      ensures Unreached(t.attempts[i]) ==> t.attempts[i].at <= t.attempts[i].over <= t.attempts[j].at - RETRY_AFTER
    {
      assert t.attempts[i] == s.attempts[i];
      if j < |s.attempts| { assert t.attempts[j] == s.attempts[j]; }
    }
  }

  lemma {:induction false} ConversationKeepsInv(s: State, qs: seq<Question>, since: int) returns (now: int)
    requires Inv(s, since) && OneAtATime(qs, since)
    ensures Inv(AfterAll(s, qs), now)
    decreases |qs|
  {
    if qs == [] {
      now := since;
    } else {
      AskKeepsInv(s, qs[0].flat, qs[0].world, since);
      now := ConversationKeepsInv(After(s, qs[0].flat, qs[0].world), qs[1..], qs[0].world.failed);
    }
  }

  /** How many attempts failed to reach the runtime. */
  function Failures(attempts: seq<Attempt>): nat {
    if attempts == [] then 0
    else Failures(attempts[..|attempts| - 1]) + if Unreached(attempts[|attempts| - 1]) then 1 else 0
  }

  /** Failures take their time: `n` of them before an attempt put it at least `n` rests after the
      first attempt. */
  lemma {:induction false} FailuresSpan(attempts: seq<Attempt>)
    requires Spaced(attempts) && attempts != []
    ensures attempts[|attempts| - 1].at >= attempts[0].at + Failures(attempts[..|attempts| - 1]) * RETRY_AFTER
  {
    var n := |attempts| - 1;
    if n > 0 {
      var front := attempts[..n];
      FailuresSpan(front);
      var last := attempts[n - 1];
      assert front[..n - 1] == attempts[..n - 1];
      assert attempts[n].at >= last.at;
      assert Unreached(last) ==> attempts[n].at >= last.at + RETRY_AFTER;
    }
  }

  /** Between any two attempts there is a rest for every failure in between, the first included. */
  ghost predicate FailuresTakeTheirTime(attempts: seq<Attempt>) {
    forall i, j | 0 <= i <= j < |attempts| ::
      attempts[j].at >= attempts[i].at + Failures(attempts[i..j]) * RETRY_AFTER
  }

  lemma SpacedFailuresTakeTheirTime(attempts: seq<Attempt>)
    requires Spaced(attempts)
    ensures FailuresTakeTheirTime(attempts)
  {
    forall i, j | 0 <= i <= j < |attempts|
      ensures attempts[j].at >= attempts[i].at + Failures(attempts[i..j]) * RETRY_AFTER
    {
      var window := attempts[i..j + 1];
      FailuresSpan(window);
      assert window[..|window| - 1] == attempts[i..j];
    }
  }

  /** In every conversation, one question at a time: a connection attempt after a failure to reach
      the runtime comes at least `RETRY_AFTER` after that failure; in every window of attempts, `n`
      failures put its last attempt `n` rests after its first; and the log holds each attempt and its
      outcome, in order. */
  lemma {:induction false} FailuresAreSpaced(qs: seq<Question>, since: int)
    requires OneAtATime(qs, since)
    ensures var s := AfterAll(State(None, [], []), qs);
      Spaced(s.attempts) && FailuresTakeTheirTime(s.attempts) && RestIsEarned(s) && |s.log| == |s.attempts| &&
      forall i | 0 <= i < |s.attempts| :: s.log[i] == s.attempts[i].connected
    ensures RETRY_AFTER == 60 * 1_000_000_000
  {
    var now := ConversationKeepsInv(State(None, [], []), qs, since);
    SpacedFailuresTakeTheirTime(AfterAll(State(None, [], []), qs).attempts);
  }
}
