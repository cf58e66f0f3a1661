/** Millisecond arithmetic in 32 bits: the probe reply limiter (firmware/main/glue.c) and the wait for the controller
    (firmware/main/bridge.zig). Times are unbounded; the code sees them modulo 2^32. */
module Timing {
  import opened Bytes

  const WRAP := 0x1_0000_0000
  const HALF := 0x8000_0000

  /** The counter at a time. */
  function Millis(t: nat): (r: nat)
    ensures r < WRAP
  {
    t % WRAP
  }

  /** Subtraction that wraps around. */
  function Minus(a: nat, b: nat): (r: nat)
    requires a < WRAP && b < WRAP
    ensures r < WRAP
  {
    if a >= b then a - b else a + WRAP - b
  }

  function Plus(a: nat, b: nat): (r: nat)
    requires a < WRAP && b < WRAP
    ensures r < WRAP
  {
    if a + b < WRAP then a + b else a + b - WRAP
  }

  /** The difference of two readings is the time between them, modulo 2^32. */
  lemma MinusIsElapsed(t: nat, u: nat)
    requires u <= t
    ensures Minus(Millis(t), Millis(u)) == (t - u) % WRAP
  {
    var q, r := t / WRAP, u / WRAP;
    assert t == q * WRAP + Millis(t) && u == r * WRAP + Millis(u);
    ModuloIs(t - u, if Millis(t) >= Millis(u) then q - r else q - r - 1, Minus(Millis(t), Millis(u)));
  }

  lemma ModuloIs(x: int, k: int, r: nat)
    requires r < WRAP && x == k * WRAP + r
    ensures x % WRAP == r
  {
  }

  lemma ModuloAtMost(x: nat)
    ensures x % WRAP <= x
    ensures x < WRAP ==> x % WRAP == x
  {
  }

  // ------------------------------------------------------------------
  // Probe replies
  // ------------------------------------------------------------------

  const REPLIES := 5
  const WINDOW_MS := 1000

  datatype Window = Window(start: nat, replies: nat)

  /** The window after a probe at a counter reading, before the reply is counted. */
  function Roll(w: Window, now: nat): Window
    requires w.start < WRAP && now < WRAP
  {
    if Minus(now, w.start) >= WINDOW_MS then Window(now, 0) else w
  }

  predicate Answers(w: Window, now: nat)
    requires w.start < WRAP && now < WRAP
  {
    Roll(w, now).replies < REPLIES
  }

  function AfterProbe(w: Window, now: nat): (r: Window)
    requires w.start < WRAP && now < WRAP
    ensures r.start < WRAP
  {
    var v := Roll(w, now);
    if v.replies < REPLIES then v.(replies := v.replies + 1) else v
  }

  /** The limiter of the discovery task. */
  class ReplyLimiter {
    var replyWindow: nat
    var replies: nat

    predicate Valid()
      reads this
    {
      replyWindow < WRAP && replies <= REPLIES
    }

    function View(): Window
      reads this
    {
      Window(replyWindow, replies)
    }

    constructor ()
      ensures Valid() && View() == Window(0, 0)
    {
      replyWindow, replies := 0, 0;
    }

    method OnProbe(now: nat) returns (reply: bool)
      requires Valid() && now < WRAP
      modifies this
      ensures Valid() && View() == AfterProbe(old(View()), now) && reply == Answers(old(View()), now)
    {
      if Minus(now, replyWindow) >= WINDOW_MS {
        replyWindow := now;
        replies := 0;
      }
      reply := false;
      if replies < REPLIES {
        replies := replies + 1;
        reply := true;
      }
    }

    /** A run of probes, each at its own time. */
    method AnswerAll(times: seq<nat>) returns (answers: seq<bool>)
      requires Valid()
      modifies this
      ensures Valid() && answers == Replies(old(View()), times)
    {
      hide Answers, AfterProbe, Millis;
      answers := [];
      var i := 0;
      while i < |times|
        invariant Valid() && 0 <= i <= |times|
        invariant Replies(old(View()), times) == answers + Replies(View(), times[i..])
      {
        var reply := OnProbe(Millis(times[i]));
        answers := answers + [reply];
        assert times[i..][1..] == times[i + 1..];
        i := i + 1;
      }
    }
  }

  /** Which probes of a run are answered. */
  function Replies(w: Window, times: seq<nat>): (r: seq<bool>)
    requires w.start < WRAP
    ensures |r| == |times|
    decreases |times|
  {
    if times == [] then []
    else [Answers(w, Millis(times[0]))] + Replies(AfterProbe(w, Millis(times[0])), times[1..])
  }

  predicate Ordered(from: nat, times: seq<nat>) {
    && (forall i :: 0 <= i < |times| ==> from <= times[i])
    && (forall i, j :: 0 <= i < j < |times| ==> times[i] <= times[j])
  }

  /** The answered probes with a time in the second that starts at `from`. */
  function InSpan(times: seq<nat>, answers: seq<bool>, from: nat): nat
    requires |times| == |answers|
  {
    if times == [] then 0
    else (if answers[0] && from <= times[0] < from + 1000 then 1 else 0) + InSpan(times[1..], answers[1..], from)
  }

  /** Replies in a span, one probe at a time. */
  lemma InSpanFirst(w: Window, times: seq<nat>, from: nat)
    requires w.start < WRAP && times != []
    ensures InSpan(times, Replies(w, times), from) ==
            (if Answers(w, Millis(times[0])) && from <= times[0] < from + 1000 then 1 else 0)
            + InSpan(times[1..], Replies(AfterProbe(w, Millis(times[0])), times[1..]), from)
  {
    hide Answers, AfterProbe;
    var rest := Replies(AfterProbe(w, Millis(times[0])), times[1..]);
    assert Replies(w, times)[1..] == rest;
  }

  /** The window counter belongs to the real time `since`, and never counts past the limit. */
  predicate Opened(w: Window, since: nat) {
    w.start == Millis(since) && w.replies <= REPLIES
  }

  /** A window is replaced only when a second has really gone by. */
  lemma RollIsLate(w: Window, since: nat, t: nat)
    requires Opened(w, since) && since <= t
    ensures Roll(w, Millis(t)) == w || (Roll(w, Millis(t)) == Window(Millis(t), 0) && since + WINDOW_MS <= t)
  {
    MinusIsElapsed(t, since);
    ModuloAtMost(t - since);
  }

  lemma {:induction false} LateWindow(w: Window, since: nat, times: seq<nat>, from: nat)
    requires Opened(w, since) && from <= since && Ordered(since, times)
    ensures InSpan(times, Replies(w, times), from) <= REPLIES - w.replies
    decreases |times|
  {
    if times != [] {
      var t := times[0];
      InSpanFirst(w, times, from);
      RollIsLate(w, since, t);
      var next := AfterProbe(w, Millis(t));
      if Roll(w, Millis(t)) == w {
        LateWindow(next, since, times[1..], from);
      } else {
        PastSpan(next, times[1..], from);
      }
    }
  }

  lemma {:induction false} PastSpan(w: Window, times: seq<nat>, from: nat)
    requires w.start < WRAP && Ordered(from + 1000, times)
    ensures InSpan(times, Replies(w, times), from) == 0
    decreases |times|
  {
    hide Answers, AfterProbe;
    if times != [] {
      InSpanFirst(w, times, from);
      PastSpan(AfterProbe(w, Millis(times[0])), times[1..], from);
    }
  }

  lemma {:induction false} EarlyWindow(w: Window, since: nat, times: seq<nat>, from: nat)
    requires Opened(w, since) && since <= from && Ordered(from, times)
    ensures InSpan(times, Replies(w, times), from) <= 2 * REPLIES - w.replies
    decreases |times|
  {
    if times != [] {
      var t := times[0];
      InSpanFirst(w, times, from);
      RollIsLate(w, since, t);
      var next := AfterProbe(w, Millis(t));
      if Roll(w, Millis(t)) == w {
        EarlyWindow(next, since, times[1..], from);
      } else {
        LateWindow(next, t, times[1..], from);
      }
    }
  }

  lemma {:induction false} AnyWindow(w: Window, since: nat, times: seq<nat>, from: nat)
    requires Opened(w, since) && Ordered(since, times)
    ensures InSpan(times, Replies(w, times), from) <= 2 * REPLIES
    decreases |times|
  {
    if from <= since {
      LateWindow(w, since, times, from);
    } else if times != [] && times[0] < from {
      var t := times[0];
      InSpanFirst(w, times, from);
      RollIsLate(w, since, t);
      var next := AfterProbe(w, Millis(t));
      AnyWindow(next, if Roll(w, Millis(t)) == w then since else t, times[1..], from);
    } else {
      EarlyWindow(w, since, times, from);
    }
  }

  /** In any run from boot, at most ten probes are answered in any 1000 ms, however often the counter has wrapped. */
  lemma TenRepliesPerSecond(times: seq<nat>, from: nat)
    requires Ordered(0, times)
    ensures InSpan(times, Replies(Window(0, 0), times), from) <= 10
  {
    AnyWindow(Window(0, 0), 0, times, from);
  }

  /** Probes that all come at one time. */
  function Burst(t: nat, n: nat): seq<nat> {
    if n == 0 then [] else [t] + Burst(t, n - 1)
  }

  lemma {:induction false} BurstAnswered(w: Window, t: nat, n: nat, rest: seq<nat>, from: nat)
    requires w.start < WRAP && Minus(Millis(t), w.start) < WINDOW_MS && w.replies + n <= REPLIES
    requires from <= t < from + 1000
    ensures var times := Burst(t, n) + rest;
      InSpan(times, Replies(w, times), from) == n + InSpan(rest, Replies(Window(w.start, w.replies + n), rest), from)
    decreases n
  {
    hide Replies, InSpan;
    var times := Burst(t, n) + rest;
    if n == 0 {
      assert times == rest;
    } else {
      assert times[0] == t && times[1..] == Burst(t, n - 1) + rest;
      InSpanFirst(w, times, from);
      BurstAnswered(w.(replies := w.replies + 1), t, n - 1, rest, from);
    }
  }

  lemma {:induction false} BurstOf(t: nat, n: nat)
    ensures |Burst(t, n)| == n && forall i :: 0 <= i < n ==> Burst(t, n)[i] == t
  {
    if n > 0 {
      BurstOf(t, n - 1);
    }
  }

  /** Ten is reached: five at the end of one window and five at the start of the next. */
  lemma TenIsReached()
    ensures exists times, from :: Ordered(0, times) && InSpan(times, Replies(Window(0, 0), times), from) == 10
  {
    hide Replies, InSpan;
    var second := Burst(1000, 5) + [];
    var times := Burst(999, 5) + second;
    BurstAnswered(Window(0, 0), 999, 5, second, 999);
    var rest := Burst(1000, 4) + [];
    assert second[0] == 1000 && second[1..] == rest;
    InSpanFirst(Window(0, 5), second, 999);
    BurstAnswered(Window(1000, 1), 1000, 4, [], 999);
    assert InSpan([], Replies(Window(1000, 5), []), 999) == 0 by { NothingInSpan(Window(1000, 5), 999); }
    BurstOf(999, 5);
    BurstOf(1000, 5);
    assert Ordered(0, times);
  }

  lemma NothingInSpan(w: Window, from: nat)
    requires w.start < WRAP
    ensures InSpan([], Replies(w, []), from) == 0
  {
  }

  // ------------------------------------------------------------------
  // Replies resume
  // ------------------------------------------------------------------

  /** The window after a run of probes. */
  function AfterAll(w: Window, times: seq<nat>): (r: Window)
    requires w.start < WRAP
    ensures r.start < WRAP
    decreases |times|
  {
    if times == [] then w else AfterAll(AfterProbe(w, Millis(times[0])), times[1..])
  }

  /** Probes less than 2^32 - 1000 ms apart, counted from a first time. */
  predicate Steady(prev: nat, times: seq<nat>)
    decreases |times|
  {
    times == [] || (prev <= times[0] < prev + 4294966296 && Steady(times[0], times[1..]))
  }

  function LastOf(prev: nat, times: seq<nat>): nat {
    if times == [] then prev else times[|times| - 1]
  }

  lemma {:induction false} WindowIsRecent(w: Window, since: nat, prev: nat, times: seq<nat>) returns (late: nat)
    requires Opened(w, since) && since <= prev < since + 1000 && Steady(prev, times)
    ensures Opened(AfterAll(w, times), late) && late <= LastOf(prev, times) < late + 1000
    decreases |times|
  {
    if times == [] {
      late := since;
    } else {
      var t := times[0];
      MinusIsElapsed(t, since);
      ModuloAtMost(t - since);
      late := WindowIsRecent(AfterProbe(w, Millis(t)), if t - since >= 1000 then t else since, t, times[1..]);
    }
  }

  /** After a second without probes the next one is answered, in any run of probes that are less than 2^32 - 1000 ms apart,
      and so are the four after it at the same time. */
  lemma AnsweredAfterSilence(times: seq<nat>, t: nat, n: nat)
    requires Steady(0, times + [t]) && LastOf(0, times) + 1000 <= t && n < 5
    ensures
      var w := AfterAll(Window(0, 0), times);
      Answers(AfterAll(w, Burst(t, n)), Millis(t))
  {
    SteadyParts(0, times, t);
    var since := WindowIsRecent(Window(0, 0), 0, 0, times);
    var w := AfterAll(Window(0, 0), times);
    MinusIsElapsed(t, since);
    ModuloAtMost(t - since);
    if n > 0 {
      assert AfterProbe(w, Millis(t)) == Window(Millis(t), 1);
      assert Burst(t, n)[1..] == Burst(t, n - 1);
      BurstCounts(Window(Millis(t), 1), t, n - 1);
    }
  }

  lemma {:induction false} SteadyParts(prev: nat, times: seq<nat>, t: nat)
    requires Steady(prev, times + [t])
    ensures Steady(prev, times) && LastOf(prev, times) <= t < LastOf(prev, times) + 4294966296
    decreases |times|
  {
    if times == [] {
      assert (times + [t])[0] == t;
    } else {
      TailOfConcat(times, [t]);
      SteadyParts(times[0], times[1..], t);
    }
  }

  lemma {:induction false} BurstCounts(w: Window, t: nat, n: nat)
    requires w.start == Millis(t) && w.replies + n <= 5
    ensures AfterAll(w, Burst(t, n)) == Window(w.start, w.replies + n)
    decreases n
  {
    if n > 0 {
      assert Burst(t, n)[1..] == Burst(t, n - 1);
      BurstCounts(w.(replies := w.replies + 1), t, n - 1);
    }
  }

  /** The sixth in a window is not. */
  lemma SixthIsNotAnswered(w: Window, t: nat)
    requires w.start < WRAP && Minus(Millis(t), w.start) >= 1000
    ensures !Answers(AfterAll(w, Burst(t, 5)), Millis(t))
  {
    assert Burst(t, 5)[1..] == Burst(t, 4);
    assert AfterProbe(w, Millis(t)) == Window(Millis(t), 1);
    BurstCounts(Window(Millis(t), 1), t, 4);
  }

  // ------------------------------------------------------------------
  // Waiting for the controller
  // ------------------------------------------------------------------

  const SEND_WAIT_MS := 5000

  /** One turn of the wait: was the controller ready before it, and when was the clock read after it. */
  datatype Turn = Turn(ready: bool, now: nat)

  datatype Outcome = Sent(turns: nat) | Dropped(turns: nat) | Waiting

  function Deadline(start: nat): (r: nat)
    ensures r < WRAP
  {
    Plus(Millis(start), SEND_WAIT_MS)
  }

  predicate Expired(deadline: nat, now: nat)
    requires deadline < WRAP && now < WRAP
  {
    Minus(now, deadline) < HALF
  }

  lemma DeadlineIsLater(start: nat)
    ensures Deadline(start) == Millis(start + SEND_WAIT_MS)
  {
    var q := start / WRAP;
    assert start == q * WRAP + Millis(start);
    ModuloIs(start + SEND_WAIT_MS, if Millis(start) + SEND_WAIT_MS < WRAP then q else q + 1, Deadline(start));
  }

  /** The wrapped comparison is right from the start of the wait until half a turn of the counter after its end. */
  lemma ExpiredIff(start: nat, now: nat)
    requires start <= now < start + 5000 + 0x8000_0000
    ensures Expired(Deadline(start), Millis(now)) <==> start + 5000 <= now
  {
    var end := start + SEND_WAIT_MS;
    DeadlineIsLater(start);
    if end <= now {
      MinusIsElapsed(now, end);
      ModuloAtMost(now - end);
    } else {
      MinusIsElapsed(end, now);
      ModuloAtMost(end - now);
    }
  }

  predicate Clocked(start: nat, turns: seq<Turn>) {
    && (forall i :: 0 <= i < |turns| ==> start <= turns[i].now)
    && (forall i, j :: 0 <= i < j < |turns| ==> turns[i].now <= turns[j].now)
  }

  /** The clock reading before a turn. */
  function Before(start: nat, turns: seq<Turn>, i: nat): nat
    requires i < |turns|
  {
    if i == 0 then start else turns[i - 1].now
  }

  /** Clock readings less than half a turn of the counter apart. */
  predicate Frequent(start: nat, turns: seq<Turn>) {
    forall i :: 0 <= i < |turns| ==> turns[i].now < Before(start, turns, i) + HALF
  }

  predicate NotReady(turns: seq<Turn>, n: nat) {
    n <= |turns| && forall i :: 0 <= i < n ==> !turns[i].ready
  }

  predicate InTime(start: nat, turns: seq<Turn>, n: nat) {
    n <= |turns| && forall i :: 0 <= i < n ==> turns[i].now < start + 5000
  }

  /** sendToController over the turns of one wait: it drops a packet only after five seconds of waiting, and with
      frequent readings at the first reading after that. */
  method SendToController(start: nat, turns: seq<Turn>) returns (r: Outcome)
    requires Clocked(start, turns)
    ensures r.Sent? ==> r.turns < |turns| && NotReady(turns, r.turns) && turns[r.turns].ready
    ensures r.Dropped? ==> r.turns < |turns| && NotReady(turns, r.turns + 1) && start + 5000 <= turns[r.turns].now
    ensures r.Waiting? ==> NotReady(turns, |turns|)
    ensures Frequent(start, turns) ==> InTime(start, turns, if r.Waiting? then |turns| else r.turns)
  {
    hide Frequent, Deadline, Expired, Millis;
    var deadline := Deadline(start);
    var i := 0;
    while i < |turns|
      invariant NotReady(turns, i)
      invariant Frequent(start, turns) ==> InTime(start, turns, i)
    {
      if turns[i].ready {
        return Sent(i);
      }
      NeverEarly(start, turns[i].now);
      if Frequent(start, turns) {
        NextTurnSeen(start, turns, i);
      }
      if Expired(deadline, Millis(turns[i].now)) {
        return Dropped(i);
      }
      i := i + 1;
    }
    return Waiting;
  }

  lemma NextTurnSeen(start: nat, turns: seq<Turn>, i: nat)
    requires Clocked(start, turns) && Frequent(start, turns) && InTime(start, turns, i) && i < |turns|
    ensures Expired(Deadline(start), Millis(turns[i].now)) <==> start + SEND_WAIT_MS <= turns[i].now
  {
    hide Expired, Deadline;
    assert Before(start, turns, i) < start + SEND_WAIT_MS;
    ExpiredIff(start, turns[i].now);
  }

  lemma NeverEarly(start: nat, now: nat)
    requires start <= now
    ensures Expired(Deadline(start), Millis(now)) ==> start + SEND_WAIT_MS <= now
  {
    if now < start + SEND_WAIT_MS {
      ExpiredIff(start, now);
    }
  }
}
