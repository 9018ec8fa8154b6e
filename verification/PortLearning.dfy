/**
 What holds of every run of the sweeping handshake: where its requests go, what it learns from the
 answers, how many attempts it makes, and for which ports it hangs.
 */
module PortLearning {
  import opened Common
  import opened Handshake
  import opened PortSweep
  import opened SweepPunching

  predicate EndsWithAck(log: seq<Event>) {
    log != [] && log[|log| - 1].Heard? && log[|log| - 1].what.Ack?
  }

  // ---------------------------------------------------------------- every event has its reason

  lemma HeardJustified(log: seq<Event>, what: Message, from: Port, base: Port)
    requires JustifiedLog(log, base) && Free(log)
    ensures JustifiedLog(log + [Heard(what, from)], base)
    ensures what.Ack? ==> EndsWithAck(log + [Heard(what, from)])
    ensures what.Other? ==> Free(log + [Heard(what, from)])
  {
    Extend(log, Heard(what, from), base);
  }

  lemma AnswerJustified(log: seq<Event>, from: Port, base: Port)
    requires JustifiedLog(log + [Heard(Req, from)], base)
    ensures var after := log + [Heard(Req, from), Target(Ack, from)];
      JustifiedLog(after, base) && Free(after)
  {
    Extend(log + [Heard(Req, from)], Target(Ack, from), base);
    assert log + [Heard(Req, from)] + [Target(Ack, from)] == log + [Heard(Req, from), Target(Ack, from)];
  }

  lemma DatagramJustified(log: seq<Event>, what: Message, from: Port, base: Port)
    requires JustifiedLog(log, base) && Free(log)
    ensures var after := log + if what.Req? then [Heard(Req, from), Target(Ack, from)] else [Heard(what, from)];
      JustifiedLog(after, base) && if what.Ack? then EndsWithAck(after) else Free(after)
  {
    HeardJustified(log, what, from, base);
    if what.Req? {
      AnswerJustified(log, from, base);
    }
  }

  lemma NotedJustified(log: seq<Event>, p: Poll, base: Port)
    requires JustifiedLog(log, base) && Free(log)
    ensures JustifiedLog(log + Noted(p), base)
    ensures if IsAck(p) then EndsWithAck(log + Noted(p)) else Free(log + Noted(p))
  {
    if p.recv.None? {
      assert log + [] == log;
    } else {
      DatagramJustified(log, p.recv.value.what, p.recv.value.port, base);
    }
  }

  lemma FirstPoll(log: seq<Event>, polls: seq<Poll>)
    requires polls != []
    ensures log + NotedAll(polls) ==
      if IsAck(polls[0]) then log + Noted(polls[0]) else log + Noted(polls[0]) + NotedAll(polls[1..])
    ensures AckIn(polls) == (IsAck(polls[0]) || AckIn(polls[1..]))
  {
    var first := Noted(polls[0]);
    if IsAck(polls[0]) {
      assert first + [] == first;
    } else {
      Assoc(log, first, NotedAll(polls[1..]));
    }
  }

  lemma LastPort(log: seq<Event>, base: Port, windows: seq<Window>)
    requires windows != []
    ensures var k := |windows| - 1;
      log + SweepLog(base, windows) ==
        log + SweepLog(base, windows[..k]) + [Target(Req, Swept(base, k))] + NotedAll(windows[k])
  {
    var k := |windows| - 1;
    var earlier, target := SweepLog(base, windows[..k]), [Target(Req, Swept(base, k))];
    Assoc(log, earlier + target, NotedAll(windows[k]));
    Assoc(log, earlier, target);
  }

  lemma {:induction false} PollsJustified(log: seq<Event>, polls: seq<Poll>, base: Port)
    requires JustifiedLog(log, base) && Free(log)
    ensures JustifiedLog(log + NotedAll(polls), base)
    ensures if AckIn(polls) then EndsWithAck(log + NotedAll(polls)) else Free(log + NotedAll(polls))
    decreases polls
  {
    if polls == [] {
      assert log + [] == log;
    } else {
      FirstPoll(log, polls);
      NotedJustified(log, polls[0], base);
      if !IsAck(polls[0]) {
        PollsJustified(log + Noted(polls[0]), polls[1..], base);
      }
    }
  }

  lemma EarlierPorts(base: Port, windows: seq<Window>)
    requires Partial(base, windows) && windows != []
    ensures var k := |windows| - 1;
      Partial(base, windows[..k]) && NoAck(windows[..k]) && InBounds(base, k) && Swept(base, k) <= PortMax(base)
    ensures NoAck(windows) ==> !AckIn(windows[|windows| - 1])
  {
  }

  lemma {:induction false} SweepJustified(log: seq<Event>, base: Port, windows: seq<Window>)
    requires JustifiedLog(log, base) && Free(log) && Partial(base, windows)
    ensures JustifiedLog(log + SweepLog(base, windows), base)
    ensures NoAck(windows) ==> Free(log + SweepLog(base, windows))
    ensures windows != [] && AckIn(windows[|windows| - 1]) ==> EndsWithAck(log + SweepLog(base, windows))
    decreases windows
  {
    if windows == [] {
      assert log + [] == log;
    } else {
      var k := |windows| - 1;
      var earlier, last := windows[..k], windows[k];
      EarlierPorts(base, windows);
      SweepJustified(log, base, earlier);
      PortJustified(log + SweepLog(base, earlier), base, k, last);
      LastPort(log, base, windows);
    }
  }

  lemma PortJustified(log: seq<Event>, base: Port, k: nat, w: Window)
    requires JustifiedLog(log, base) && Free(log)
    requires InBounds(base, k) && Swept(base, k) <= PortMax(base)
    ensures var after := log + [Target(Req, Swept(base, k))] + NotedAll(w);
      && JustifiedLog(after, base)
      && if AckIn(w) then EndsWithAck(after) else Free(after)
  {
    Extend(log, Target(Req, Swept(base, k)), base);
    PollsJustified(log + [Target(Req, Swept(base, k))], w, base);
  }

  lemma OpeningJustified(log: seq<Event>, base: Port)
    requires JustifiedLog(log, base) && Free(log)
    ensures JustifiedLog(log + Opening(log, base), base) && Free(log + Opening(log, base))
  {
    var first := Target(Req, LatestRequester(log, base));
    Extend(log, first, base);
    if LatestHeard(log) != 0 {
      Extend(log + [first], Target(Req, LatestHeard(log)), base);
      assert log + [first] + [Target(Req, LatestHeard(log))] == log + Opening(log, base);
    }
  }

  lemma EarlierAttempts(base: Port, attempts: seq<seq<Window>>)
    requires AllWhole(base, attempts)
    ensures AllWhole(base, ButLast(attempts))
    ensures attempts != [] ==> var last := attempts[|attempts| - 1]; Partial(base, last) && NoAck(last)
  {
    if attempts != [] {
      assert Whole(base, attempts[|attempts| - 1]);
    }
  }

  lemma AttemptJustified(log: seq<Event>, base: Port, windows: seq<Window>)
    requires JustifiedLog(log, base) && Free(log) && Partial(base, windows)
    ensures var after := log + Opening(log, base) + SweepLog(base, windows);
      && JustifiedLog(after, base)
      && (NoAck(windows) ==> Free(after))
      && (windows != [] && AckIn(windows[|windows| - 1]) ==> EndsWithAck(after))
  {
    OpeningJustified(log, base);
    SweepJustified(log + Opening(log, base), base, windows);
  }

  lemma LastAttempt(base: Port, attempts: seq<seq<Window>>)
    requires attempts != []
    ensures var log := RunLog(base, ButLast(attempts));
      RunLog(base, attempts) == log + Opening(log, base) + SweepLog(base, attempts[|attempts| - 1])
  {
  }

  lemma {:induction false} RunJustified(base: Port, attempts: seq<seq<Window>>)
    requires AllWhole(base, ButLast(attempts))
    requires attempts != [] ==> Partial(base, attempts[|attempts| - 1])
    ensures JustifiedLog(RunLog(base, attempts), base)
    ensures attempts == [] || NoAck(attempts[|attempts| - 1]) ==> Free(RunLog(base, attempts))
    ensures attempts != [] && Result(base, attempts[|attempts| - 1], Acknowledged) ==>
      EndsWithAck(RunLog(base, attempts))
    decreases attempts
  {
    if attempts == [] {
    } else {
      var earlier := ButLast(attempts);
      EarlierAttempts(base, earlier);
      RunJustified(base, earlier);
      AttemptJustified(RunLog(base, earlier), base, attempts[|attempts| - 1]);
      LastAttempt(base, attempts);
    }
  }

  lemma LastHeard(log: seq<Event>)
    requires EndsWithAck(log)
    ensures log[|log| - 1] == Heard(Ack, LatestHeard(log))
  {
  }

  /** How a run ends shows in its last attempt. */
  lemma LastAttemptOf(t: Timing, base: Port, windows: seq<Window>, attempts: seq<seq<Window>>, outcome: Outcome)
    requires History(t, base, windows, attempts, outcome)
    ensures AllWhole(base, ButLast(attempts))
    ensures attempts != [] ==> Partial(base, attempts[|attempts| - 1])
    ensures outcome == Returned(0) ==> attempts != [] && Result(base, attempts[|attempts| - 1], Acknowledged)
    ensures outcome != Returned(0) ==> attempts == [] || NoAck(attempts[|attempts| - 1])
  {
    if outcome == Returned(-1) {
      EarlierAttempts(base, attempts);
    }
  }

  /**
   Port learning. In every run each request goes to the port last learned from a request (at first
   the given one), to the port last heard from, or to a swept port; each request received is answered
   at once and each answer goes to where the request came from; and the run that returns 0 ends with
   a PUNCH_ACK whose source port is the one remembered as last working.
   */
  lemma PortsAreLearned(t: Timing, base: Port, windows: seq<Window>, attempts: seq<seq<Window>>, outcome: Outcome)
    requires History(t, base, windows, attempts, outcome)
    ensures var log := RunLog(base, attempts);
      && JustifiedLog(log, base)
      && (outcome == Returned(0) ==> log != [] && log[|log| - 1] == Heard(Ack, LatestHeard(log)))
      && (outcome != Returned(0) ==> Free(log))
  {
    LastAttemptOf(t, base, windows, attempts, outcome);
    RunJustified(base, attempts);
    if outcome == Returned(0) {
      LastHeard(RunLog(base, attempts));
    }
  }

  // ---------------------------------------------------------------- the targets, in order

  function SweptPorts(base: Port, n: nat): seq<Port> {
    seq(n, k requires 0 <= k => Swept(base, k))
  }

  lemma NotedRequestsNothing(log: seq<Event>, p: Poll, base: Port)
    ensures Requested(log + Noted(p)) == Requested(log)
  {
    if p.recv.Some? {
      var what, from := p.recv.value.what, p.recv.value.port;
      Extend(log, Heard(what, from), base);
      Extend(log + [Heard(what, from)], Target(Ack, from), base);
      assert what.Req? ==> log + [Heard(Req, from)] + [Target(Ack, from)] == log + Noted(p);
    } else {
      assert log + [] == log;
    }
  }

  lemma {:induction false} PollsRequestNothing(log: seq<Event>, polls: seq<Poll>, base: Port)
    ensures Requested(log + NotedAll(polls)) == Requested(log)
    decreases polls
  {
    if polls == [] {
      assert log + [] == log;
    } else {
      FirstPoll(log, polls);
      NotedRequestsNothing(log, polls[0], base);
      if !IsAck(polls[0]) {
        PollsRequestNothing(log + Noted(polls[0]), polls[1..], base);
      }
    }
  }

  lemma PortTargets(log: seq<Event>, base: Port, port: Port, w: Window)
    ensures Requested(log + [Target(Req, port)] + NotedAll(w)) == Requested(log) + [port]
  {
    Extend(log, Target(Req, port), base);
    PollsRequestNothing(log + [Target(Req, port)], w, base);
  }

  lemma NextSwept(ports: seq<Port>, base: Port, n: nat)
    ensures ports + SweptPorts(base, n + 1) == ports + SweptPorts(base, n) + [Swept(base, n)]
  {
  }

  lemma {:induction false} SweepTargets(log: seq<Event>, base: Port, windows: seq<Window>)
    ensures Requested(log + SweepLog(base, windows)) == Requested(log) + SweptPorts(base, |windows|)
    decreases windows
  {
    if windows == [] {
      assert log + [] == log;
    } else {
      var k := |windows| - 1;
      SweepTargets(log, base, windows[..k]);
      PortTargets(log + SweepLog(base, windows[..k]), base, Swept(base, k), windows[k]);
      LastPort(log, base, windows);
      NextSwept(Requested(log), base, k);
    }
  }

  /**
   The requests of each attempt, in order: one to the learned port, one to the port last heard from
   if there is one, then one to each swept port as far as the sweep got.
   */
  lemma AttemptTargets(base: Port, attempts: seq<seq<Window>>, windows: seq<Window>)
    ensures var log := RunLog(base, attempts);
      Requested(RunLog(base, attempts + [windows])) ==
        Requested(log) + [LatestRequester(log, base)]
        + (if LatestHeard(log) != 0 then [LatestHeard(log)] else [])
        + SweptPorts(base, |windows|)
  {
    var log := RunLog(base, attempts);
    var first := Target(Req, LatestRequester(log, base));
    NextAttempt(base, attempts, windows);
    SweepTargets(log + Opening(log, base), base, windows);
    Extend(log, first, base);
    if LatestHeard(log) != 0 {
      Extend(log + [first], Target(Req, LatestHeard(log)), base);
      assert log + [first] + [Target(Req, LatestHeard(log))] == log + Opening(log, base);
    }
  }

  // ---------------------------------------------------------------- hanging and returning

  lemma NothingWhole(base: Port, attempts: seq<seq<Window>>)
    requires (base == 64534 || base == 64535) && AllWhole(base, attempts)
    ensures attempts == []
  {
    if attempts != [] {
      assert SweepEndsAt(base, |attempts[0]|);
      SweepEndsExactly(base);
    }
  }

  /**
   From port 64534 or 64535 the first sweep never ends: without a PUNCH_ACK the call does not
   return, however long it runs.
   */
  lemma HangsOnTopPorts(t: Timing, base: Port, windows: seq<Window>, attempts: seq<seq<Window>>, outcome: Outcome)
    requires base == 64534 || base == 64535
    requires History(t, base, windows, attempts, outcome) && attempts != []
    ensures |attempts| == 1
    ensures outcome != Returned(0) ==> outcome == StillRunning && attempts == [windows]
  {
    NothingWhole(base, ButLast(attempts));
    if outcome == Returned(-1) {
      NothingWhole(base, attempts);
    }
    assert Flat(attempts) == Flat(attempts[..0]) + attempts[0] == attempts[0];
  }

  /** Least time these attempts take if none of them ends early, with no sleep shorter than asked for. */
  function AttemptsTime(attempts: seq<seq<Window>>): nat {
    if attempts == [] then 0
    else AttemptsTime(attempts[..|attempts| - 1]) + 50_000 * |attempts[|attempts| - 1]| + 500_000
  }

  lemma WindowTime(w: Window)
    ensures PollsTime(w) >= 50_000
  {
    assert w[1..][1..] == w[2..] && w[2..][1..] == w[3..] && w[3..][1..] == w[4..];
    assert PollsTime(w[4..]) >= 10_000;
    assert PollsTime(w[3..]) >= 20_000;
    assert PollsTime(w[2..]) >= 30_000;
    assert PollsTime(w[1..]) >= 40_000;
  }

  lemma {:induction false} LeastSweepTime(windows: seq<Window>)
    ensures SweepTime(windows) >= 50_000 * |windows|
    decreases windows
  {
    if windows == [] {
    } else {
      LeastSweepTime(windows[..|windows| - 1]);
      WindowTime(windows[|windows| - 1]);
    }
  }

  lemma {:induction false} LeastTime(t: Timing, attempts: seq<seq<Window>>)
    ensures ClockAfter(t, attempts) >= t.first + AttemptsTime(attempts)
    decreases attempts
  {
    if attempts == [] {
    } else {
      LeastTime(t, attempts[..|attempts| - 1]);
      LeastSweepTime(attempts[|attempts| - 1]);
    }
  }

  /** All attempts but the last of a run took less than a minute. */
  lemma WithinMinute(t: Timing, attempts: seq<seq<Window>>)
    requires t.start <= t.first && InTime(t, attempts) && attempts != []
    ensures AttemptsTime(ButLast(attempts)) < 60_000_000
  {
    var k := |attempts| - 1;
    assert !Expired(t.start, ClockAfter(t, attempts[..k]));
    NotExpired(t.start, ClockAfter(t, attempts[..k]));
    LeastTime(t, attempts[..k]);
  }

  lemma {:induction false} WholeAttemptsTime(base: Port, attempts: seq<seq<Window>>)
    requires base != 64534 && base != 64535 && AllWhole(base, attempts)
    ensures AttemptsTime(attempts) >= 500_000 * |attempts|
    ensures Straight(base) ==> AttemptsTime(attempts) == 10_550_000 * |attempts|
    ensures 64526 <= base <= 64533 && attempts != [] ==> AttemptsTime(attempts) > 60_000_000
    decreases attempts
  {
    if attempts == [] {
    } else {
      var k := |attempts| - 1;
      WholeAttemptsTime(base, attempts[..k]);
      WholeIsLength(base, attempts[k]);
      KnownLengths(base);
    }
  }

  lemma WholeIsLength(base: Port, windows: seq<Window>)
    requires base != 64534 && base != 64535 && Whole(base, windows)
    ensures |windows| == SweepLength(base)
  {
    SweepLengthExact(base);
    EndIsUnique(base, |windows|, SweepLength(base));
  }

  lemma KnownLengths(base: Port)
    ensures Straight(base) ==> SweepLength(base) == 201
    ensures 64526 <= base <= 64533 ==> SweepLength(base) >= 6754
  {
  }

  /**
   With sleeps at least as long as asked for: at most 120 attempts from any base whose sweep ends,
   at most 6 where the sweep does not wrap, and one where it wraps past its bound.
   */
  lemma AttemptBound(t: Timing, base: Port, windows: seq<Window>, attempts: seq<seq<Window>>, outcome: Outcome)
    requires t.start <= t.first && History(t, base, windows, attempts, outcome)
    ensures |attempts| <= 120
    ensures Straight(base) ==> |attempts| <= 6
    ensures base >= 64526 && base <= 64535 ==> |attempts| <= 1
  {
    if base == 64534 || base == 64535 {
      NothingWhole(base, ButLast(attempts));
    } else if attempts != [] {
      WithinMinute(t, attempts);
      WholeAttemptsTime(base, ButLast(attempts));
    }
  }

  lemma {:induction false} WholeAttemptsInput(base: Port, attempts: seq<seq<Window>>, n: nat)
    requires base != 64534 && base != 64535 && AllWhole(base, attempts) && |attempts| <= n
    ensures |Flat(attempts)| <= n * SweepLength(base)
    decreases attempts
  {
    if attempts == [] {
      assert 0 <= n * SweepLength(base);
    } else {
      var k := |attempts| - 1;
      WholeAttemptsInput(base, attempts[..k], n - 1);
      WholeIsLength(base, attempts[k]);
      assert n * SweepLength(base) == (n - 1) * SweepLength(base) + SweepLength(base);
    }
  }

  lemma NoLongerThanSweep(base: Port, n: nat)
    requires base != 64534 && base != 64535 && InBounds(base, n)
    ensures n <= SweepLength(base)
  {
    SweepLengthExact(base);
  }

  lemma InputBound(base: Port, attempts: seq<seq<Window>>)
    requires base != 64534 && base != 64535 && 0 < |attempts| <= 120
    requires AllWhole(base, ButLast(attempts)) && InBounds(base, |attempts[|attempts| - 1]|)
    ensures |Flat(attempts)| <= 120 * SweepLength(base)
  {
    WholeAttemptsInput(base, ButLast(attempts), 119);
    NoLongerThanSweep(base, |attempts[|attempts| - 1]|);
  }

  /** From every other port the call returns: it is never still running after 120 sweeps' worth of windows. */
  lemma ReturnsElsewhere(t: Timing, base: Port, windows: seq<Window>, attempts: seq<seq<Window>>, outcome: Outcome)
    requires base != 64534 && base != 64535 && t.start <= t.first
    requires History(t, base, windows, attempts, outcome) && |windows| > 120 * SweepLength(base)
    ensures outcome.Returned?
  {
    AttemptBound(t, base, windows, attempts, outcome);
    if outcome.StillRunning? {
      InputBound(base, attempts);
    }
  }
}
