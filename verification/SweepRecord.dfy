/**
 The record of a sweeping run against what its polls were given: every datagram polled is recorded,
 in order and with its source, every request answered, and the remembered ports are what was last
 heard. Also what the clock makes of runs that hear nothing and of sleeps that take too long.
 */
module SweepRecord {
  import opened Common
  import opened Handshake
  import opened PortSweep
  import opened SweepPunching
  import opened PortLearning

  // ---------------------------------------------------------------- what the polls were given

  /** The datagrams these polls return, up to and with the first PUNCH_ACK. */
  function PolledIn(polls: seq<Poll>): seq<Datagram> {
    if polls == [] then []
    else
      match polls[0].recv
      case None => PolledIn(polls[1..])
      case Some(d) => [d] + if d.what == Ack then [] else PolledIn(polls[1..])
  }

  function PolledInSweep(windows: seq<Window>): seq<Datagram> {
    if windows == [] then []
    else PolledInSweep(windows[..|windows| - 1]) + PolledIn(windows[|windows| - 1])
  }

  function PolledInRun(attempts: seq<seq<Window>>): seq<Datagram> {
    if attempts == [] then []
    else PolledInRun(attempts[..|attempts| - 1]) + PolledInSweep(attempts[|attempts| - 1])
  }

  /** The datagrams a record says were received. */
  function HeardIn(log: seq<Event>): seq<Datagram> {
    if log == [] then []
    else
      var e := log[|log| - 1];
      HeardIn(log[..|log| - 1]) + if e.Heard? then [Datagram(e.what, e.port)] else []
  }

  lemma HeardGrows(log: seq<Event>, e: Event)
    ensures HeardIn(log + [e]) == HeardIn(log) + if e.Heard? then [Datagram(e.what, e.port)] else []
  {
    assert (log + [e])[..|log|] == log;
  }

  lemma RequestHeard(log: seq<Event>, port: Port)
    ensures HeardIn(log + [Heard(Req, port), Target(Ack, port)]) == HeardIn(log) + [Datagram(Req, port)]
  {
    HeardGrows(log, Heard(Req, port));
    HeardGrows(log + [Heard(Req, port)], Target(Ack, port));
    assert log + [Heard(Req, port)] + [Target(Ack, port)] == log + [Heard(Req, port), Target(Ack, port)];
  }

  lemma NotedHeard(log: seq<Event>, p: Poll)
    ensures HeardIn(log + Noted(p)) == HeardIn(log) + if p.recv.Some? then [p.recv.value] else []
  {
    if p.recv.None? {
      assert log + [] == log;
    } else if p.recv.value.what == Req {
      RequestHeard(log, p.recv.value.port);
    } else {
      HeardGrows(log, Heard(p.recv.value.what, p.recv.value.port));
    }
  }

  lemma FirstPolled(heard: seq<Datagram>, polls: seq<Poll>)
    requires polls != []
    ensures var now := if polls[0].recv.Some? then [polls[0].recv.value] else [];
      heard + PolledIn(polls) == if IsAck(polls[0]) then heard + now else heard + now + PolledIn(polls[1..])
  {
    var now := if polls[0].recv.Some? then [polls[0].recv.value] else [];
    if IsAck(polls[0]) {
      assert now + [] == now;
    } else {
      Assoc(heard, now, PolledIn(polls[1..]));
      assert [] + PolledIn(polls[1..]) == PolledIn(polls[1..]);
    }
  }

  lemma {:induction false} PollsHeard(log: seq<Event>, polls: seq<Poll>)
    ensures HeardIn(log + NotedAll(polls)) == HeardIn(log) + PolledIn(polls)
    decreases polls
  {
    if polls == [] {
      assert log + [] == log;
    } else {
      FirstPoll(log, polls);
      FirstPolled(HeardIn(log), polls);
      NotedHeard(log, polls[0]);
      if !IsAck(polls[0]) {
        PollsHeard(log + Noted(polls[0]), polls[1..]);
      }
    }
  }

  lemma PortHeard(log: seq<Event>, port: Port, w: Window)
    ensures HeardIn(log + [Target(Req, port)] + NotedAll(w)) == HeardIn(log) + PolledIn(w)
  {
    HeardGrows(log, Target(Req, port));
    PollsHeard(log + [Target(Req, port)], w);
  }

  lemma {:induction false} SweepHeard(log: seq<Event>, base: Port, windows: seq<Window>)
    ensures HeardIn(log + SweepLog(base, windows)) == HeardIn(log) + PolledInSweep(windows)
    decreases windows
  {
    if windows == [] {
      assert log + [] == log;
    } else {
      var k := |windows| - 1;
      SweepHeard(log, base, windows[..k]);
      PortHeard(log + SweepLog(base, windows[..k]), Swept(base, k), windows[k]);
      LastPort(log, base, windows);
      Assoc(HeardIn(log), PolledInSweep(windows[..k]), PolledIn(windows[k]));
    }
  }

  lemma OpeningHeard(log: seq<Event>, base: Port)
    ensures HeardIn(log + Opening(log, base)) == HeardIn(log)
  {
    var first, second := Target(Req, LatestRequester(log, base)), Target(Req, LatestHeard(log));
    HeardGrows(log, first);
    if LatestHeard(log) != 0 {
      HeardGrows(log + [first], second);
      assert log + [first] + [second] == log + Opening(log, base);
    } else {
      assert Opening(log, base) == [first];
    }
  }

  /** Every datagram polled is recorded once, in order, with its source; nothing else is. */
  lemma {:induction false} HeardExactly(base: Port, attempts: seq<seq<Window>>)
    ensures HeardIn(RunLog(base, attempts)) == PolledInRun(attempts)
    decreases attempts
  {
    if attempts == [] {
    } else {
      var before := RunLog(base, ButLast(attempts));
      HeardExactly(base, ButLast(attempts));
      OpeningHeard(before, base);
      SweepHeard(before + Opening(before, base), base, attempts[|attempts| - 1]);
      LastAttempt(base, attempts);
    }
  }

  // ---------------------------------------------------------------- every request is answered

  lemma {:induction false} AnsweredNext(log: seq<Event>, base: Port, k: nat, port: Port)
    requires JustifiedLog(log, base) && k + 1 < |log| && log[k] == Heard(Req, port)
    ensures log[k + 1] == Target(Ack, port)
    decreases log
  {
    var n := |log| - 1;
    if k + 1 == n {
      assert log[..n][|log[..n]| - 1] == log[k];
    } else {
      AnsweredNext(log[..n], base, k, port);
    }
  }

  /** In every run each PUNCH_REQ received is answered right away, to the port it came from. */
  lemma RequestsAnswered(t: Timing, base: Port, windows: seq<Window>, attempts: seq<seq<Window>>, outcome: Outcome,
                         log: seq<Event>, k: nat, port: Port)
    requires History(t, base, windows, attempts, outcome) && log == RunLog(base, attempts)
    requires k < |log| && log[k] == Heard(Req, port)
    ensures k + 1 < |log| && log[k + 1] == Target(Ack, port)
  {
    PortsAreLearned(t, base, windows, attempts, outcome);
    NotLast(log, k, port);
    AnsweredNext(log, base, k, port);
  }

  lemma NotLast(log: seq<Event>, k: nat, port: Port)
    requires k < |log| && log[k] == Heard(Req, port)
    requires Free(log) || log[|log| - 1] == Heard(Ack, LatestHeard(log))
    ensures k + 1 < |log|
  {
  }

  // ---------------------------------------------------------------- what the remembered ports mean

  ghost predicate NoRequestAfter(log: seq<Event>, k: nat) {
    forall j, q :: k < j < |log| ==> log[j] != Heard(Req, q)
  }

  ghost predicate NothingAfter(log: seq<Event>, k: nat) {
    forall j :: k < j < |log| ==> !log[j].Heard?
  }

  /** The learned port is the source of the last PUNCH_REQ in the record, or the given port if there is none. */
  lemma {:induction false} LatestRequesterExactly(log: seq<Event>, base: Port)
    ensures var p := LatestRequester(log, base);
      || (p == base && forall j, q :: 0 <= j < |log| ==> log[j] != Heard(Req, q))
      || (exists k :: 0 <= k < |log| && log[k] == Heard(Req, p) && NoRequestAfter(log, k))
  {
    if log == [] {
    } else {
      var n := |log| - 1;
      LatestRequesterExactly(log[..n], base);
      assert forall j :: 0 <= j < n ==> log[..n][j] == log[j];
      var p := LatestRequester(log[..n], base);
      if log[n].Heard? && log[n].what.Req? {
        assert NoRequestAfter(log, n);
      } else if exists k :: 0 <= k < n && log[..n][k] == Heard(Req, p) && NoRequestAfter(log[..n], k) {
        var k :| 0 <= k < n && log[..n][k] == Heard(Req, p) && NoRequestAfter(log[..n], k);
        assert log[k] == Heard(Req, p) && NoRequestAfter(log, k);
      }
    }
  }

  /** The last working port is the source of the last datagram in the record; 0 if there is none. */
  lemma {:induction false} LatestHeardExactly(log: seq<Event>)
    ensures var p := LatestHeard(log);
      || (p == 0 && forall j :: 0 <= j < |log| ==> !log[j].Heard?)
      || (exists k :: 0 <= k < |log| && log[k].Heard? && log[k].port == p && NothingAfter(log, k))
  {
    if log == [] {
    } else {
      var n := |log| - 1;
      LatestHeardExactly(log[..n]);
      assert forall j :: 0 <= j < n ==> log[..n][j] == log[j];
      var p := LatestHeard(log[..n]);
      if log[n].Heard? {
        assert NothingAfter(log, n);
      } else if exists k :: 0 <= k < n && log[..n][k].Heard? && log[..n][k].port == p && NothingAfter(log[..n], k) {
        var k :| 0 <= k < n && log[..n][k].Heard? && log[..n][k].port == p && NothingAfter(log[..n], k);
        assert log[k].Heard? && NothingAfter(log, k);
      }
    }
  }

  // ---------------------------------------------------------------- the clock

  ghost predicate OnTheDot(polls: seq<Poll>) {
    forall i :: 0 <= i < |polls| ==> polls[i].slack == 0
  }

  lemma ExactWindow(w: Window)
    requires OnTheDot(w)
    ensures PollsTime(w) == 50_000
  {
    assert w[1..][1..] == w[2..] && w[2..][1..] == w[3..] && w[3..][1..] == w[4..] && w[4..][1..] == [];
    assert PollsTime(w[4..]) == 10_000;
    assert PollsTime(w[3..]) == 20_000;
    assert PollsTime(w[2..]) == 30_000;
    assert PollsTime(w[1..]) == 40_000;
  }

  lemma {:induction false} ExactSweep(windows: seq<Window>)
    requires forall k :: 0 <= k < |windows| ==> OnTheDot(windows[k])
    ensures SweepTime(windows) == 50_000 * |windows|
    decreases windows
  {
    if windows == [] {
    } else {
      ExactSweep(windows[..|windows| - 1]);
      ExactWindow(windows[|windows| - 1]);
    }
  }

  /** Every sleep takes just as long as asked for. */
  ghost predicate Exact(t: Timing, attempts: seq<seq<Window>>) {
    && (forall n :: t.pauses(n) == 0)
    && (forall m, k :: 0 <= m < |attempts| && 0 <= k < |attempts[m]| ==> OnTheDot(attempts[m][k]))
  }

  lemma {:induction false} ExactClock(t: Timing, attempts: seq<seq<Window>>)
    requires Exact(t, attempts)
    ensures ClockAfter(t, attempts) == t.first + AttemptsTime(attempts)
    decreases attempts
  {
    if attempts == [] {
    } else {
      var k := |attempts| - 1;
      ExactClock(t, attempts[..k]);
      ExactSweep(attempts[k]);
      assert t.pauses(k + 1) == 0;
    }
  }

  lemma SixSweeps(start: nat, n: nat)
    ensures Expired(start, start + 10_550_000 * n) <==> n >= 6
  {
  }

  /** A call from a straight base that gets no PUNCH_ACK, with sleeps as long as asked, makes exactly six attempts. */
  lemma SilentSweeps(t: Timing, base: Port, windows: seq<Window>, attempts: seq<seq<Window>>)
    requires History(t, base, windows, attempts, Returned(-1)) && Exact(t, attempts)
    requires t.start == t.first && Straight(base)
    ensures |attempts| == 6
  {
    var n := |attempts|;
    WholeAttemptsTime(base, attempts);
    ExactClock(t, attempts);
    SixSweeps(t.start, n);
    var earlier := attempts[..n - 1];
    assert !Expired(t.start, ClockAfter(t, earlier));
    WholeAttemptsTime(base, earlier);
    ExactClock(t, earlier);
    SixSweeps(t.start, n - 1);
  }

  lemma {:induction false} PollOverruns(polls: seq<Poll>, i: nat)
    requires i < |polls|
    ensures PollsTime(polls) >= polls[i].slack
    decreases polls
  {
    if i == 0 {
    } else {
      PollOverruns(polls[1..], i - 1);
    }
  }

  lemma {:induction false} SweepOverruns(windows: seq<Window>, k: nat, i: nat)
    requires k < |windows| && i < 5
    ensures SweepTime(windows) >= windows[k][i].slack
    decreases windows
  {
    var n := |windows| - 1;
    if k == n {
      PollOverruns(windows[k], i);
    } else {
      SweepOverruns(windows[..n], k, i);
    }
  }

  /** After an attempt in which any one sleep took a minute too long no other attempt begins. */
  lemma NoAttemptAfterOverrun(t: Timing, attempts: seq<seq<Window>>, m: nat, k: nat, i: nat)
    requires t.start <= t.first && InTime(t, attempts) && m + 1 < |attempts|
    ensures t.pauses(m + 1) < 60_000_000
    ensures k < |attempts[m]| && i < 5 ==> attempts[m][k][i].slack < 60_000_000
  {
    var done := attempts[..m + 1];
    assert !Expired(t.start, ClockAfter(t, done));
    NotExpired(t.start, ClockAfter(t, done));
    assert done[..m] == attempts[..m] && done[m] == attempts[m];
    LeastTime(t, attempts[..m]);
    if k < |attempts[m]| && i < 5 {
      SweepOverruns(attempts[m], k, i);
    }
  }
}
