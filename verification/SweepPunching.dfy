/**
 perform_nat_punching of test: every attempt sends PUNCH_REQ to the peer's port, to the port last
 heard from, and to each port of the sweep, polling the socket five times after each of the latter.
 A received PUNCH_REQ is answered and moves the peer's port to its source.

 What happens on the socket is recorded in `log`; the properties are stated about that record.
 */
module SweepPunching {
  import opened Common
  import opened Handshake
  import opened PortSweep

  const POLL_INTERVAL := 10_000   // microseconds asked of usleep after every poll

  datatype Datagram = Datagram(what: Message, port: Port)

  /** One poll of the socket: what recvfrom returns and how much longer than asked it takes. */
  datatype Poll = Poll(recv: Option<Datagram>, slack: nat)

  /** The five polls that follow a swept port. */
  type Window = w: seq<Poll> | |w| == 5
    witness [Poll(None, 0), Poll(None, 0), Poll(None, 0), Poll(None, 0), Poll(None, 0)]

  datatype Event = Target(what: Message, port: Port) | Heard(what: Message, port: Port)

  // ---------------------------------------------------------------- reading the record

  /** Source port of the latest PUNCH_REQ, or the port the peer was first given. */
  function LatestRequester(log: seq<Event>, base: Port): Port {
    if log == [] then base
    else
      var e := log[|log| - 1];
      if e.Heard? && e.what.Req? then e.port else LatestRequester(log[..|log| - 1], base)
  }

  /** Source port of the latest datagram of any kind; 0 stands for none, as in the source. */
  function LatestHeard(log: seq<Event>): Port {
    if log == [] then 0
    else if log[|log| - 1].Heard? then log[|log| - 1].port
    else LatestHeard(log[..|log| - 1])
  }

  /** The ports PUNCH_REQ went to, in order. */
  function Requested(log: seq<Event>): seq<Port> {
    if log == [] then []
    else
      var e := log[|log| - 1];
      Requested(log[..|log| - 1]) + if e.Target? && e.what.Req? then [e.port] else []
  }

  /** The port may be swept: it is one the loop variable takes before the loop test fails. */
  ghost predicate InSweep(base: Port, port: Port) {
    exists k :: InBounds(base, k) && Swept(base, k) == port && port <= PortMax(base)
  }

  /** The loop test held for the first n values of the loop variable. */
  ghost predicate InBounds(base: Port, n: nat) {
    forall k :: 0 <= k < n ==> Swept(base, k) <= PortMax(base)
  }

  /** The last event leaves nothing to do: it is not a request to answer nor the acknowledgement that ends the run. */
  predicate Free(log: seq<Event>) {
    log == [] || log[|log| - 1].Target? || log[|log| - 1].what.Other?
  }

  /** Why an event could happen after the ones before it. */
  ghost predicate Justified(before: seq<Event>, e: Event, base: Port) {
    match e
    case Heard(_, _) => Free(before)
    case Target(Ack, p) => before != [] && before[|before| - 1] == Heard(Req, p)
    case Target(Req, p) =>
      && Free(before)
      && (|| p == LatestRequester(before, base)
          || (LatestHeard(before) != 0 && p == LatestHeard(before))
          || InSweep(base, p))
    case Target(Other, _) => false
  }

  ghost predicate JustifiedLog(log: seq<Event>, base: Port) {
    log == [] || (JustifiedLog(log[..|log| - 1], base) && Justified(log[..|log| - 1], log[|log| - 1], base))
  }

  lemma Extend(log: seq<Event>, e: Event, base: Port)
    ensures LatestRequester(log + [e], base) == if e.Heard? && e.what.Req? then e.port else LatestRequester(log, base)
    ensures LatestHeard(log + [e]) == if e.Heard? then e.port else LatestHeard(log)
    ensures Requested(log + [e]) == Requested(log) + if e.Target? && e.what.Req? then [e.port] else []
    ensures JustifiedLog(log + [e], base) <==> JustifiedLog(log, base) && Justified(log, e, base)
  {
    assert (log + [e])[..|log|] == log;
  }

  // ---------------------------------------------------------------- what the loops add to the record

  predicate IsAck(p: Poll) {
    p.recv.Some? && p.recv.value.what.Ack?
  }

  /** A datagram is recorded, and a PUNCH_REQ answered at once, to where it came from. */
  function Noted(p: Poll): seq<Event> {
    match p.recv
    case None => []
    case Some(Datagram(m, from)) => if m.Req? then [Heard(Req, from), Target(Ack, from)] else [Heard(m, from)]
  }

  /** The polls up to and including the first PUNCH_ACK. */
  function NotedAll(polls: seq<Poll>): seq<Event> {
    if polls == [] then []
    else Noted(polls[0]) + if IsAck(polls[0]) then [] else NotedAll(polls[1..])
  }

  predicate AckIn(polls: seq<Poll>) {
    polls != [] && (IsAck(polls[0]) || AckIn(polls[1..]))
  }

  /** What a sweep adds that got as far as these windows: a request to each port followed by its polls. */
  function SweepLog(base: Port, windows: seq<Window>): seq<Event> {
    if windows == [] then []
    else
      var k := |windows| - 1;
      SweepLog(base, windows[..k]) + [Target(Req, Swept(base, k))] + NotedAll(windows[k])
  }

  /** The requests that open an attempt. */
  function Opening(log: seq<Event>, base: Port): seq<Event> {
    [Target(Req, LatestRequester(log, base))] + if LatestHeard(log) != 0 then [Target(Req, LatestHeard(log))] else []
  }

  /** The record of a whole run, given the windows of each attempt. */
  function RunLog(base: Port, attempts: seq<seq<Window>>): seq<Event> {
    if attempts == [] then []
    else
      var before := RunLog(base, attempts[..|attempts| - 1]);
      before + Opening(before, base) + SweepLog(base, attempts[|attempts| - 1])
  }

  lemma NextPoll(log: seq<Event>, polls: seq<Poll>, i: nat)
    requires i < |polls|
    ensures AckIn(polls[i..]) == (IsAck(polls[i]) || AckIn(polls[i + 1..]))
    ensures log + NotedAll(polls[i..]) ==
      if IsAck(polls[i]) then log + Noted(polls[i]) else log + Noted(polls[i]) + NotedAll(polls[i + 1..])
    ensures PollsTime(polls[i..]) == POLL_INTERVAL + polls[i].slack + PollsTime(polls[i + 1..])
  {
    assert polls[i..][0] == polls[i] && polls[i..][1..] == polls[i + 1..];
    var first, more := Noted(polls[i]), NotedAll(polls[i + 1..]);
    if IsAck(polls[i]) {
      assert first + [] == first;
    } else {
      Assoc(log, first, more);
    }
  }

  lemma NextAttempt(base: Port, attempts: seq<seq<Window>>, windows: seq<Window>)
    ensures var log := RunLog(base, attempts);
      RunLog(base, attempts + [windows]) == log + Opening(log, base) + SweepLog(base, windows)
  {
    assert (attempts + [windows])[..|attempts|] == attempts;
  }

  /** Time these polls take if none of them is a PUNCH_ACK. */
  function PollsTime(polls: seq<Poll>): nat {
    if polls == [] then 0 else POLL_INTERVAL + polls[0].slack + PollsTime(polls[1..])
  }

  /** And the polls of all these windows. */
  function SweepTime(windows: seq<Window>): nat {
    if windows == [] then 0 else SweepTime(windows[..|windows| - 1]) + PollsTime(windows[|windows| - 1])
  }

  predicate NoAck(windows: seq<Window>) {
    forall k :: 0 <= k < |windows| ==> !AckIn(windows[k])
  }

  /** A sweep that ran its whole length without a PUNCH_ACK. */
  ghost predicate Whole(base: Port, windows: seq<Window>) {
    SweepEndsAt(base, |windows|) && NoAck(windows)
  }

  /** A sweep that got to its last window here: only there may a PUNCH_ACK have arrived. */
  ghost predicate Partial(base: Port, windows: seq<Window>) {
    InBounds(base, |windows|) && NoAck(windows[..if windows == [] then 0 else |windows| - 1])
  }

  /** The state of a sweep that tried these ports so far without getting a PUNCH_ACK. */
  ghost predicate Underway(base: Port, windows: seq<Window>) {
    InBounds(base, |windows|) && NoAck(windows)
  }

  lemma SweepLogGrows(log: seq<Event>, base: Port, tried: seq<Window>, w: Window)
    ensures log + SweepLog(base, tried + [w]) ==
      log + SweepLog(base, tried) + [Target(Req, Swept(base, |tried|))] + NotedAll(w)
    ensures SweepTime(tried + [w]) == SweepTime(tried) + PollsTime(w)
  {
    assert (tried + [w])[..|tried|] == tried;
  }

  lemma PrefixGrows(tried: seq<Window>, windows: seq<Window>)
    requires tried <= windows && |tried| < |windows|
    ensures tried + [windows[|tried|]] <= windows
  {
  }

  lemma StillUnderway(base: Port, tried: seq<Window>, w: Window)
    requires Underway(base, tried) && Swept(base, |tried|) <= PortMax(base) && !AckIn(w)
    ensures Underway(base, tried + [w]) && Swept(base, |tried + [w]|) == Next(Swept(base, |tried|))
  {
  }

  lemma NowAcknowledged(base: Port, tried: seq<Window>, w: Window)
    requires Underway(base, tried) && Swept(base, |tried|) <= PortMax(base) && AckIn(w)
    ensures Result(base, tried + [w], Acknowledged)
  {
    assert (tried + [w])[..|tried|] == tried;
  }

  lemma BoundPassed(base: Port, tried: seq<Window>)
    requires Underway(base, tried) && Swept(base, |tried|) > PortMax(base)
    ensures Result(base, tried, Completed)
  {
  }

  // ---------------------------------------------------------------- the peer

  /** How a sweep ends: at its bound, with a PUNCH_ACK, or because there is no more input to look at. */
  datatype SweepEnd = Completed | Acknowledged | OutOfInput

  /** What the tried windows look like when the sweep ends that way. */
  ghost predicate Result(base: Port, windows: seq<Window>, end: SweepEnd) {
    match end
    case Completed => Whole(base, windows)
    case Acknowledged => windows != [] && AckIn(windows[|windows| - 1]) && Partial(base, windows)
    case OutOfInput => Underway(base, windows)
  }

  /** How a run ends: returning 0 or -1, or still going when the input ends. */
  datatype Outcome = Returned(rc: int) | StillRunning

  /**
   The clock when the call starts and when it first looks at it again, and how much longer than
   asked its sleeps after each attempt take.
   */
  datatype Timing = Timing(start: nat, first: nat, pauses: nat -> nat)

  /** The clock at the head of the outer loop behind these attempts, none of which ended early. */
  function ClockAfter(t: Timing, attempts: seq<seq<Window>>): nat {
    if attempts == [] then t.first
    else
      var k := |attempts| - 1;
      ClockAfter(t, attempts[..k]) + SweepTime(attempts[k]) + PUNCH_INTERVAL + t.pauses(k + 1)
  }

  /** Every attempt begins while the timeout has not been reached. */
  ghost predicate InTime(t: Timing, attempts: seq<seq<Window>>) {
    forall m :: 0 <= m < |attempts| ==> !Expired(t.start, ClockAfter(t, attempts[..m]))
  }

  ghost predicate AllWhole(base: Port, attempts: seq<seq<Window>>) {
    forall m :: 0 <= m < |attempts| ==> Whole(base, attempts[m])
  }

  function ButLast(attempts: seq<seq<Window>>): seq<seq<Window>> {
    if attempts == [] then [] else attempts[..|attempts| - 1]
  }

  ghost function Flat(attempts: seq<seq<Window>>): seq<Window> {
    if attempts == [] then [] else Flat(attempts[..|attempts| - 1]) + attempts[|attempts| - 1]
  }

  /**
   The attempts of a run over this input. Each began before the timeout, and only the last may fall
   short of a whole sweep without PUNCH_ACK, in the way the outcome says; -1 comes with the timeout.
   */
  ghost predicate History(t: Timing, base: Port, windows: seq<Window>, attempts: seq<seq<Window>>, outcome: Outcome) {
    && Flat(attempts) <= windows
    && AllWhole(base, ButLast(attempts))
    && InTime(t, attempts)
    && match outcome
       case Returned(rc) =>
         if rc == 0 then attempts != [] && Result(base, attempts[|attempts| - 1], Acknowledged)
         else rc == -1 && AllWhole(base, attempts) && Expired(t.start, ClockAfter(t, attempts))
       case StillRunning =>
         attempts != [] && Flat(attempts) == windows && Result(base, attempts[|attempts| - 1], OutOfInput)
  }

  /** The same at the head of the outer loop, with `rest` still to come. */
  ghost predicate SoFar(t: Timing, base: Port, windows: seq<Window>, attempts: seq<seq<Window>>, rest: seq<Window>) {
    && Flat(attempts) + rest == windows
    && AllWhole(base, attempts)
    && InTime(t, attempts)
  }

  lemma ListGrows(base: Port, attempts: seq<seq<Window>>, tried: seq<Window>)
    ensures ButLast(attempts + [tried]) == attempts
    ensures AllWhole(base, attempts) && Whole(base, tried) ==> AllWhole(base, attempts + [tried])
  {
  }

  lemma ClockGrows(t: Timing, attempts: seq<seq<Window>>, tried: seq<Window>)
    ensures ClockAfter(t, attempts + [tried]) ==
      ClockAfter(t, attempts) + SweepTime(tried) + PUNCH_INTERVAL + t.pauses(|attempts| + 1)
    ensures InTime(t, attempts) && !Expired(t.start, ClockAfter(t, attempts)) ==> InTime(t, attempts + [tried])
  {
    assert forall m :: 0 <= m <= |attempts| ==> (attempts + [tried])[..m] == attempts[..m];
    assert attempts[..|attempts|] == attempts;
  }

  lemma InputConsumed(windows: seq<Window>, attempts: seq<seq<Window>>, rest: seq<Window>, tried: seq<Window>)
    requires Flat(attempts) + rest == windows && tried <= rest
    ensures Flat(attempts + [tried]) + rest[|tried|..] == windows
    ensures Flat(attempts + [tried]) <= windows && (tried == rest ==> Flat(attempts + [tried]) == windows)
  {
    assert (attempts + [tried])[..|attempts|] == attempts;
    assert rest == tried + rest[|tried|..];
  }

  function OutcomeOf(end: SweepEnd): Outcome
    requires !end.Completed?
  {
    if end.Acknowledged? then Returned(0) else StillRunning
  }

  lemma AttemptAdded(t: Timing, base: Port, windows: seq<Window>, attempts: seq<seq<Window>>, rest: seq<Window>,
                     tried: seq<Window>, end: SweepEnd)
    requires SoFar(t, base, windows, attempts, rest) && !Expired(t.start, ClockAfter(t, attempts))
    requires tried <= rest && Result(base, tried, end) && (end.OutOfInput? ==> tried == rest)
    ensures if end.Completed? then SoFar(t, base, windows, attempts + [tried], rest[|tried|..])
      else History(t, base, windows, attempts + [tried], OutcomeOf(end))
  {
    ListGrows(base, attempts, tried);
    ClockGrows(t, attempts, tried);
    InputConsumed(windows, attempts, rest, tried);
  }

  lemma NoneSucceeded(t: Timing, base: Port, windows: seq<Window>, attempts: seq<seq<Window>>, rest: seq<Window>)
    requires SoFar(t, base, windows, attempts, rest) && Expired(t.start, ClockAfter(t, attempts))
    ensures History(t, base, windows, attempts, Returned(-1))
  {
  }

  class SweepingPeer {
    const base: Port
    var peerPort: Port
    var lastWorkingPort: Port
    var punchCount: nat
    var now: nat
    var log: seq<Event>

    /** Port learning: both remembered ports are what the record says. */
    ghost predicate Valid()
      reads this
    {
      peerPort == LatestRequester(log, base) && lastWorkingPort == LatestHeard(log)
    }

    constructor (port: Port, first: nat)
      ensures Valid() && base == port && now == first && log == [] && punchCount == 0
    {
      base, peerPort, lastWorkingPort, punchCount, now, log := port, port, 0, 0, first, [];
    }

    method Send(what: Message, port: Port)
      requires Valid()
      modifies `log
      ensures Valid() && log == old(log) + [Target(what, port)]
    {
      Extend(log, Target(what, port), base);
      log := log + [Target(what, port)];
    }

    /** One turn of the innermost loop. */
    method PollOnce(p: Poll) returns (success: bool)
      requires Valid()
      modifies `peerPort, `lastWorkingPort, `now, `log
      ensures Valid() && log == old(log) + Noted(p)
      ensures success == IsAck(p) == (p.recv.Some? && p.recv.value.what == Ack)
      ensures p.recv.None? ==> log == old(log) && peerPort == old(peerPort) && lastWorkingPort == old(lastWorkingPort)
      ensures p.recv.Some? ==> lastWorkingPort == p.recv.value.port
      ensures p.recv.Some? && p.recv.value.what == Req ==>
        && peerPort == p.recv.value.port
        && log == old(log) + [Heard(Req, p.recv.value.port), Target(Ack, p.recv.value.port)]
      ensures p.recv.Some? && p.recv.value.what != Req ==>
        && peerPort == old(peerPort)
        && log == old(log) + [Heard(p.recv.value.what, p.recv.value.port)]
      ensures !success ==> now == old(now) + POLL_INTERVAL + p.slack
    {
      success := false;
      if p.recv.Some? {
        var what, from := p.recv.value.what, p.recv.value.port;
        Extend(log, Heard(what, from), base);
        lastWorkingPort, log := from, log + [Heard(what, from)];
        if what == Req {
          Extend(log, Target(Ack, from), base);
          peerPort, log := from, log + [Target(Ack, from)];
        } else if what == Ack {
          return true;
        }
      }
      now := now + POLL_INTERVAL + p.slack;
    }

    /** The innermost loop. */
    method PollAll(polls: seq<Poll>) returns (success: bool)
      requires Valid()
      modifies `peerPort, `lastWorkingPort, `now, `log
      ensures Valid() && log == old(log) + NotedAll(polls)
      ensures success == AckIn(polls)
      ensures !success ==> now == old(now) + PollsTime(polls)
    {
      for i := 0 to |polls|
        invariant Valid()
        invariant old(log) + NotedAll(polls) == log + NotedAll(polls[i..])
        invariant AckIn(polls[i..]) == AckIn(polls)
        invariant now + PollsTime(polls[i..]) == old(now) + PollsTime(polls)
      {
        NextPoll(log, polls, i);
        success := PollOnce(polls[i]);
        if success {
          return;
        }
      }
      return false;
    }

    /** One turn of the sweep: a request to the port and five polls, fewer if PUNCH_ACK arrives. */
    method TryPort(port: Port, w: Window) returns (success: bool)
      requires Valid()
      modifies `peerPort, `lastWorkingPort, `now, `log
      ensures Valid() && log == old(log) + [Target(Req, port)] + NotedAll(w)
      ensures success == AckIn(w)
      ensures !success ==> now == old(now) + PollsTime(w)
    {
      Send(Req, port);
      success := PollAll(w);
    }

    /** The sweep over the ports, a window of polls for each; `tried` are the windows it got through. */
    method Sweep(windows: seq<Window>) returns (end: SweepEnd, tried: seq<Window>)
      requires Valid()
      modifies `peerPort, `lastWorkingPort, `now, `log
      ensures Valid() && log == old(log) + SweepLog(base, tried)
      ensures tried <= windows && Result(base, tried, end)
      ensures end.OutOfInput? ==> tried == windows
      ensures end.Completed? ==> now == old(now) + SweepTime(tried)
    {
      var port, portMax := PortMin(base), PortMax(base);
      tried := [];
      while port <= portMax
        invariant Valid() && log == old(log) + SweepLog(base, tried)
        invariant tried <= windows && Underway(base, tried)
        invariant port == Swept(base, |tried|)
        invariant now == old(now) + SweepTime(tried)
        decreases |windows| - |tried|
      {
        if |tried| == |windows| {
          return OutOfInput, tried;
        }
        var w := windows[|tried|];
        SweepLogGrows(old(log), base, tried, w);
        PrefixGrows(tried, windows);
        var success := TryPort(port, w);
        if success {
          NowAcknowledged(base, tried, w);
          return Acknowledged, tried + [w];
        }
        StillUnderway(base, tried, w);
        tried := tried + [w];
        port := Next(port);
      }
      BoundPassed(base, tried);
      return Completed, tried;
    }

    /** The two requests that open an attempt. */
    method Open()
      requires Valid()
      modifies `log, `punchCount
      ensures Valid() && log == old(log) + Opening(old(log), base) && punchCount == old(punchCount) + 1
    {
      Send(Req, peerPort);
      punchCount := punchCount + 1;
      if lastWorkingPort != 0 {
        Send(Req, lastWorkingPort);
      }
    }

    /** One turn of the outer loop, up to its final sleep. */
    method Attempt(ghost attempts: seq<seq<Window>>, windows: seq<Window>) returns (end: SweepEnd, tried: seq<Window>)
      requires Valid() && log == RunLog(base, attempts)
      modifies this
      ensures Valid() && log == RunLog(base, attempts + [tried]) && punchCount == old(punchCount) + 1
      ensures tried <= windows && Result(base, tried, end)
      ensures end.OutOfInput? ==> tried == windows
      ensures end.Completed? ==> now == old(now) + SweepTime(tried)
    {
      Open();
      end, tried := Sweep(windows);
      NextAttempt(base, attempts, tried);
    }

    /** perform_nat_punching; `attempts` are the windows each attempt got through, in order. */
    method PerformNatPunching(t: Timing, windows: seq<Window>) returns (outcome: Outcome, attempts: seq<seq<Window>>)
      requires Valid() && t.start <= now == t.first && log == [] && punchCount == 0
      modifies this
      ensures Valid() && log == RunLog(base, attempts) && punchCount == |attempts|
      ensures History(t, base, windows, attempts, outcome)
      ensures outcome == Returned(-1) ==> now == ClockAfter(t, attempts)
    {
      attempts := [];
      var rest := windows;
      while !Expired(t.start, now)
        invariant Valid() && log == RunLog(base, attempts) && punchCount == |attempts|
        invariant SoFar(t, base, windows, attempts, rest)
        invariant now == ClockAfter(t, attempts)
        decreases |rest|, t.start + 60_000_000 - now
      {
        NotExpired(t.start, now);
        var end, tried := Attempt(attempts, rest);
        AttemptAdded(t, base, windows, attempts, rest, tried, end);
        ClockGrows(t, attempts, tried);
        attempts, rest := attempts + [tried], rest[|tried|..];
        if !end.Completed? {
          return OutcomeOf(end), attempts;
        }
        now := now + PUNCH_INTERVAL + t.pauses(punchCount);
      }
      NoneSucceeded(t, base, windows, attempts, rest);
      return Returned(-1), attempts;
    }
  }

  lemma NotExpired(start: nat, now: nat)
    ensures !Expired(start, now) ==> now < start + 60_000_000
  {
  }
}
