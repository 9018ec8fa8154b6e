/**
 create_hole_punch of stun/client_common.h, run by both of its clients: up to five times send
 "hole_punch" and wait for one datagram; on "ack" answer "ack" and return 0. Nobody ever sends the
 first "ack".
 */
module HolePunch {
  import opened Common

  const MAX_ATTEMPTS := 5

  /** A received text as strcmp sees it. */
  datatype Word = Punch | Ack | Other

  /** A datagram with the address of its other end. */
  datatype Datagram = Datagram(word: Word, addr: int)

  // ---------------------------------------------------------------- one call

  /**
   What the environment does in one turn of the loop: whether sendto works, and what recvfrom yields
   before its timeout.
   */
  datatype Turn = Turn(sendOk: bool, recv: Option<Datagram>)

  datatype Outcome = Trying | Returned(rc: int)

  datatype Call = Call(outcome: Outcome, attempt: nat, remote: int, sent: seq<Datagram>)

  function Begin(c: Call, ok: bool): Call {
    if ok then c.(sent := c.sent + [Datagram(Punch, c.remote)]) else c.(outcome := Returned(-1))
  }

  function End(c: Call, recv: Option<Datagram>): Call {
    match recv
    case Some(Datagram(Ack, from)) => c.(outcome := Returned(0), remote := from, sent := c.sent + [Datagram(Ack, from)])
    case Some(Datagram(_, from)) => Counted(c.(remote := from))
    case None => Counted(c)
  }

  function Counted(c: Call): Call {
    c.(attempt := c.attempt + 1, outcome := if c.attempt + 1 < MAX_ATTEMPTS then Trying else Returned(-1))
  }

  /** The call after the first n turns. */
  ghost function Turns(remote: int, env: nat -> Turn, n: nat): Call {
    if n == 0 then Call(Trying, 0, remote, [])
    else
      var c := Turns(remote, env, n - 1);
      if !c.outcome.Trying? then c
      else if env(n - 1).sendOk then End(Begin(c, true), env(n - 1).recv)
      else Begin(c, false)
  }

  /** hole_punch_info; receiving overwrites the remote address. */
  class HolePunchInfo {
    var remoteAddr: int

    constructor (remote: int)
      ensures remoteAddr == remote
    {
      remoteAddr := remote;
    }

    /** The loop does what the turns say, and it is over after at most five of them; `sent` is what left the socket. */
    method CreateHolePunch(env: nat -> Turn) returns (rc: int, attempt: nat, sent: seq<Datagram>)
      modifies this
      ensures Call(Returned(rc), attempt, remoteAddr, sent) == Turns(old(remoteAddr), env, MAX_ATTEMPTS)
    {
      attempt, sent := 0, [];
      while attempt < MAX_ATTEMPTS
        invariant attempt <= MAX_ATTEMPTS
        invariant Turns(old(remoteAddr), env, attempt) ==
          Call(if attempt < MAX_ATTEMPTS then Trying else Returned(-1), attempt, remoteAddr, sent)
      {
        var turn := env(attempt);
        if !turn.sendOk {
          rc := -1;
          Settled(old(remoteAddr), env, attempt + 1, MAX_ATTEMPTS);
          return;
        }
        sent := sent + [Datagram(Punch, remoteAddr)];
        if turn.recv.Some? {
          remoteAddr := turn.recv.value.addr;
          if turn.recv.value.word == Ack {
            sent := sent + [Datagram(Ack, remoteAddr)];
            rc := 0;
            Settled(old(remoteAddr), env, attempt + 1, MAX_ATTEMPTS);
            return;
          }
        }
        attempt := attempt + 1;
      }
      rc := -1;
    }
  }

  lemma {:induction false} Settled(remote: int, env: nat -> Turn, m: nat, n: nat)
    requires m <= n && !Turns(remote, env, m).outcome.Trying?
    ensures Turns(remote, env, n) == Turns(remote, env, m)
  {
    if m == n {
    } else {
      Settled(remote, env, m, n - 1);
    }
  }

  predicate IsAck(t: Turn) {
    t.recv.Some? && t.recv.value.word.Ack?
  }

  /** Turn i gets the first "ack", with every send up to then having worked. */
  ghost predicate AckAt(env: nat -> Turn, i: nat) {
    && IsAck(env(i))
    && (forall j :: 0 <= j <= i ==> env(j).sendOk)
  }

  /** The call returns 0 exactly when one of the first five turns gets an "ack" before any send fails. */
  lemma {:induction false} ReturnsZeroExactly(remote: int, env: nat -> Turn, n: nat)
    requires n <= MAX_ATTEMPTS
    ensures var c := Turns(remote, env, n);
      && (c.outcome == Returned(0) <==> exists i :: 0 <= i < n && AckAt(env, i))
      && (c.outcome.Trying? ==>
        c.attempt == n < MAX_ATTEMPTS && forall i :: 0 <= i < n ==> env(i).sendOk && !IsAck(env(i)))
      && (c.outcome.Returned? ==> c.outcome.rc == 0 || c.outcome.rc == -1)
      && (c.outcome == Returned(-1) ==> n == MAX_ATTEMPTS || exists i :: 0 <= i < n && !env(i).sendOk)
  {
    if n == 0 {
    } else {
      ReturnsZeroExactly(remote, env, n - 1);
      if Turns(remote, env, n - 1).outcome.Trying? && env(n - 1).sendOk && IsAck(env(n - 1)) {
        assert AckAt(env, n - 1);
      }
    }
  }

  // ---------------------------------------------------------------- where its datagrams go

  /** The source of the latest datagram received in the first n turns, or the address the call was given. */
  ghost function LatestSource(remote: int, env: nat -> Turn, n: nat): int {
    if n == 0 then remote
    else if env(n - 1).recv.Some? then env(n - 1).recv.value.addr
    else LatestSource(remote, env, n - 1)
  }

  /** Turn i is reached: no send has failed and no "ack" come before it. */
  ghost predicate Reached(env: nat -> Turn, i: nat) {
    forall j :: 0 <= j < i ==> env(j).sendOk && (env(j).recv.Some? ==> env(j).recv.value.word != Ack)
  }

  /** What has left the socket: one "hole_punch" a turn, each to where the latest datagram came from. */
  ghost predicate Punched(remote: int, env: nat -> Turn, sent: seq<Datagram>, n: nat) {
    n <= |sent| && forall i :: 0 <= i < n ==> sent[i] == Datagram(Punch, LatestSource(remote, env, i))
  }

  lemma {:induction false} GoingOn(remote: int, env: nat -> Turn, n: nat)
    requires n <= 5 && Reached(env, n)
    ensures var c := Turns(remote, env, n);
      && c.outcome == (if n < 5 then Trying else Returned(-1)) && c.attempt == n
      && c.remote == LatestSource(remote, env, n)
      && Punched(remote, env, c.sent, n) && |c.sent| == n
  {
    if n == 0 {
    } else {
      GoingOn(remote, env, n - 1);
      assert Reached(env, n - 1);
    }
  }

  /** The turn that gets an "ack" answers it to where it came from, and that address stays. */
  lemma Acknowledging(remote: int, env: nat -> Turn, n: nat, from: int)
    requires n < 5 && Reached(env, n) && env(n).sendOk && env(n).recv == Some(Datagram(Ack, from))
    ensures var c := Turns(remote, env, 5);
      && c.outcome == Returned(0) && c.attempt == n && c.remote == from
      && Punched(remote, env, c.sent, n + 1) && c.sent[n + 1..] == [Datagram(Ack, from)]
  {
    GoingOn(remote, env, n);
    Settled(remote, env, n + 1, 5);
  }

  /** A send that fails ends the call on the spot. */
  lemma FailingToSend(remote: int, env: nat -> Turn, n: nat)
    requires n < 5 && Reached(env, n) && !env(n).sendOk
    ensures var c := Turns(remote, env, 5);
      && c.outcome == Returned(-1) && c.attempt == n && c.remote == LatestSource(remote, env, n)
      && Punched(remote, env, c.sent, n) && |c.sent| == n
  {
    GoingOn(remote, env, n);
    Settled(remote, env, n + 1, 5);
  }

  // ---------------------------------------------------------------- two calls against each other

  /** `waiting`: sent its "hole_punch" of this turn and sits in recvfrom. */
  datatype Pair = Pair(a: Call, b: Call, aWaiting: bool, bWaiting: bool)
  {
    function At(x: Side): Call {
      if x.A? then a else b
    }

    predicate Waiting(x: Side) {
      if x.A? then aWaiting else bWaiting
    }

    function Put(x: Side, c: Call, waiting: bool): Pair {
      if x.A? then this.(a := c, aWaiting := waiting) else this.(b := c, bWaiting := waiting)
    }
  }

  /**
   Deliver(x, k, from) hands x the k-th datagram the other side ever sent, under any source address,
   so datagrams may be lost, duplicated, reordered and delayed at will, but nobody else sends to the
   two clients.
   */
  datatype Action = Send(who: Side, ok: bool) | Deliver(who: Side, k: nat, from: int) | Timeout(who: Side)

  predicate Enabled(s: Pair, act: Action) {
    match act
    case Send(x, _) => s.At(x).outcome.Trying? && !s.Waiting(x)
    case Deliver(x, k, _) => s.Waiting(x) && k < |s.At(Opp(x)).sent|
    case Timeout(x) => s.Waiting(x)
  }

  function Step(s: Pair, act: Action): Pair
    requires Enabled(s, act)
  {
    match act
    case Send(x, ok) => s.Put(x, Begin(s.At(x), ok), ok)
    case Deliver(x, k, from) => s.Put(x, End(s.At(x), Some(Datagram(s.At(Opp(x)).sent[k].word, from))), false)
    case Timeout(x) => s.Put(x, End(s.At(x), None), false)
  }

  ghost predicate Run(s: Pair, acts: seq<Action>, t: Pair)
    decreases acts
  {
    if acts == [] then s == t
    else Enabled(s, acts[0]) && Run(Step(s, acts[0]), acts[1..], t)
  }

  function Start(aRemote: int, bRemote: int): Pair {
    Pair(Call(Trying, 0, aRemote, []), Call(Trying, 0, bRemote, []), false, false)
  }

  predicate IsAckDatagram(d: Datagram) {
    d.word.Ack?
  }

  /**
   No "ack" was ever sent; sends count attempts; a call that is over failed, after five attempts
   unless a send failed.
   */
  ghost predicate Hopeless(c: Call, waiting: bool, sendFailed: bool) {
    && (forall i :: 0 <= i < |c.sent| ==> !IsAckDatagram(c.sent[i]))
    && |c.sent| == c.attempt + (if waiting then 1 else 0) <= MAX_ATTEMPTS
    && (waiting ==> c.outcome.Trying?)
    && (c.outcome.Trying? ==> c.attempt < MAX_ATTEMPTS)
    && (c.outcome.Returned? ==> c.outcome.rc == -1 && (sendFailed || c.attempt == MAX_ATTEMPTS))
  }

  lemma StepKeepsHopeless(s: Pair, act: Action, x: Side, sendFailed: bool)
    requires Enabled(s, act)
    requires Hopeless(s.At(x), s.Waiting(x), sendFailed)
    requires forall i :: 0 <= i < |s.At(Opp(x)).sent| ==> !IsAckDatagram(s.At(Opp(x)).sent[i])
    ensures Hopeless(Step(s, act).At(x), Step(s, act).Waiting(x), sendFailed || act == Send(x, false))
  {
    match act
    case Send(_, _) =>
    case Deliver(y, k, _) => assert !IsAckDatagram(s.At(Opp(y)).sent[k]) || y != x;
    case Timeout(_) =>
  }

  lemma {:induction false} RunKeepsHopeless(s: Pair, acts: seq<Action>, t: Pair, aFailed: bool, bFailed: bool)
    requires Run(s, acts, t)
    requires Hopeless(s.a, s.aWaiting, aFailed) && Hopeless(s.b, s.bWaiting, bFailed)
    ensures Hopeless(t.a, t.aWaiting, aFailed || Send(A, false) in acts)
    ensures Hopeless(t.b, t.bWaiting, bFailed || Send(B, false) in acts)
    decreases acts
  {
    if acts == [] {
    } else {
      var aNow, bNow := aFailed || acts[0] == Send(A, false), bFailed || acts[0] == Send(B, false);
      StepKeepsHopeless(s, acts[0], A, aFailed);
      StepKeepsHopeless(s, acts[0], B, bFailed);
      RunKeepsHopeless(Step(s, acts[0]), acts[1..], t, aNow, bNow);
      assert acts == [acts[0]] + acts[1..];
    }
  }

  /**
   Two clients running create_hole_punch against each other never complete: whatever the schedule
   and the network do, no "ack" is ever sent, no call returns 0, and a call whose sends all worked
   returns -1 after exactly five attempts.
   */
  lemma PairNeverCompletes(aRemote: int, bRemote: int, acts: seq<Action>, t: Pair, x: Side)
    requires Run(Start(aRemote, bRemote), acts, t)
    ensures forall d :: d in t.At(x).sent ==> d.word == Punch || d.word == Other
    ensures t.At(x).outcome != Returned(0)
    ensures t.At(x).outcome.Returned? ==> t.At(x).outcome.rc == -1
    ensures t.At(x).outcome.Returned? && Send(x, false) !in acts ==> t.At(x).attempt == |t.At(x).sent| == 5
  {
    RunKeepsHopeless(Start(aRemote, bRemote), acts, t, false, false);
    forall d | d in t.At(x).sent ensures d.word != Ack {
      var i :| 0 <= i < |t.At(x).sent| && t.At(x).sent[i] == d;
      assert !IsAckDatagram(t.At(x).sent[i]);
    }
  }
}
