/**
 The handshake run by one peer in test3 and test2: send PUNCH_REQ, poll the socket once,
 answer a PUNCH_REQ with PUNCH_ACK, leave on a PUNCH_ACK, sleep, repeat for 60 seconds.

 One loop pass is split into its two network actions, `SendReq` and `Receive`, because another
 peer may act between them. The pair of peers in `PunchPair` is built from the same two functions.
 */
module Handshake {
  import opened Common

  const PUNCH_INTERVAL := 500_000   // microseconds asked of usleep after every pass
  const PUNCH_TIMEOUT := 60         // seconds

  /** What a datagram looks like to strcmp: one of the two protocol words, or anything else. */
  datatype Message = Req | Ack | Other

  /** Where the peer is: at the loop head, between send and receive, or out of the loop. */
  datatype Stage = Sending | Receiving | Succeeded | TimedOut

  /** `attempts` is punch_count, `passes` counts the polls of the socket. */
  datatype Peer = Peer(stage: Stage, attempts: nat, passes: nat, sent: seq<Message>, got: seq<Message>)
  {
    predicate Punching() {
      stage.Sending? || stage.Receiving?
    }
  }

  const FRESH := Peer(Sending, 0, 0, [], [])

  function SendReq(p: Peer): Peer
    requires p.stage.Sending?
  {
    p.(stage := Receiving, attempts := p.attempts + 1, sent := p.sent + [Req])
  }

  function Receive(p: Peer, r: Option<Message>): Peer
    requires p.stage.Receiving?
  {
    match r
    case None => p.(stage := Sending, passes := p.passes + 1)
    case Some(Req) => p.(stage := Sending, passes := p.passes + 1, got := p.got + [Req], sent := p.sent + [Ack])
    case Some(Ack) => p.(stage := Succeeded, passes := p.passes + 1, got := p.got + [Ack])
    case Some(Other) => p.(stage := Sending, passes := p.passes + 1, got := p.got + [Other])
  }

  function GiveUp(p: Peer): Peer
    requires p.stage.Sending?
  {
    p.(stage := TimedOut)
  }

  /** Once in the chat loop a peer sends keepalives and chat lines, never a protocol word. */
  function Talk(p: Peer): Peer
    requires p.stage.Succeeded?
  {
    p.(sent := p.sent + [Other])
  }

  /**
   What every action of a peer keeps: one PUNCH_REQ per attempt, exactly one PUNCH_ACK per
   PUNCH_REQ received, PUNCH_REQ first, and success exactly when a PUNCH_ACK was received.
   */
  ghost predicate Disciplined(p: Peer) {
    && multiset(p.sent)[Req] == p.attempts
    && multiset(p.sent)[Ack] == multiset(p.got)[Req]
    && (p.sent != [] ==> p.sent[0] == Req)
    && p.attempts == p.passes + (if p.stage.Receiving? then 1 else 0)
    && |p.got| <= p.passes
    && (p.stage.Succeeded? <==> Ack in p.got)
    && (p.stage.Succeeded? ==> p.got[|p.got| - 1] == Ack && Ack !in p.got[..|p.got| - 1])
    && (p.stage.Succeeded? || |p.sent| == multiset(p.sent)[Req] + multiset(p.sent)[Ack])
  }

  lemma SendReqDisciplined(p: Peer)
    requires p.stage.Sending? && Disciplined(p)
    ensures Disciplined(SendReq(p))
  {
  }

  lemma ReceiveDisciplined(p: Peer, r: Option<Message>)
    requires p.stage.Receiving? && Disciplined(p)
    ensures Disciplined(Receive(p, r))
  {
    if r.Some? {
      assert Receive(p, r).got[..|p.got|] == p.got;
    }
  }

  lemma LeaveDisciplined(p: Peer)
    requires Disciplined(p)
    ensures p.stage.Sending? ==> Disciplined(GiveUp(p))
    ensures p.stage.Succeeded? ==> Disciplined(Talk(p))
  {
  }

  // ---------------------------------------------------------------- one peer against its environment

  /** One pass of the environment: what recvfrom returns and how much longer than asked the pass takes. */
  datatype Input = Input(recv: Option<Message>, slack: nat)

  /** The peer after `n` passes, stopping early once it has succeeded. */
  ghost function Passes(inputs: nat -> Input, n: nat): Peer {
    if n == 0 then FRESH
    else
      var p := Passes(inputs, n - 1);
      if p.stage.Sending? then Receive(SendReq(p), inputs(n - 1).recv) else p
  }

  /** The clock, in microseconds, at the loop head before pass `n`; usleep never returns early. */
  ghost function Clock(first: nat, inputs: nat -> Input, n: nat): nat {
    if n == 0 then first else Clock(first, inputs, n - 1) + PUNCH_INTERVAL + inputs(n - 1).slack
  }

  /** time(NULL) - start_time has reached the timeout; time(NULL) has whole seconds only. */
  predicate Expired(start: nat, now: nat) {
    now / 1_000_000 - start / 1_000_000 >= PUNCH_TIMEOUT
  }

  lemma {:induction false} ClockAdvances(first: nat, inputs: nat -> Input, n: nat)
    ensures Clock(first, inputs, n) >= first + PUNCH_INTERVAL * n
  {
    if n == 0 {
    } else {
      ClockAdvances(first, inputs, n - 1);
    }
  }

  /** Pass `n` begins: no PUNCH_ACK so far and the clock has not run out. */
  ghost predicate Continues(start: nat, first: nat, inputs: nat -> Input, n: nat) {
    Passes(inputs, n).stage.Sending? && !Expired(start, Clock(first, inputs, n))
  }

  lemma AtMost120(start: nat, first: nat, inputs: nat -> Input, n: nat)
    requires start <= first
    requires !Expired(start, Clock(first, inputs, n))
    ensures n < 120
  {
    ClockAdvances(first, inputs, n);
  }

  /** What pass n makes of a peer that is still at it. */
  lemma NextPass(inputs: nat -> Input, n: nat, sent: seq<Message>, got: seq<Message>)
    requires Passes(inputs, n) == Peer(Sending, n, n, sent, got)
    ensures Passes(inputs, n + 1) ==
      match inputs(n).recv
      case None => Peer(Sending, n + 1, n + 1, sent + [Req], got)
      case Some(Req) => Peer(Sending, n + 1, n + 1, sent + [Req] + [Ack], got + [Req])
      case Some(Ack) => Peer(Succeeded, n + 1, n + 1, sent + [Req], got + [Ack])
      case Some(Other) => Peer(Sending, n + 1, n + 1, sent + [Req], got + [Other])
  {
  }

  /** How the call ends: at the first pass that polls a PUNCH_ACK, or before the first that finds the clock run out. */
  ghost predicate Ends(start: nat, first: nat, inputs: nat -> Input, rc: int, peer: Peer) {
    var n := peer.passes;
    && (forall i :: 0 <= i < n ==> Continues(start, first, inputs, i))
    && if rc == 0 then peer == Passes(inputs, n) && peer.stage.Succeeded?
       else
         && rc == -1
         && Passes(inputs, n).stage.Sending?
         && peer == GiveUp(Passes(inputs, n))
         && Expired(start, Clock(first, inputs, n))
  }

  /** The loop head before pass n, reached in time at every pass so far. */
  ghost predicate AtLoopHead(start: nat, first: nat, inputs: nat -> Input, n: nat, sent: seq<Message>,
                             got: seq<Message>)
  {
    && Passes(inputs, n) == Peer(Sending, n, n, sent, got)
    && forall i :: 0 <= i < n ==> Continues(start, first, inputs, i)
  }

  lemma NextLoopHead(start: nat, first: nat, inputs: nat -> Input, n: nat,
                     sent: seq<Message>, got: seq<Message>, more: seq<Message>, taken: seq<Message>)
    requires AtLoopHead(start, first, inputs, n, sent, got) && !Expired(start, Clock(first, inputs, n))
    requires Passes(inputs, n + 1) == Peer(Sending, n + 1, n + 1, sent + more, got + taken)
    ensures AtLoopHead(start, first, inputs, n + 1, sent + more, got + taken)
  {
    assert Continues(start, first, inputs, n);
  }

  lemma LeftOnAck(start: nat, first: nat, inputs: nat -> Input, n: nat, sent: seq<Message>, got: seq<Message>)
    requires AtLoopHead(start, first, inputs, n, sent, got) && !Expired(start, Clock(first, inputs, n))
    requires inputs(n).recv == Some(Ack)
    ensures Ends(start, first, inputs, 0, Peer(Succeeded, n + 1, n + 1, sent + [Req], got + [Ack]))
  {
    NextPass(inputs, n, sent, got);
    assert Continues(start, first, inputs, n);
  }

  lemma LeftOnTimeout(start: nat, first: nat, inputs: nat -> Input, n: nat, sent: seq<Message>, got: seq<Message>)
    requires AtLoopHead(start, first, inputs, n, sent, got) && Expired(start, Clock(first, inputs, n))
    ensures Ends(start, first, inputs, -1, Peer(TimedOut, n, n, sent, got))
  {
  }

  /** A pass that goes on: its PUNCH_REQ, and what its poll makes it send and take. */
  lemma PassGoesOn(start: nat, first: nat, inputs: nat -> Input, n: nat, sent: seq<Message>, got: seq<Message>)
    requires AtLoopHead(start, first, inputs, n, sent, got) && !Expired(start, Clock(first, inputs, n))
    requires inputs(n).recv != Some(Ack)
    ensures var r := inputs(n).recv;
      AtLoopHead(start, first, inputs, n + 1,
                 sent + if r == Some(Req) then [Req, Ack] else [Req], got + if r.Some? then [r.value] else [])
  {
    NextPass(inputs, n, sent, got);
    var r := inputs(n).recv;
    assert sent + [Req] + [Ack] == sent + [Req, Ack] && got + [] == got;
    NextLoopHead(start, first, inputs, n, sent, got,
                 if r == Some(Req) then [Req, Ack] else [Req], if r.Some? then [r.value] else []);
  }

  /**
   The 60 second loop. The outcome is that of the first pass that receives PUNCH_ACK, unless the
   clock runs out before that pass; whatever the environment does there are at most 120 passes.
   */
  method PerformNatPunching(start: nat, first: nat, inputs: nat -> Input) returns (rc: int, peer: Peer)
    requires start <= first
    ensures Ends(start, first, inputs, rc, peer)
    ensures peer.attempts == peer.passes <= 120 && |peer.sent| <= 240
  {
    var punchCount, sent, got := 0, [], [];
    var now := first;
    while !Expired(start, now)
      invariant punchCount <= 120 && |sent| <= 2 * punchCount
      invariant now == Clock(first, inputs, punchCount)
      invariant AtLoopHead(start, first, inputs, punchCount, sent, got)
      decreases 120 - punchCount
    {
      AtMost120(start, first, inputs, punchCount);
      var input := inputs(punchCount);
      ghost var n, before := punchCount, sent;
      sent := sent + [Req];
      punchCount := punchCount + 1;
      if input.recv.Some? {
        if input.recv.value == Req {
          sent := sent + [Ack];
          assert sent == before + [Req, Ack];
        } else if input.recv.value == Ack {
          LeftOnAck(start, first, inputs, n, before, got);
          return 0, Peer(Succeeded, punchCount, punchCount, sent, got + [Ack]);
        }
      }
      PassGoesOn(start, first, inputs, n, before, got);
      got := got + if input.recv.Some? then [input.recv.value] else [];
      now := now + PUNCH_INTERVAL + input.slack;
    }
    LeftOnTimeout(start, first, inputs, punchCount, sent, got);
    return -1, Peer(TimedOut, punchCount, punchCount, sent, got);
  }

  lemma PassDisciplined(p: Peer, r: Option<Message>)
    requires p.stage.Sending? && Disciplined(p)
    ensures Disciplined(Receive(SendReq(p), r))
  {
    SendReqDisciplined(p);
    ReceiveDisciplined(SendReq(p), r);
  }

  lemma {:induction false} PassesDisciplined(inputs: nat -> Input, n: nat)
    ensures Disciplined(Passes(inputs, n))
  {
    if n == 0 {
    } else {
      PassesDisciplined(inputs, n - 1);
      if Passes(inputs, n - 1).stage.Sending? {
        PassDisciplined(Passes(inputs, n - 1), inputs(n - 1).recv);
      }
    }
  }

  /** After n passes the peer is done exactly when one of them received PUNCH_ACK. */
  lemma {:induction false} SuccessIsFirstAck(inputs: nat -> Input, n: nat)
    ensures Passes(inputs, n).stage ==
      if exists i :: 0 <= i < n && inputs(i).recv == Some(Ack) then Succeeded else Sending
  {
    if n == 0 {
    } else {
      SuccessIsFirstAck(inputs, n - 1);
    }
  }

  /** Two messages a pass at most, of which one is the PUNCH_REQ. */
  lemma {:induction false} MessageBound(inputs: nat -> Input, n: nat)
    ensures |Passes(inputs, n).sent| <= 2 * Passes(inputs, n).attempts <= 2 * n
  {
    if n == 0 {
    } else {
      MessageBound(inputs, n - 1);
    }
  }

  /** Never more acknowledgements than requests received, and never more of those than polls. */
  lemma AcksAnswerRequests(inputs: nat -> Input, n: nat)
    ensures var p := Passes(inputs, n); multiset(p.sent)[Ack] == multiset(p.got)[Req] <= p.passes
  {
    PassesDisciplined(inputs, n);
    var got := Passes(inputs, n).got;
    assert multiset(got)[Req] <= |multiset(got)|;
  }

  // ---------------------------------------------------------------- a call that hears nothing

  lemma {:induction false} SteadyClock(first: nat, inputs: nat -> Input, n: nat)
    requires forall i :: inputs(i).slack == 0
    ensures Clock(first, inputs, n) == first + 500_000 * n
  {
    if n == 0 {
    } else {
      SteadyClock(first, inputs, n - 1);
    }
  }

  /** The sixtieth second begins after 120 half seconds, or after 119 for a start in the second half of one. */
  lemma SixtySeconds(start: nat, n: nat)
    ensures Expired(start, start + 500_000 * n) <==> n >= if start % 1_000_000 < 500_000 then 120 else 119
  {
  }

  lemma EndsUnacknowledged(start: nat, first: nat, inputs: nat -> Input, rc: int, peer: Peer)
    requires forall i :: inputs(i).recv != Some(Ack)
    requires Ends(start, first, inputs, rc, peer)
    ensures rc == -1 && peer.attempts == peer.passes
    ensures Expired(start, Clock(first, inputs, peer.passes))
    ensures forall i :: 0 <= i < peer.passes ==> !Expired(start, Clock(first, inputs, i))
  {
    var n := peer.passes;
    SuccessIsFirstAck(inputs, n);
    PassesDisciplined(inputs, n);
    forall i | 0 <= i < n ensures !Expired(start, Clock(first, inputs, i)) {
      assert Continues(start, first, inputs, i);
    }
  }

  /**
   The number of attempts of a call that gets no PUNCH_ACK and whose sleeps are as long as asked: 120
   when it starts in the first half of a second, 119 in the other half, since time counts whole seconds.
   */
  lemma SilentAttempts(start: nat, inputs: nat -> Input, rc: int, peer: Peer)
    requires forall i :: inputs(i).slack == 0 && inputs(i).recv != Some(Ack)
    requires Ends(start, start, inputs, rc, peer)
    ensures rc == -1 && peer.attempts == if start % 1_000_000 < 500_000 then 120 else 119
  {
    EndsUnacknowledged(start, start, inputs, rc, peer);
    var n := peer.passes;
    SteadyClock(start, inputs, n);
    SixtySeconds(start, n);
    if n > 0 {
      SteadyClock(start, inputs, n - 1);
      SixtySeconds(start, n - 1);
      assert !Expired(start, Clock(start, inputs, n - 1));
    }
  }
}
