/**
 The bound on passes is attained: for every skew d > 0 and every delay there is a steady run on which
 A needs all its 2(d + delay) + 2 passes. B runs d passes ahead, both fall silent for as long as skew
 and delay allow, and A's last polls take one late request after another.
 */
module Tightness {
  import opened Common
  import opened Handshake
  import opened PunchPair
  import opened Stranding
  import opened Progress

  ghost predicate Reaches(v: Timed, w: Timed, d: nat, delay: nat) {
    exists acts :: SteadyRun(v, acts, w, d, delay)
  }

  lemma Stay(v: Timed, d: nat, delay: nat)
    ensures Reaches(v, v, d, delay)
  {
    assert SteadyRun(v, [], v, d, delay);
  }

  lemma Before(v: Timed, act: Action, w: Timed, d: nat, delay: nat)
    requires SteadyStep(v, act, d, delay) && Reaches(Next(v, act), w, d, delay)
    ensures Reaches(v, w, d, delay)
  {
    var acts :| SteadyRun(Next(v, act), acts, w, d, delay);
    Longer(v, act, acts, w, d, delay);
  }

  lemma {:induction false} RunThenReach(v: Timed, acts: seq<Action>, u: Timed, w: Timed, d: nat, delay: nat)
    requires SteadyRun(v, acts, u, d, delay) && Reaches(u, w, d, delay)
    ensures Reaches(v, w, d, delay)
    decreases acts
  {
    if acts == [] {
    } else {
      RunThenReach(Next(v, acts[0]), acts[1..], u, w, d, delay);
      Before(v, acts[0], w, d, delay);
    }
  }

  lemma Then(v: Timed, u: Timed, w: Timed, d: nat, delay: nat)
    requires Reaches(v, u, d, delay) && Reaches(u, w, d, delay)
    ensures Reaches(v, w, d, delay)
  {
    var acts :| SteadyRun(v, acts, u, d, delay);
    RunThenReach(v, acts, u, w, d, delay);
  }

  lemma After(v: Timed, u: Timed, act: Action, w: Timed, d: nat, delay: nat)
    requires Reaches(v, u, d, delay) && SteadyStep(u, act, d, delay) && w == Next(u, act)
    ensures Reaches(v, w, d, delay)
  {
    Stay(w, d, delay);
    Before(u, act, w, d, delay);
    Then(v, u, w, d, delay);
  }

  // ---------------------------------------------------------------- before B hears anything

  function Requests(n: nat): seq<Message> {
    seq(n, _ => Req)
  }

  /**
   A's side after `passes` passes, with everything of B's `sent` datagrams taken or among the last
   `left` in its buffer.
   */
  ghost predicate Taking(v: Timed, passes: nat, sent: nat, left: nat) {
    var h := v.s.a;
    && h.peer.stage.Sending? && h.peer.passes == |v.aMarks| == passes
    && h.inbox == Requests(left) && h.arrived == sent
    && (if passes == 0 then h.peer.sent == [] else [Req, Ack] <= h.peer.sent)
    && (forall k :: 0 <= k < passes ==> v.aMarks[k] <= sent)
  }

  /** B's side after `passes` passes without anything having arrived; by the first d of them A had sent nothing. */
  ghost predicate Deaf(v: Timed, passes: nat, d: nat) {
    var h := v.s.b;
    && h.peer.stage.Sending? && h.peer.passes == |v.bMarks| == passes
    && h.peer.sent == Requests(passes) && h.inbox == [] && h.arrived == 0
    && (forall k :: 0 <= k < passes && k < d ==> v.bMarks[k] == 0)
  }

  ghost predicate Waiting(v: Timed, a: nat, b: nat, left: nat, d: nat) {
    Taking(v, a, b, left) && Deaf(v, b, d)
  }

  lemma OneMore(n: nat)
    ensures Requests(n) + [Req] == Requests(n + 1)
    ensures n > 0 ==> Requests(n)[0] == Req && Requests(n)[1..] == Requests(n - 1)
  {
  }

  lemma DeafSend(v: Timed, a: nat, b: nat, left: nat, d: nat, delay: nat) returns (w: Timed)
    requires Waiting(v, a, b, left, d) && b + 1 <= a + d && a <= b + d
    ensures SteadyStep(v, Send(B), d, delay) && w == Next(v, Send(B))
    ensures Taking(w, a, b, left) && w.bMarks == v.bMarks
    ensures w.s.b == Host(SendReq(v.s.b.peer), [], 0, v.s.b.dropped) && w.s.b.peer.sent == Requests(b + 1)
  {
    OneMore(b);
    w := Next(v, Send(B));
  }

  lemma DeafArrive(v: Timed, a: nat, b: nat, left: nat, d: nat, delay: nat) returns (w: Timed)
    requires Taking(v, a, b, left) && v.s.b.peer.sent == Requests(b + 1) && v.s.b.peer.stage.Receiving?
    requires v.s.b.peer.passes == b && b + 1 <= a + d && a <= b + d
    ensures SteadyStep(v, Arrive(A, b), d, delay) && w == Next(v, Arrive(A, b))
    ensures Taking(w, a, b + 1, left + 1) && w.s.b == v.s.b && w.bMarks == v.bMarks
  {
    OneMore(left);
    w := Next(v, Arrive(A, b));
  }

  /** The poll is allowed to find nothing: what A sent is too recent. */
  lemma DeafPollTimely(v: Timed, b: nat, d: nat, delay: nat)
    requires |v.bMarks| == b < d + delay && (b < d ==> v.s.a.peer.sent == [])
    requires forall k :: 0 <= k < b && k < d ==> v.bMarks[k] == 0
    ensures Timely(v, Recv(B), delay)
  {
    var marks := v.MarksNow(B);
    assert forall k :: 0 <= k <= b && k < d ==> marks[k] == 0;
  }

  lemma DeafPoll(v: Timed, a: nat, b: nat, left: nat, d: nat, delay: nat) returns (w: Timed)
    requires Taking(v, a, b + 1, left) && (b < d ==> a == 0) && b + 1 <= a + d && a <= b + d && b < d + delay
    requires v.s.b.peer.stage.Receiving? && v.s.b.peer.passes == |v.bMarks| == b && v.s.b.peer.sent == Requests(b + 1)
    requires v.s.b.inbox == [] && v.s.b.arrived == 0
    requires forall k :: 0 <= k < b && k < d ==> v.bMarks[k] == 0
    ensures SteadyStep(v, Recv(B), d, delay) && w == Next(v, Recv(B)) && Waiting(w, a, b + 1, left, d)
  {
    DeafPollTimely(v, b, d, delay);
    w := Next(v, Recv(B));
  }

  /** A pass of B that hears nothing, its request arriving at once. */
  lemma DeafPass(v: Timed, a: nat, b: nat, left: nat, d: nat, delay: nat) returns (w: Timed)
    requires Waiting(v, a, b, left, d) && (b < d ==> a == 0) && b + 1 <= a + d && a <= b + d && b < d + delay
    ensures Reaches(v, w, d, delay) && Waiting(w, a, b + 1, left + 1, d)
  {
    var v1 := DeafSend(v, a, b, left, d, delay);
    var v2 := DeafArrive(v1, a, b, left, d, delay);
    w := DeafPoll(v2, a, b, left + 1, d, delay);
    Stay(v, d, delay);
    After(v, v, Send(B), v1, d, delay);
    After(v, v1, Arrive(A, b), v2, d, delay);
    After(v, v2, Recv(B), w, d, delay);
  }

  lemma EagerTimely(v: Timed, x: Side, delay: nat)
    requires v.s.At(x).arrived == |v.Coming(x)|
    requires forall k :: 0 <= k < |v.Marks(x)| ==> v.Marks(x)[k] <= |v.Coming(x)|
    ensures Timely(v, Recv(x), delay)
  {
  }

  /**
   A pass of A, which takes a request if there is one left; the first time it answers right behind
   its own request.
   */
  lemma TakingPass(v: Timed, a: nat, b: nat, left: nat, d: nat, delay: nat) returns (w: Timed)
    requires Waiting(v, a, b, left, d) && b >= d && a + 1 <= b + d && b <= a + d && (a == 0 ==> left > 0)
    ensures Reaches(v, w, d, delay) && Waiting(w, a + 1, b, if left > 0 then left - 1 else 0, d)
  {
    OneMore(left);
    var v1 := Next(v, Send(A));
    EagerTimely(v1, A, delay);
    w := Next(v1, Recv(A));
    Stay(v, d, delay);
    After(v, v, Send(A), v1, d, delay);
    After(v, v1, Recv(A), w, d, delay);
  }

  // ---------------------------------------------------------------- the phases before B hears

  lemma {:induction false} RunAhead(d: nat, delay: nat, n: nat) returns (w: Timed)
    requires n <= d
    ensures Reaches(TIMED_START, w, d, delay) && Waiting(w, 0, n, n, d)
  {
    if n == 0 {
      w := TIMED_START;
      Stay(w, d, delay);
    } else {
      var u := RunAhead(d, delay, n - 1);
      w := DeafPass(u, 0, n - 1, n - 1, d, delay);
      Then(TIMED_START, u, w, d, delay);
    }
  }

  lemma Round(v: Timed, d: nat, delay: nat, n: nat, sent: nat) returns (w: Timed)
    requires 0 < d && n < delay && sent == d + n && Waiting(v, n, sent, d, d)
    ensures Reaches(v, w, d, delay) && Waiting(w, n + 1, sent + 1, d, d)
  {
    var u := TakingPass(v, n, sent, d, d, delay);
    w := DeafPass(u, n + 1, sent, d - 1, d, delay);
    Then(v, u, w, d, delay);
  }

  lemma {:induction false} SideBySide(v: Timed, d: nat, delay: nat, n: nat, sent: nat) returns (w: Timed)
    requires 0 < d && n <= delay && sent == d + n && Waiting(v, 0, d, d, d)
    ensures Reaches(v, w, d, delay) && Waiting(w, n, sent, d, d)
    decreases n
  {
    if n == 0 {
      w := v;
      Stay(v, d, delay);
    } else {
      var u := SideBySide(v, d, delay, n - 1, sent - 1);
      w := Round(u, d, delay, n - 1, sent - 1);
      Then(v, u, w, d, delay);
    }
  }

  /** A alone: it takes what is left, then polls in vain until it is d passes ahead. */
  lemma {:induction false} CatchUp(v: Timed, d: nat, delay: nat, n: nat) returns (w: Timed)
    requires 0 < d && n <= 2 * d && Waiting(v, delay, d + delay, d, d)
    ensures Reaches(v, w, d, delay) && Waiting(w, delay + n, d + delay, if n <= d then d - n else 0, d)
  {
    if n == 0 {
      w := v;
      Stay(v, d, delay);
    } else {
      var u := CatchUp(v, d, delay, n - 1);
      w := TakingPass(u, delay + n - 1, d + delay, if n - 1 <= d then d - (n - 1) else 0, d, delay);
      Then(v, u, w, d, delay);
    }
  }

  lemma Silence(d: nat, delay: nat) returns (w: Timed)
    requires d > 0
    ensures Reaches(TIMED_START, w, d, delay) && Waiting(w, 2 * d + delay, d + delay, 0, d)
  {
    var u := RunAhead(d, delay, d);
    var v := SideBySide(u, d, delay, delay, d + delay);
    w := CatchUp(v, d, delay, 2 * d);
    Then(TIMED_START, u, v, d, delay);
    Then(TIMED_START, v, w, d, delay);
  }

  // ---------------------------------------------------------------- B hears, answers and leaves

  lemma OneArrives(v: Timed, x: Side, d: nat, delay: nat) returns (w: Timed)
    requires v.s.At(x).arrived < |v.Coming(x)| && WithinSkew(v.s, d)
    ensures SteadyStep(v, Arrive(x, v.s.At(x).arrived), d, delay) && w == Next(v, Arrive(x, v.s.At(x).arrived))
    ensures WithinSkew(w.s, d) && w.aMarks == v.aMarks && w.bMarks == v.bMarks && w.s.At(Opp(x)) == v.s.At(Opp(x))
    ensures w.s.At(x).peer == v.s.At(x).peer && w.s.At(x).arrived == v.s.At(x).arrived + 1
    ensures w.s.At(x).inbox == v.s.At(x).inbox + [v.Coming(x)[v.s.At(x).arrived]]
  {
    w := Next(v, Arrive(x, v.s.At(x).arrived));
  }

  lemma SplitAt(s: seq<Message>, t: seq<Message>, k: nat)
    requires k < |t|
    ensures s + [t[k]] + t[k + 1..] == s + t[k..]
  {
  }

  /** Everything under way towards x arrives. */
  lemma {:induction false} AllArrive(v: Timed, x: Side, d: nat, delay: nat) returns (w: Timed)
    requires v.s.At(x).arrived <= |v.Coming(x)| && WithinSkew(v.s, d)
    ensures Reaches(v, w, d, delay) && WithinSkew(w.s, d)
    ensures w.aMarks == v.aMarks && w.bMarks == v.bMarks && w.s.At(Opp(x)) == v.s.At(Opp(x))
    ensures w.s.At(x).peer == v.s.At(x).peer && w.s.At(x).arrived == |v.Coming(x)|
    ensures w.s.At(x).inbox == v.s.At(x).inbox + v.Coming(x)[v.s.At(x).arrived..]
    decreases |v.Coming(x)| - v.s.At(x).arrived
  {
    var k := v.s.At(x).arrived;
    Stay(v, d, delay);
    if k == |v.Coming(x)| {
      w := v;
    } else {
      var u := OneArrives(v, x, d, delay);
      SplitAt(v.s.At(x).inbox, v.Coming(x), k);
      w := AllArrive(u, x, d, delay);
      Before(v, Arrive(x, k), w, d, delay);
    }
  }

  /** A is where `Silence` left it, except that B may have sent more. */
  ghost predicate Alone(v: Timed, passes: nat, arrived: nat, early: nat) {
    var h := v.s.a;
    && h.peer.stage.Sending? && h.peer.passes == |v.aMarks| == passes
    && h.inbox == [] && h.arrived == arrived
    && (forall k :: 0 <= k < passes ==> v.aMarks[k] <= if k < early then arrived else |v.Coming(A)|)
  }

  /** One pass of B in which it takes the first of what its buffer holds, everything having arrived. */
  lemma HearingPass(v: Timed, d: nat, delay: nat) returns (w: Timed)
    requires v.s.b.peer.stage.Sending? && v.s.b.inbox != [] && v.s.b.arrived == |v.Coming(B)|
    requires forall k :: 0 <= k < |v.bMarks| ==> v.bMarks[k] <= |v.Coming(B)|
    requires v.Passes(A) <= v.Passes(B) + d && v.Passes(B) + 1 <= v.Passes(A) + d
    ensures Reaches(v, w, d, delay) && w.s.a == v.s.a && w.aMarks == v.aMarks && w.bMarks == v.bMarks + [|v.Coming(B)|]
    ensures w.s.b.peer == Receive(SendReq(v.s.b.peer), Some(v.s.b.inbox[0]))
    ensures w.s.b.inbox == v.s.b.inbox[1..] && w.s.b.arrived == v.s.b.arrived
  {
    var u := Next(v, Send(B));
    EagerTimely(u, B, delay);
    w := Next(u, Recv(B));
    Stay(v, d, delay);
    After(v, v, Send(B), u, d, delay);
    After(v, u, Recv(B), w, d, delay);
  }

  lemma TwoReceipts(p: Peer, b: nat)
    requires p.stage.Sending? && p.sent == Requests(b)
    ensures var q := Receive(SendReq(p), Some(Req));
      && q.stage.Sending?
      && Receive(SendReq(q), Some(Ack)).stage.Succeeded?
      && Receive(SendReq(q), Some(Ack)).sent == Requests(b) + [Req, Ack, Req]
  {
    assert Requests(b) + [Req] + [Ack] + [Req] == Requests(b) + [Req, Ack, Req];
  }

  lemma HearingPasses(v: Timed, a: nat, b: nat, d: nat, delay: nat) returns (w: Timed)
    requires Taking(v, a, b, 0) && a <= b + d && b <= a && 1 < d + (a - b) && a > 0
    requires v.s.b.peer.stage.Sending? && v.s.b.peer.passes == |v.bMarks| == b && v.s.b.peer.sent == Requests(b)
    requires [Req, Ack] <= v.s.b.inbox && v.s.b.arrived == |v.s.a.peer.sent|
    requires forall k :: 0 <= k < b ==> v.bMarks[k] <= |v.s.a.peer.sent|
    ensures Reaches(v, w, d, delay)
    ensures Alone(w, a, b, a) && w.s.b.peer.stage.Succeeded? && w.s.b.peer.sent == Requests(b) + [Req, Ack, Req]
  {
    var u := HearingPass(v, d, delay);
    assert u.s.b.inbox[0] == Ack;
    w := HearingPass(u, d, delay);
    Then(v, u, w, d, delay);
    TwoReceipts(v.s.b.peer, b);
  }

  /** B hears A's first request and then its acknowledgement. */
  lemma Hearing(v: Timed, a: nat, b: nat, d: nat, delay: nat) returns (w: Timed)
    requires Waiting(v, a, b, 0, d) && a <= b + d && b <= a && 1 < d + (a - b) && a > 0
    requires forall k :: 0 <= k < b ==> v.bMarks[k] <= |v.s.a.peer.sent|
    ensures Reaches(v, w, d, delay)
    ensures Alone(w, a, b, a) && w.s.b.peer.stage.Succeeded? && w.s.b.peer.sent == Requests(b) + [Req, Ack, Req]
  {
    var u := AllArrive(v, B, d, delay);
    assert u.s.b.inbox == v.s.a.peer.sent;
    w := HearingPasses(u, a, b, d, delay);
    Then(v, u, w, d, delay);
  }

  // ---------------------------------------------------------------- A's last passes

  /** A polls in vain for as long as the delay allows: what B sent last came after the poll that many passes back. */
  lemma VainPass(v: Timed, passes: nat, arrived: nat, early: nat, d: nat, delay: nat) returns (w: Timed)
    requires Alone(v, passes, arrived, early) && v.s.b.peer.stage.Succeeded?
    requires early <= passes < early + delay && arrived <= |v.Coming(A)|
    ensures Reaches(v, w, d, delay) && Alone(w, passes + 1, arrived, early) && w.s.b == v.s.b
  {
    var u := Next(v, Send(A));
    var marks := u.MarksNow(A);
    assert delay < |marks| ==> |marks| - 1 - delay < early;
    w := Next(u, Recv(A));
    Stay(v, d, delay);
    After(v, v, Send(A), u, d, delay);
    After(v, u, Recv(A), w, d, delay);
  }

  lemma {:induction false} InVain(v: Timed, passes: nat, arrived: nat, d: nat, delay: nat, n: nat) returns (w: Timed)
    requires Alone(v, passes, arrived, passes) && v.s.b.peer.stage.Succeeded?
    requires n <= delay && arrived <= |v.Coming(A)|
    ensures Reaches(v, w, d, delay) && Alone(w, passes + n, arrived, passes) && w.s.b == v.s.b
  {
    if n == 0 {
      w := v;
      Stay(v, d, delay);
    } else {
      var u := InVain(v, passes, arrived, d, delay, n - 1);
      w := VainPass(u, passes + n - 1, arrived, passes, d, delay);
      Then(v, u, w, d, delay);
    }
  }

  /** A takes the first of what its buffer holds, everything having arrived and B being gone. */
  lemma LatePass(v: Timed, d: nat, delay: nat) returns (w: Timed)
    requires v.s.a.peer.stage.Sending? && v.s.a.inbox != [] && v.s.a.arrived == |v.Coming(A)|
    requires v.s.b.peer.stage.Succeeded?
    requires forall k :: 0 <= k < |v.aMarks| ==> v.aMarks[k] <= |v.Coming(A)|
    ensures Reaches(v, w, d, delay) && w.s.b == v.s.b && w.aMarks == v.aMarks + [|v.Coming(A)|]
    ensures w.s.a.peer == Receive(SendReq(v.s.a.peer), Some(v.s.a.inbox[0]))
    ensures w.s.a.inbox == v.s.a.inbox[1..] && w.s.a.arrived == v.s.a.arrived
  {
    var u := Next(v, Send(A));
    EagerTimely(u, A, delay);
    w := Next(u, Recv(A));
    Stay(v, d, delay);
    After(v, v, Send(A), u, d, delay);
    After(v, u, Recv(A), w, d, delay);
  }

  lemma LastPasses(v: Timed, passes: nat, arrived: nat, early: nat, d: nat, delay: nat) returns (w: Timed)
    requires Alone(v, passes, arrived, early) && v.s.b.peer.stage.Succeeded?
    requires arrived <= |v.Coming(A)| && v.Coming(A)[arrived..] == [Req, Ack, Req]
    ensures Reaches(v, w, d, delay) && w.Passes(A) == passes + 2 && w.s.a.peer.stage.Succeeded? && w.s.b == v.s.b
  {
    var u := AllArrive(v, A, d, delay);
    assert u.s.a.inbox == [Req, Ack, Req];
    var t := LatePass(u, d, delay);
    assert t.s.a.inbox[0] == Ack;
    w := LatePass(t, d, delay);
    Then(v, u, t, d, delay);
    Then(v, t, w, d, delay);
  }

  lemma ReachedMarks(v: Timed, d: nat, delay: nat)
    requires Reaches(TIMED_START, v, d, delay)
    ensures forall k :: 0 <= k < |v.bMarks| ==> v.bMarks[k] <= |v.s.a.peer.sent|
  {
    var acts :| SteadyRun(TIMED_START, acts, v, d, delay);
    StartsSteady(d, delay);
    SteadyRunKeeps(TIMED_START, acts, v, d, delay);
    assert SteadySide(v, B, d, delay);
  }

  lemma LateRequests(v: Timed, b: nat)
    requires v.Coming(A) == Requests(b) + [Req, Ack, Req]
    ensures b <= |v.Coming(A)| && v.Coming(A)[b..] == [Req, Ack, Req]
  {
  }

  lemma AnsweredLate(d: nat, delay: nat) returns (w: Timed)
    requires d > 0
    ensures Reaches(TIMED_START, w, d, delay)
    ensures Alone(w, 2 * d + delay, d + delay, 2 * d + delay) && w.s.b.peer.stage.Succeeded?
    ensures w.Coming(A) == Requests(d + delay) + [Req, Ack, Req]
  {
    var v := Silence(d, delay);
    ReachedMarks(v, d, delay);
    w := Hearing(v, 2 * d + delay, d + delay, d, delay);
    Then(TIMED_START, v, w, d, delay);
  }

  /** For every skew and delay some steady run makes both succeed only after A's pass number 2(d + delay) + 2. */
  lemma BoundAttained(d: nat, delay: nat) returns (acts: seq<Action>, w: Timed)
    requires d > 0
    ensures SteadyRun(TIMED_START, acts, w, d, delay)
    ensures w.Passes(A) == 2 * (d + delay) + 2 && BothSucceeded(w.s)
  {
    var u := AnsweredLate(d, delay);
    LateRequests(u, d + delay);
    var v := InVain(u, 2 * d + delay, d + delay, d, delay, delay);
    w := LastPasses(v, 2 * d + 2 * delay, d + delay, 2 * d + delay, d, delay);
    Then(TIMED_START, u, v, d, delay);
    Then(TIMED_START, v, w, d, delay);
    acts :| SteadyRun(TIMED_START, acts, w, d, delay);
  }
}
