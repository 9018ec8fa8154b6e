/**
 The port sweep of test: from 1000 below the peer's port to 1000 above it in steps of ten, with
 bounds and counter of type uint16_t, all of which can wrap.
 */
module PortSweep {
  const PORTS := 0x10000
  const PORT_RANGE := 1000
  const STEP := 10

  type Port = p: nat | p < PORTS witness 0

  /** Truncation to uint16_t of a sum of two ports. */
  function Wrap(n: nat): (p: Port)
    requires n < 2 * PORTS
    ensures p == n % PORTS
  {
    if n < PORTS then n else n - PORTS
  }

  function PortMin(base: Port): Port {
    if base > PORT_RANGE then base - PORT_RANGE else 1024
  }

  function PortMax(base: Port): Port {
    Wrap(base + PORT_RANGE)
  }

  function Next(port: Port): Port {
    Wrap(port + STEP)
  }

  /** The value of the loop variable after k increments, whether or not the loop gets that far. */
  function Swept(base: Port, k: nat): Port {
    if k == 0 then PortMin(base) else Next(Swept(base, k - 1))
  }

  /** The loop test fails for the first time after n increments. */
  ghost predicate SweepEndsAt(base: Port, n: nat) {
    Swept(base, n) > PortMax(base) && forall k :: 0 <= k < n ==> Swept(base, k) <= PortMax(base)
  }

  ghost predicate SweepEnds(base: Port) {
    exists n :: SweepEndsAt(base, n)
  }

  // ---------------------------------------------------------------- termination

  lemma ModThenAdd(x: nat)
    ensures (x % PORTS + STEP) % PORTS == (x + STEP) % PORTS
  {
  }

  lemma {:induction false} SweptClosedForm(base: Port, k: nat)
    ensures Swept(base, k) == (PortMin(base) + STEP * k) % PORTS
  {
    if k == 0 {
    } else {
      SweptClosedForm(base, k - 1);
      ModThenAdd(PortMin(base) + STEP * (k - 1));
    }
  }

  lemma {:induction false} SweptParity(base: Port, k: nat)
    ensures Swept(base, k) % 2 == PortMin(base) % 2
  {
    if k == 0 {
    } else {
      SweptParity(base, k - 1);
    }
  }

  /**
   Increments until the sweep of a base from 64526 to 64533 ends: on its second pass over the port
   numbers, or only on its fourth.
   */
  function WrappingLength(base: Port): nat {
    if base <= 64531 then 6754 else 19861
  }

  /** Before that, on each pass over the port numbers, the last port reached is still within the bound. */
  lemma NoEarlyExit(base: Port, k: nat, wraps: nat)
    requires 64526 <= base <= 64533 && k < WrappingLength(base)
    requires wraps * PORTS <= PortMin(base) + STEP * k < (wraps + 1) * PORTS
    ensures (PortMin(base) + STEP * k) % PORTS <= PortMax(base)
  {
    assert wraps <= 3;
    if wraps == 0 {
    } else if wraps == 1 {
    } else if wraps == 2 {
    }
  }

  /**
   Bases whose upper bound leaves between two and nine ports above it: the loop variable wraps past
   the bound again and again, shifting by four modulo ten, until it lands on one of those ports.
   */
  lemma WrappingSweepEnds(base: Port)
    requires 64526 <= base <= 64533
    ensures SweepEndsAt(base, WrappingLength(base))
  {
    SweptClosedForm(base, WrappingLength(base));
    forall k | 0 <= k < WrappingLength(base) ensures Swept(base, k) <= PortMax(base) {
      SweptClosedForm(base, k);
      NoEarlyExit(base, k, (PortMin(base) + STEP * k) / PORTS);
    }
  }

  lemma StraightSweepEnds(base: Port)
    requires 24 <= base <= 64525
    ensures SweepEndsAt(base, (PortMax(base) - PortMin(base)) / STEP + 1)
  {
    var n := (PortMax(base) - PortMin(base)) / STEP + 1;
    forall k | 0 <= k <= n ensures Swept(base, k) == (PortMin(base) + STEP * k) % PORTS {
      SweptClosedForm(base, k);
    }
  }

  /** How many ports a sweep tries, where it ends at all. */
  function SweepLength(base: Port): nat {
    if base < 24 || base > 64535 then 0
    else if base <= 64525 then (PortMax(base) - PortMin(base)) / STEP + 1
    else if base <= 64533 then WrappingLength(base)
    else 0
  }

  lemma SweepLengthExact(base: Port)
    requires base != 64534 && base != 64535
    ensures SweepEndsAt(base, SweepLength(base))
  {
    if base < 24 || base > 64535 {
    } else if base <= 64525 {
      StraightSweepEnds(base);
    } else {
      WrappingSweepEnds(base);
    }
  }

  /** For every base port: the sweep comes to an end exactly when the base is neither 64534 nor 64535. */
  lemma SweepEndsExactly(base: Port)
    ensures SweepEnds(base) <==> base != 64534 && base != 64535
  {
    if base != 64534 && base != 64535 {
      SweepLengthExact(base);
    } else {
      forall n ensures !SweepEndsAt(base, n) {
        SweptParity(base, n);
      }
    }
  }

  /** The sweep is empty exactly for bases near the ends of the port range. */
  lemma EmptySweepExactly(base: Port)
    ensures SweepEndsAt(base, 0) <==> base < 24 || base > 64535
  {
  }

  lemma EndIsUnique(base: Port, m: nat, n: nat)
    requires SweepEndsAt(base, m) && SweepEndsAt(base, n)
    ensures m == n
  {
  }

  // ---------------------------------------------------------------- coverage

  /** Bases for which neither bound wraps and the lower one is not replaced. */
  predicate Straight(base: Port) {
    PORT_RANGE < base <= 64525
  }

  lemma {:induction false} StraightSwept(base: Port, k: nat)
    requires Straight(base) && k <= 201
    ensures Swept(base, k) == base - PORT_RANGE + STEP * k
  {
    if k == 0 {
    } else {
      StraightSwept(base, k - 1);
    }
  }

  /** A straight sweep makes 201 stops. */
  lemma StraightLength(base: Port)
    requires Straight(base)
    ensures SweepEndsAt(base, 201)
  {
    forall k: nat | k <= 201 ensures Swept(base, k) == base - PORT_RANGE + STEP * k {
      StraightSwept(base, k);
    }
  }

  /**
   A straight sweep targets exactly the ports within 1000 of the base and congruent to it modulo
   ten, among them the base itself, and each of them once.
   */
  lemma StraightCoverage(base: Port, q: Port)
    requires Straight(base)
    ensures (exists k :: 0 <= k < 201 && Swept(base, k) == q) <==>
      -PORT_RANGE <= q - base <= PORT_RANGE && (q - base) % STEP == 0
    ensures Swept(base, 100) == base
    ensures forall j, k :: 0 <= j < k < 201 ==> Swept(base, j) != Swept(base, k)
  {
    forall k: nat | k <= 201 ensures Swept(base, k) == base - PORT_RANGE + STEP * k {
      StraightSwept(base, k);
    }
    if -PORT_RANGE <= q - base <= PORT_RANGE && (q - base) % STEP == 0 {
      var k := (q - base + PORT_RANGE) / STEP;
      assert Swept(base, k) == q;
    }
  }

  /** 5n is no multiple of 32768 for so few steps. */
  lemma NoWholeTurn(n: nat, q: int)
    requires 0 < n <= 19861
    ensures STEP * n != PORTS * q
  {
    if q == 1 {
    } else if q == 2 {
    } else if q == 3 {
    }
  }

  lemma NoReturn(start: nat, j: nat, k: nat)
    requires j < k <= j + 19861
    ensures (start + STEP * j) % PORTS != (start + STEP * k) % PORTS
  {
    NoWholeTurn(k - j, (start + STEP * k) / PORTS - (start + STEP * j) / PORTS);
  }

  /** No sweep that ends, wrapping or not, targets a port twice. */
  lemma TargetsDistinct(base: Port, j: nat, k: nat)
    requires base != 64534 && base != 64535 && j < k < SweepLength(base)
    ensures Swept(base, j) != Swept(base, k)
  {
    SweptClosedForm(base, j);
    SweptClosedForm(base, k);
    NoReturn(PortMin(base), j, k);
  }

  lemma {:induction false} LowSwept(base: Port, k: nat)
    requires 24 <= base <= PORT_RANGE && k <= SweepLength(base)
    ensures Swept(base, k) == 1024 + STEP * k
  {
    if k == 0 {
    } else {
      LowSwept(base, k - 1);
    }
  }

  lemma LowLength(base: Port, k: nat)
    requires 24 <= base <= PORT_RANGE
    ensures k < SweepLength(base) <==> 1024 + STEP * k <= base + PORT_RANGE
  {
  }

  lemma LowTarget(base: Port, k: nat)
    requires 24 <= base <= PORT_RANGE && k < SweepLength(base)
    ensures Swept(base, k) == 1024 + STEP * k <= base + PORT_RANGE
  {
    LowSwept(base, k);
    LowLength(base, k);
  }

  lemma LowTargeted(base: Port, q: Port) returns (k: nat)
    requires 24 <= base <= PORT_RANGE && 1024 <= q <= base + PORT_RANGE && (q - 1024) % STEP == 0
    ensures k < SweepLength(base) && Swept(base, k) == q
  {
    k := (q - 1024) / STEP;
    LowLength(base, k);
    LowSwept(base, k);
  }

  lemma OnGrid(k: nat)
    ensures (STEP * k) % STEP == 0
  {
  }

  /**
   A base of 1000 or less moves the start of the sweep to 1024: the targets are exactly 1024, 1034 and
   so on up to 1000 above the base, and the base itself is never among them.
   */
  lemma LowCoverage(base: Port, q: Port)
    requires 24 <= base <= PORT_RANGE
    ensures (exists k :: 0 <= k < SweepLength(base) && Swept(base, k) == q)
      <==> 1024 <= q <= base + PORT_RANGE && (q - 1024) % STEP == 0
    ensures forall k :: 0 <= k < SweepLength(base) ==> Swept(base, k) != base
  {
    forall k: nat | k < SweepLength(base)
      ensures 1024 <= Swept(base, k) <= base + PORT_RANGE && (Swept(base, k) - 1024) % STEP == 0
    {
      LowTarget(base, k);
      OnGrid(k);
    }
    if 1024 <= q <= base + PORT_RANGE && (q - 1024) % STEP == 0 {
      var k := LowTargeted(base, q);
    }
  }
}
