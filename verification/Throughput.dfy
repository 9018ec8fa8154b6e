/**
 The iperf style throughput test of test3: the statistics both ends keep, the reports they print,
 and the two loops that feed them. Times are whole microseconds since the epoch, rates exact reals.
 */
module Throughput {
  const PACKET_SIZE := 8192
  const TEST_DURATION := 10
  const REPORT_INTERVAL := 1

  function Sec(t: nat): nat {
    t / 1_000_000
  }

  /** A printed line: the interval since the previous report and the bytes counted in it. */
  datatype Report = Report(from: nat, to: nat, bytes: nat)

  /** struct test_stats with the lines printed so far; total_packets is 32 bits wide. */
  datatype Stats = Stats(totalBytes: nat, totalPackets: nat, start: nat, last: nat, printed: seq<Report>)

  /** What one pass sees: the clock, and the length sent or received (not positive if nothing was). */
  datatype Sample = Sample(now: nat, len: int)

  function Init(now: nat): Stats {
    Stats(0, 0, now, now, [])
  }

  function Count(s: Stats, len: nat): Stats {
    s.(totalBytes := s.totalBytes + len, totalPackets := (s.totalPackets + 1) % 0x1_0000_0000)
  }

  function Print(s: Stats, now: nat): Stats {
    s.(totalBytes := 0, last := now, printed := s.printed + [Report(s.last, now, s.totalBytes)])
  }

  predicate Due(s: Stats, now: nat) {
    Sec(now) >= Sec(s.last) + REPORT_INTERVAL
  }

  /** One pass of either loop. */
  function Pass(s: Stats, x: Sample): Stats {
    if x.len <= 0 then s
    else
      var c := Count(s, x.len);
      if Due(c, x.now) then Print(c, x.now) else c
  }

  function After(start: nat, xs: seq<Sample>): Stats {
    if xs == [] then Init(start) else Pass(After(start, xs[..|xs| - 1]), xs[|xs| - 1])
  }

  // ---------------------------------------------------------------- the code

  class TestStats {
    var totalBytes: nat
    var totalPackets: nat
    var startTime: nat
    var lastReport: nat
    var printed: seq<Report>

    ghost function View(): Stats
      reads this
    {
      Stats(totalBytes, totalPackets, startTime, lastReport, printed)
    }

    constructor (now: nat)
      ensures View() == Init(now)
    {
      totalBytes, totalPackets, startTime, lastReport, printed := 0, 0, now, now, [];
    }

    method PrintStats(now: nat)
      modifies this
      ensures View() == Print(old(View()), now)
    {
      printed := printed + [Report(lastReport, now, totalBytes)];
      totalBytes := 0;
      lastReport := now;
    }

    /** The body both loops share. */
    method Record(x: Sample)
      modifies this
      ensures View() == Pass(old(View()), x) && startTime == old(startTime)
    {
      if x.len > 0 {
        totalBytes := totalBytes + x.len;
        totalPackets := (totalPackets + 1) % 0x1_0000_0000;
        if x.now / 1_000_000 >= lastReport / 1_000_000 + REPORT_INTERVAL {
          PrintStats(x.now);
        }
      }
    }
  }

  /** The header of an outgoing packet. */
  datatype Packet = Packet(id: nat, sec: nat, usec: nat)

  function Stamped(id: nat, now: nat): Packet {
    Packet(id % 0x1_0000_0000, Sec(now), now % 1_000_000)
  }

  /** The headers of the packets sent in these passes. */
  function Packets(xs: seq<Sample>): seq<Packet> {
    if xs == [] then [] else Packets(xs[..|xs| - 1]) + [Stamped(|xs| - 1, xs[|xs| - 1].now)]
  }

  lemma OnePassMore(start: nat, xs: seq<Sample>, n: nat)
    requires n < |xs|
    ensures After(start, xs[..n + 1]) == Pass(After(start, xs[..n]), xs[n])
    ensures Packets(xs[..n + 1]) == Packets(xs[..n]) + [Stamped(n, xs[n].now)]
  {
    assert xs[..n + 1][..n] == xs[..n];
  }

  lemma IdWraps(n: nat)
    ensures (n % 0x1_0000_0000 + 1) % 0x1_0000_0000 == (n + 1) % 0x1_0000_0000
  {
  }

  /** The ten seconds are over. */
  predicate Over(start: nat, now: nat) {
    Sec(now) >= Sec(start) + TEST_DURATION
  }

  /** Every reading is within the ten seconds, as those of the client's passes are. */
  ghost predicate InTest(start: nat, xs: seq<Sample>) {
    forall i :: 0 <= i < |xs| ==> !Over(start, xs[i].now)
  }

  /** run_iperf_server as far as it got through these datagrams; it has no end of its own. */
  method RunIperfServer(start: nat, xs: seq<Sample>) returns (stats: TestStats)
    ensures fresh(stats) && stats.View() == After(start, xs)
  {
    stats := new TestStats(start);
    for i := 0 to |xs|
      invariant fresh(stats) && stats.View() == After(start, xs[..i])
    {
      OnePassMore(start, xs, i);
      stats.Record(xs[i]);
    }
    assert xs[..|xs|] == xs;
  }

  /**
   run_iperf_client over these clock readings and send results, with `end` the reading after the
   loop. `n` packets are sent before the first reading that is past the ten seconds; if there is
   none, the run is not finished and the last report still to come.
   */
  method RunIperfClient(start: nat, xs: seq<Sample>, end: nat)
    returns (stats: TestStats, finished: bool, n: nat, packets: seq<Packet>)
    ensures fresh(stats) && n <= |xs| && InTest(start, xs[..n])
    ensures finished == (n < |xs|) && (finished ==> xs[n].now / 1_000_000 >= start / 1_000_000 + 10)
    ensures forall i :: 0 <= i < n ==> xs[i].now / 1_000_000 < start / 1_000_000 + 10
    ensures stats.View() == if finished then Print(After(start, xs[..n]), end) else After(start, xs[..n])
    ensures packets == Packets(xs[..n])
  {
    stats := new TestStats(start);
    n, packets := 0, [];
    var packetId := 0;
    while n < |xs|
      invariant fresh(stats) && n <= |xs| && InTest(start, xs[..n])
      invariant stats.View() == After(start, xs[..n]) && stats.startTime == start
      invariant packetId == n % 0x1_0000_0000 && packets == Packets(xs[..n])
    {
      if Over(stats.startTime, xs[n].now) {
        stats.PrintStats(end);
        return stats, true, n, packets;
      }
      OnePassMore(start, xs, n);
      IdWraps(n);
      packets := packets + [Packet(packetId, Sec(xs[n].now), xs[n].now % 1_000_000)];
      packetId := (packetId + 1) % 0x1_0000_0000;
      stats.Record(xs[n]);
      n := n + 1;
    }
    return stats, false, n, packets;
  }
}
