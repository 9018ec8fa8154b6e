/** What the reports of a throughput test add up to, for every sequence of clock readings and lengths. */
module ThroughputFacts {
  import opened Throughput

  function Bytes(xs: seq<Sample>): nat {
    if xs == [] then 0
    else Bytes(xs[..|xs| - 1]) + if xs[|xs| - 1].len > 0 then xs[|xs| - 1].len else 0
  }

  function Reported(rs: seq<Report>): nat {
    if rs == [] then 0 else Reported(rs[..|rs| - 1]) + rs[|rs| - 1].bytes
  }

  lemma PrintAdds(s: Stats, now: nat)
    ensures Reported(Print(s, now).printed) == Reported(s.printed) + s.totalBytes
  {
    assert Print(s, now).printed[..|s.printed|] == s.printed;
  }

  // ---------------------------------------------------------------- conservation

  /** Nothing is lost to the reset at each report: reported and pending bytes are all bytes that went through. */
  lemma {:induction false} BytesConserved(start: nat, xs: seq<Sample>)
    ensures Reported(After(start, xs).printed) + After(start, xs).totalBytes == Bytes(xs)
  {
    if xs == [] {
    } else {
      var x, s := xs[|xs| - 1], After(start, xs[..|xs| - 1]);
      BytesConserved(start, xs[..|xs| - 1]);
      if x.len > 0 {
        PrintAdds(Count(s, x.len), x.now);
      }
    }
  }

  /** A finished client has reported every byte it sent. */
  lemma ClientReportsEverything(start: nat, xs: seq<Sample>, end: nat)
    ensures Reported(Print(After(start, xs), end).printed) == Bytes(xs)
  {
    BytesConserved(start, xs);
    PrintAdds(After(start, xs), end);
  }

  function Positive(xs: seq<Sample>): nat {
    if xs == [] then 0 else Positive(xs[..|xs| - 1]) + if xs[|xs| - 1].len > 0 then 1 else 0
  }

  /** total_packets counts the packets that went through, modulo 2^32. */
  lemma {:induction false} PacketsCounted(start: nat, xs: seq<Sample>)
    ensures After(start, xs).totalPackets == Positive(xs) % 0x1_0000_0000 && Positive(xs) <= |xs|
  {
    if xs == [] {
    } else {
      PacketsCounted(start, xs[..|xs| - 1]);
      IdWraps(Positive(xs[..|xs| - 1]));
    }
  }

  /** Pending bytes never exceed the packets' total size, so 64 bits hold them for 2^51 packets without a report. */
  lemma {:induction false} PendingBytesFit(start: nat, xs: seq<Sample>)
    requires forall i :: 0 <= i < |xs| ==> xs[i].len <= PACKET_SIZE
    ensures After(start, xs).totalBytes <= 8192 * |xs|
  {
    if xs == [] {
    } else {
      PendingBytesFit(start, xs[..|xs| - 1]);
    }
  }

  // ---------------------------------------------------------------- tiling

  /** The intervals follow each other without gap or overlap from start to last. */
  ghost predicate Tiles(rs: seq<Report>, start: nat, last: nat) {
    if rs == [] then start == last
    else rs[|rs| - 1].to == last && Tiles(rs[..|rs| - 1], start, rs[|rs| - 1].from)
  }

  lemma PrintTiles(s: Stats, now: nat)
    requires Tiles(s.printed, s.start, s.last)
    ensures Tiles(Print(s, now).printed, s.start, now)
  {
    assert Print(s, now).printed[..|s.printed|] == s.printed;
  }

  ghost predicate Forward(rs: seq<Report>) {
    forall i :: 0 <= i < |rs| ==> rs[i].to >= rs[i].from + 1
  }

  /**
   Whatever the clock does: reports tile the span from start to the last one, and each made in a
   loop spans at least a microsecond.
   */
  lemma {:induction false} ReportsTile(start: nat, xs: seq<Sample>)
    ensures var s := After(start, xs); s.start == start && Tiles(s.printed, start, s.last) && Forward(s.printed)
  {
    if xs == [] {
    } else {
      var x, s := xs[|xs| - 1], After(start, xs[..|xs| - 1]);
      ReportsTile(start, xs[..|xs| - 1]);
      if x.len > 0 {
        PrintTiles(Count(s, x.len), x.now);
      }
    }
  }

  // ---------------------------------------------------------------- rates

  function Seconds(r: Report): real {
    (r.to - r.from) as real / 1000000.0
  }

  /** Bits per second as print_stats computes it. */
  function Rate(r: Report): real
    requires r.to > r.from
  {
    (r.bytes as real * 8.0) / Seconds(r)
  }

  /** Sum over the reports of rate times elapsed time. */
  function BitsByRate(rs: seq<Report>): real
    requires Forward(rs)
  {
    if rs == [] then 0.0
    else BitsByRate(rs[..|rs| - 1]) + Rate(rs[|rs| - 1]) * Seconds(rs[|rs| - 1])
  }

  lemma RateTimesTime(r: Report)
    requires r.to > r.from
    ensures Rate(r) * Seconds(r) == 8.0 * r.bytes as real
  {
    Cancel(r.bytes as real * 8.0, Seconds(r));
  }

  lemma Cancel(x: real, y: real)
    requires y != 0.0
    ensures x / y * y == x
  {
  }

  lemma {:induction false} RatesWeighBytes(rs: seq<Report>)
    requires Forward(rs)
    ensures BitsByRate(rs) == 8.0 * Reported(rs) as real
  {
    if rs == [] {
    } else {
      RatesWeighBytes(rs[..|rs| - 1]);
      RateTimesTime(rs[|rs| - 1]);
    }
  }

  /**
   The time-weighted rates of a finished client add up to eight times the bytes it sent, if its last
   interval is not empty.
   */
  lemma WeightedAverage(start: nat, xs: seq<Sample>, end: nat)
    requires end > After(start, xs).last
    ensures var rs := Print(After(start, xs), end).printed;
      Forward(rs) && BitsByRate(rs) == 8.0 * Bytes(xs) as real
  {
    ReportsTile(start, xs);
    ClientReportsEverything(start, xs, end);
    RatesWeighBytes(Print(After(start, xs), end).printed);
  }

  // ---------------------------------------------------------------- bounds

  lemma {:induction false} ReportsPerSecond(start: nat, xs: seq<Sample>)
    requires InTest(start, xs)
    ensures var s := After(start, xs); |s.printed| <= Sec(s.last) - Sec(start) <= 9
  {
    if xs == [] {
    } else {
      ReportsPerSecond(start, xs[..|xs| - 1]);
    }
  }

  /** Pass i got something through in a later second than the start and every pass before it that did. */
  ghost predicate NewSecond(start: nat, xs: seq<Sample>, i: nat)
    requires i < |xs|
  {
    && xs[i].len > 0
    && xs[i].now / 1_000_000 > start / 1_000_000
    && forall j :: 0 <= j < i && xs[j].len > 0 ==> xs[i].now / 1_000_000 > xs[j].now / 1_000_000
  }

  ghost function NewSeconds(start: nat, xs: seq<Sample>): nat {
    if xs == [] then 0
    else NewSeconds(start, xs[..|xs| - 1]) + if NewSecond(start, xs, |xs| - 1) then 1 else 0
  }

  /** The second of the last report is the latest in which anything got through, or that of the start. */
  ghost predicate LatestSecond(start: nat, xs: seq<Sample>, second: nat) {
    && second >= start / 1_000_000
    && (forall j :: 0 <= j < |xs| && xs[j].len > 0 ==> second >= xs[j].now / 1_000_000)
    && (second == start / 1_000_000 || exists j :: 0 <= j < |xs| && xs[j].len > 0 && second == xs[j].now / 1_000_000)
  }

  lemma LatestKept(start: nat, xs: seq<Sample>, x: Sample, second: nat)
    requires LatestSecond(start, xs, second) && (x.len > 0 ==> x.now / 1_000_000 <= second)
    ensures LatestSecond(start, xs + [x], second)
    ensures !NewSecond(start, xs + [x], |xs|)
  {
    var ys := xs + [x];
    if second != start / 1_000_000 {
      var j :| 0 <= j < |xs| && xs[j].len > 0 && second == xs[j].now / 1_000_000;
      assert ys[j].len > 0 && second == ys[j].now / 1_000_000;
    }
  }

  lemma LatestReplaced(start: nat, xs: seq<Sample>, x: Sample, second: nat)
    requires LatestSecond(start, xs, second) && x.len > 0 && x.now / 1_000_000 > second
    ensures LatestSecond(start, xs + [x], x.now / 1_000_000)
    ensures NewSecond(start, xs + [x], |xs|)
  {
    var ys := xs + [x];
    assert ys[|xs|] == x;
  }

  lemma PassReports(s: Stats, x: Sample)
    ensures var t := Pass(s, x);
      if x.len > 0 && x.now / 1_000_000 > s.last / 1_000_000 then |t.printed| == |s.printed| + 1 && t.last == x.now
      else t.printed == s.printed && t.last == s.last
  {
  }

  /**
   Whatever the clock does, a loop reports exactly at the passes that get something through in a
   second later than all before.
   */
  lemma {:induction false} ReportedExactly(start: nat, xs: seq<Sample>)
    ensures var s := After(start, xs);
      LatestSecond(start, xs, s.last / 1_000_000) && |s.printed| == NewSeconds(start, xs)
  {
    if xs == [] {
    } else {
      var earlier, x := xs[..|xs| - 1], xs[|xs| - 1];
      var second := After(start, earlier).last / 1_000_000;
      ReportedExactly(start, earlier);
      PassReports(After(start, earlier), x);
      assert earlier + [x] == xs;
      if x.len > 0 && x.now / 1_000_000 > second {
        LatestReplaced(start, earlier, x, second);
      } else {
        LatestKept(start, earlier, x, second);
      }
    }
  }

  /** So with a clock that does not run backwards no second goes unreported once something got through in it. */
  lemma NoSecondUnreported(start: nat, xs: seq<Sample>)
    requires xs != [] && xs[|xs| - 1].len > 0 && start <= xs[|xs| - 1].now
    requires forall j :: 0 <= j < |xs| ==> xs[j].now <= xs[|xs| - 1].now
    ensures After(start, xs).last / 1_000_000 == xs[|xs| - 1].now / 1_000_000
  {
    ReportedExactly(start, xs);
  }

  /** At most nine reports in the loop and one after it, even if the clock jumps. */
  lemma AtMostTenReports(start: nat, xs: seq<Sample>, end: nat)
    requires InTest(start, xs)
    ensures |Print(After(start, xs), end).printed| <= 10
  {
    ReportsPerSecond(start, xs);
  }

  /** Each pass sleeps at least a millisecond. */
  ghost predicate Paced(start: nat, xs: seq<Sample>) {
    xs == [] || (Paced(start, xs[..|xs| - 1]) && xs[|xs| - 1].now >= NextReading(start, xs[..|xs| - 1]))
  }

  /** The earliest next reading of the clock after these passes. */
  function NextReading(start: nat, xs: seq<Sample>): nat {
    if xs == [] then start else xs[|xs| - 1].now + 1000
  }

  lemma {:induction false} PacedTime(start: nat, xs: seq<Sample>)
    requires Paced(start, xs)
    ensures NextReading(start, xs) >= start + 1000 * |xs|
  {
    if xs == [] {
    } else {
      PacedTime(start, xs[..|xs| - 1]);
    }
  }

  lemma {:induction false} IdsInOrder(xs: seq<Sample>)
    requires |xs| <= 10000
    ensures |Packets(xs)| == |xs| && forall i :: 0 <= i < |xs| ==> Packets(xs)[i].id == i
  {
    if xs == [] {
    } else {
      IdsInOrder(xs[..|xs| - 1]);
    }
  }

  /** Every packet carries its number modulo 2^32 and the reading it was sent at, in seconds and microseconds. */
  lemma {:induction false} PacketsStamped(xs: seq<Sample>)
    ensures |Packets(xs)| == |xs|
    ensures forall i :: 0 <= i < |xs| ==>
      var p := Packets(xs)[i];
      p.id == i % 0x1_0000_0000 && p.usec < 1_000_000 && p.sec * 1_000_000 + p.usec == xs[i].now
  {
    if xs == [] {
    } else {
      PacketsStamped(xs[..|xs| - 1]);
    }
  }

  /** So at most 10000 packets are sent, and their numbers 0, 1, 2, ... do not wrap. */
  lemma AtMost10000Packets(start: nat, xs: seq<Sample>)
    requires Paced(start, xs) && InTest(start, xs)
    ensures |Packets(xs)| == |xs| <= 10000
    ensures forall i :: 0 <= i < |xs| ==> Packets(xs)[i].id == i
  {
    if xs != [] {
      PacedTime(start, xs);
      assert !Over(start, xs[|xs| - 1].now);
    }
    IdsInOrder(xs);
  }

  /** 8192 bytes a millisecond. */
  ghost predicate Slow(r: Report) {
    r.bytes * 1000 <= PACKET_SIZE * (r.to - r.from)
  }

  ghost predicate SlowAfterFirst(rs: seq<Report>) {
    forall i :: 1 <= i < |rs| ==> Slow(rs[i])
  }

  lemma {:induction false} RatesBounded(start: nat, xs: seq<Sample>)
    requires Paced(start, xs) && forall i :: 0 <= i < |xs| ==> xs[i].len <= PACKET_SIZE
    ensures var s := After(start, xs);
      && SlowAfterFirst(s.printed)
      && s.last <= NextReading(start, xs)
      && (s.printed == [] ==> s.totalBytes * 1000 <= PACKET_SIZE * (NextReading(start, xs) - s.last))
      && (s.printed != [] ==> s.totalBytes * 1000 <= PACKET_SIZE * (NextReading(start, xs) - 1000 - s.last))
      && (s.printed != [] ==> s.printed[0].bytes * 1000 <= PACKET_SIZE * (s.printed[0].to - s.printed[0].from + 1000))
  {
    if xs == [] {
    } else {
      RatesBounded(start, xs[..|xs| - 1]);
    }
  }

  lemma SlowInReals(bytes: nat, us: nat)
    requires bytes * 1000 <= PACKET_SIZE * us
    ensures 8.0 * bytes as real <= 65_536_000.0 * (us as real / 1000000.0)
  {
    assert bytes as real * 1000.0 <= 8192.0 * us as real;
  }

  lemma CancelFactor(a: real, b: real, y: real)
    requires y > 0.0 && a * y <= b * y
    ensures a <= b
  {
  }

  lemma QuotientBound(x: real, y: real, bound: real)
    requires y > 0.0 && x <= bound * y
    ensures x / y <= bound
  {
    Cancel(x, y);
    CancelFactor(x / y, bound, y);
  }

  lemma SlowMeansRate(r: Report)
    requires Slow(r) && r.to > r.from
    ensures Rate(r) <= 65_536_000.0
  {
    SlowInReals(r.bytes, r.to - r.from);
    QuotientBound(r.bytes as real * 8.0, Seconds(r), 65_536_000.0);
  }

  lemma FastInReals(bytes: nat, us: nat)
    requires bytes * 1000 > PACKET_SIZE * us
    ensures bytes as real * 8.0 > 65_536_000.0 * (us as real / 1000000.0)
  {
    assert bytes as real * 1000.0 > 8192.0 * us as real;
  }

  lemma Times(a: real, b: real, y: real)
    requires a <= b && y > 0.0
    ensures a * y <= b * y
  {
  }

  lemma QuotientAbove(x: real, y: real, bound: real)
    requires y > 0.0 && x > bound * y
    ensures x / y > bound
  {
    Cancel(x, y);
    if x / y <= bound {
      Times(x / y, bound, y);
      assert false;
    }
  }

  lemma FastMeansRate(r: Report)
    requires !Slow(r) && r.to > r.from
    ensures Rate(r) > 65_536_000.0
  {
    FastInReals(r.bytes, r.to - r.from);
    QuotientAbove(r.bytes as real * 8.0, Seconds(r), 65_536_000.0);
  }

  /** What print_stats shows for a report is at most 65.536 Mbit/s exactly when the report is slow. */
  lemma SlowExactly(r: Report)
    requires r.to > r.from
    ensures Rate(r) <= 65_536_000.0 <==> Slow(r)
  {
    if Slow(r) {
      SlowMeansRate(r);
    } else {
      FastMeansRate(r);
    }
  }

  /**
   A finished client: paced passes inside the ten seconds, the first at the given reading, and the
   final report after them.
   */
  ghost predicate ClientRun(start: nat, first: nat, xs: seq<Sample>, end: nat) {
    && xs != [] && xs[0].now == first
    && Paced(start, xs) && InTest(start, xs)
    && (forall i :: 0 <= i < |xs| ==> xs[i].len <= PACKET_SIZE)
    && end >= NextReading(start, xs) && Over(start, end)
  }

  function Reports(start: nat, xs: seq<Sample>, end: nat): seq<Report> {
    Print(After(start, xs), end).printed
  }

  ghost predicate AllSlow(rs: seq<Report>) {
    forall i :: 0 <= i < |rs| ==> Slow(rs[i])
  }

  /** Every report of a finished client after its first is at most 65.536 Mbit/s. */
  lemma ClientRateBound(start: nat, first: nat, xs: seq<Sample>, end: nat, k: nat)
    requires ClientRun(start, first, xs, end) && 1 <= k < |Reports(start, xs, end)|
    ensures var r := Reports(start, xs, end)[k]; r.to > r.from && Rate(r) <= 65_536_000.0
  {
    RatesBounded(start, xs);
    ReportsTile(start, xs);
    SlowMeansRate(Reports(start, xs, end)[k]);
  }

  /** With a millisecond before the first reading every packet has its millisecond. */
  lemma {:induction false} SlowFromTheStart(start: nat, xs: seq<Sample>)
    requires xs != [] && Paced(start, xs) && xs[0].now >= start + 1000
    requires forall i :: 0 <= i < |xs| ==> xs[i].len <= PACKET_SIZE
    ensures var s := After(start, xs);
      && AllSlow(s.printed)
      && s.last <= xs[|xs| - 1].now
      && s.totalBytes * 1000 <= PACKET_SIZE * (xs[|xs| - 1].now - s.last)
  {
    var earlier, x := xs[..|xs| - 1], xs[|xs| - 1];
    if earlier == [] {
      assert After(start, xs) == Pass(Init(start), x);
    } else {
      SlowFromTheStart(start, earlier);
    }
  }

  lemma SlowClient(start: nat, first: nat, xs: seq<Sample>, end: nat)
    requires ClientRun(start, first, xs, end) && first >= start + 1000
    ensures AllSlow(Reports(start, xs, end))
  {
    SlowFromTheStart(start, xs);
  }

  // ------------------------------ a full packet every millisecond until the second changes

  function Steady(first: nat, n: nat): seq<Sample> {
    seq(n, i requires 0 <= i => Sample(first + 1000 * i, PACKET_SIZE))
  }

  lemma NextSteady(first: nat, n: nat)
    ensures Steady(first, n + 1)[..n] == Steady(first, n)
    ensures Steady(first, n + 1)[n] == Sample(first + 1000 * n, PACKET_SIZE)
  {
  }

  lemma {:induction false} SteadyPaced(start: nat, first: nat, n: nat)
    requires start <= first
    ensures Paced(start, Steady(first, n))
    ensures n > 0 ==> NextReading(start, Steady(first, n)) == first + 1000 * n
  {
    if n == 0 {
    } else {
      SteadyPaced(start, first, n - 1);
      NextSteady(first, n - 1);
    }
  }

  /** Before the second changes nothing is reported. */
  lemma {:induction false} SteadyCounts(start: nat, first: nat, n: nat)
    requires n > 0 ==> Sec(first + 1000 * (n - 1)) <= Sec(start)
    ensures var s := After(start, Steady(first, n));
      s.printed == [] && s.last == start && s.totalBytes == 8192 * n
  {
    if n == 0 {
    } else {
      assert first + 1000 * (n - 2) <= first + 1000 * (n - 1);
      SteadyCounts(start, first, n - 1);
      NextSteady(first, n - 1);
    }
  }

  /** The packet sent in the next second goes into the first report, which then holds one too many. */
  lemma SteadyReports(start: nat, first: nat, n: nat)
    requires start <= first < start + 1000
    requires n > 0 ==> Sec(first + 1000 * (n - 1)) <= Sec(start)
    requires Sec(first + 1000 * n) > Sec(start)
    ensures var s := After(start, Steady(first, n + 1)); |s.printed| == 1 && !Slow(s.printed[0])
  {
    SteadyCounts(start, first, n);
    NextSteady(first, n);
  }

  /** The first of the readings first, first + 1000, ... in a later second. */
  ghost function LaterSecond(start: nat, at: nat): (n: nat)
    requires start <= at
    ensures n > 0 ==> Sec(at + 1000 * (n - 1)) <= Sec(start)
    ensures Sec(at + 1000 * n) > Sec(start)
    decreases start + 1_000_000 - at
  {
    if Sec(at) > Sec(start) then 0 else 1 + LaterSecond(start, at + 1000)
  }

  lemma FastClient(start: nat, first: nat) returns (xs: seq<Sample>, end: nat)
    requires start <= first < start + 1000
    ensures ClientRun(start, first, xs, end)
    ensures !AllSlow(Reports(start, xs, end))
  {
    var n := LaterSecond(start, first);
    xs := Steady(first, n + 1);
    end := start + 20_000_000;
    SteadyPaced(start, first, n + 1);
    SteadyReports(start, first, n);
    assert !Slow(Reports(start, xs, end)[0]);
  }

  /** Every report shows at most 65.536 Mbit/s. */
  ghost predicate Bounded(rs: seq<Report>) {
    forall i :: 0 <= i < |rs| ==> rs[i].to > rs[i].from && Rate(rs[i]) <= 65_536_000.0
  }

  lemma BoundedExactly(start: nat, first: nat, xs: seq<Sample>, end: nat)
    requires ClientRun(start, first, xs, end)
    ensures Bounded(Reports(start, xs, end)) <==> AllSlow(Reports(start, xs, end))
  {
    ReportsTile(start, xs);
    RatesBounded(start, xs);
    var rs := Reports(start, xs, end);
    forall i | 0 <= i < |rs| ensures rs[i].to > rs[i].from && (Rate(rs[i]) <= 65_536_000.0 <==> Slow(rs[i])) {
      SlowExactly(rs[i]);
    }
  }

  /**
   Exactly when the bound holds of every report, the first one included: a client that reads the
   clock for its first packet at least a millisecond after the start never exceeds it, and for every
   earlier first reading there are runs that do.
   */
  lemma RateBoundExact(start: nat, first: nat)
    requires start <= first
    ensures (forall xs, end :: ClientRun(start, first, xs, end) ==> Bounded(Reports(start, xs, end)))
      <==> first >= start + 1000
  {
    if first >= start + 1000 {
      forall xs, end | ClientRun(start, first, xs, end) ensures Bounded(Reports(start, xs, end)) {
        SlowClient(start, first, xs, end);
        BoundedExactly(start, first, xs, end);
      }
    } else {
      var xs, end := FastClient(start, first);
      BoundedExactly(start, first, xs, end);
    }
  }

  /** It can be twice the bound of the others: two packets within the millisecond before a full second. */
  lemma FirstReportExceeds()
    ensures var xs := [Sample(999_500, 8192), Sample(1_000_500, 8192)];
      && Paced(999_500, xs)
      && After(999_500, xs).printed == [Report(999_500, 1_000_500, 16384)]
      && Rate(After(999_500, xs).printed[0]) == 131_072_000.0
  {
    var x, y := Sample(999_500, 8192), Sample(1_000_500, 8192);
    var xs := [x, y];
    assert xs[..1] == [x] && [x][..0] == [];
    assert After(999_500, [x]) == Pass(Init(999_500), x);
    assert Paced(999_500, [x]);
  }

  // ---------------------------------------------------------------- client and server across a channel

  /**
   Both ends with the datagrams under way between them. The channel loses and reorders but does not
   duplicate; the server also counts datagrams that come from elsewhere.
   */
  datatype Link = Link(client: Stats, server: Stats, flight: seq<nat>, lost: nat, stray: nat)

  datatype LinkAction =
    | ClientPass(x: Sample)
    | Deliver(i: nat, now: nat)
    | Lose(i: nat)
    | Stray(x: Sample)

  predicate Possible(l: Link, a: LinkAction) {
    match a
    case ClientPass(_) => true
    case Deliver(i, _) => i < |l.flight|
    case Lose(i) => i < |l.flight|
    case Stray(_) => true
  }

  function Without(s: seq<nat>, i: nat): seq<nat>
    requires i < |s|
  {
    s[..i] + s[i + 1..]
  }

  function Moved(l: Link, a: LinkAction): Link
    requires Possible(l, a)
  {
    match a
    case ClientPass(x) => l.(client := Pass(l.client, x), flight := if x.len > 0 then l.flight + [x.len] else l.flight)
    case Deliver(i, now) => l.(server := Pass(l.server, Sample(now, l.flight[i])), flight := Without(l.flight, i))
    case Lose(i) => l.(lost := l.lost + l.flight[i], flight := Without(l.flight, i))
    case Stray(x) => l.(server := Pass(l.server, x), stray := l.stray + if x.len > 0 then x.len else 0)
  }

  function Sum(s: seq<nat>): nat {
    if s == [] then 0 else s[0] + Sum(s[1..])
  }

  lemma {:induction false} SumAppends(s: seq<nat>, n: nat)
    ensures Sum(s + [n]) == Sum(s) + n
  {
    if s == [] {
    } else {
      SumAppends(s[1..], n);
      assert (s + [n])[1..] == s[1..] + [n];
    }
  }

  lemma {:induction false} SumWithout(s: seq<nat>, i: nat)
    requires i < |s|
    ensures Sum(Without(s, i)) == Sum(s) - s[i]
  {
    if i == 0 {
      assert Without(s, 0) == s[1..];
    } else {
      SumWithout(s[1..], i - 1);
      assert Without(s, i)[1..] == Without(s[1..], i - 1);
    }
  }

  /** All bytes an end has counted, reported or not. */
  function Counted(s: Stats): nat {
    Reported(s.printed) + s.totalBytes
  }

  lemma PassCounts(s: Stats, x: Sample)
    ensures Counted(Pass(s, x)) == Counted(s) + if x.len > 0 then x.len else 0
  {
    if x.len > 0 {
      PrintAdds(Count(s, x.len), x.now);
    }
  }

  ghost predicate Balanced(l: Link) {
    Counted(l.client) + l.stray == Counted(l.server) + l.lost + Sum(l.flight)
  }

  lemma MoveKeepsBalance(l: Link, a: LinkAction)
    requires Possible(l, a) && Balanced(l)
    ensures Balanced(Moved(l, a))
  {
    match a
    case ClientPass(x) =>
      PassCounts(l.client, x);
      if x.len > 0 {
        SumAppends(l.flight, x.len);
      }
    case Deliver(i, now) =>
      PassCounts(l.server, Sample(now, l.flight[i]));
      SumWithout(l.flight, i);
    case Lose(i) => SumWithout(l.flight, i);
    case Stray(x) => PassCounts(l.server, x);
  }

  ghost predicate LinkRun(l: Link, acts: seq<LinkAction>, m: Link)
    decreases acts
  {
    if acts == [] then l == m
    else Possible(l, acts[0]) && LinkRun(Moved(l, acts[0]), acts[1..], m)
  }

  lemma {:induction false} RunKeepsBalance(l: Link, acts: seq<LinkAction>, m: Link)
    requires LinkRun(l, acts, m) && Balanced(l)
    ensures Balanced(m)
    decreases acts
  {
    if acts == [] {
    } else {
      MoveKeepsBalance(l, acts[0]);
      RunKeepsBalance(Moved(l, acts[0]), acts[1..], m);
    }
  }

  /**
   End to end, whatever both clocks do and whenever reports are made: the bytes the client has
   counted are those the server has, less what came from elsewhere, plus what was lost or is under way.
   */
  lemma EndToEnd(clientStart: nat, serverStart: nat, acts: seq<LinkAction>, l: Link)
    requires LinkRun(Link(Init(clientStart), Init(serverStart), [], 0, 0), acts, l)
    ensures Reported(l.client.printed) + l.client.totalBytes
         == Reported(l.server.printed) + l.server.totalBytes - l.stray + l.lost + Sum(l.flight)
  {
    RunKeepsBalance(Link(Init(clientStart), Init(serverStart), [], 0, 0), acts, l);
  }
}
