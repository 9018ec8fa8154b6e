/**
 The attribute walk of the two response parsers, on bytes: the one of test3 rounds every length up
 to a multiple of four, the one of STUNExternalIP.c does not. Related here to the list of
 attributes that the bytes encode.
 */
module StunWalk {
  import opened Words
  import opened StunMessage

  /** Where a walk stopped: at an XOR-MAPPED-ADDRESS, or at or beyond the end of the message. */
  datatype Stop = Found(at: nat) | Exhausted(at: nat)

  function TypeAt(b: bytes, at: nat): (t: nat)
    requires at + 4 <= |b|
  {
    Be16(b[at..at + 2])
  }

  function LengthAt(b: bytes, at: nat): (n: nat)
    requires at + 4 <= |b|
  {
    Be16(b[at + 2..at + 4])
  }

  /** How far the cursor moves over an attribute of this length. */
  function Stride(length: nat, padded: bool): nat {
    4 + length + if padded then Padding(length) else 0
  }

  /** Every read of a walk over the first len bytes stays inside the buffer b. */
  predicate Readable(b: bytes, len: nat, at: nat, padded: bool)
    decreases len - at
  {
    at < len ==>
      && at + 4 <= |b|
      && if TypeAt(b, at) == XOR_MAPPED_ADDRESS then at + 12 <= |b|
         else Readable(b, len, at + Stride(LengthAt(b, at), padded), padded)
  }

  function Walk(b: bytes, len: nat, at: nat, padded: bool): (s: Stop)
    requires Readable(b, len, at, padded)
    ensures s.Found? ==> at <= s.at < len && s.at + 12 <= |b| && TypeAt(b, s.at) == XOR_MAPPED_ADDRESS
    ensures s.Exhausted? ==> len <= s.at
    decreases len - at
  {
    if at >= len then Exhausted(at)
    else if TypeAt(b, at) == XOR_MAPPED_ADDRESS then Found(at)
    else Walk(b, len, at + Stride(LengthAt(b, at), padded), padded)
  }

  /** The offsets at which the walk reads an attribute header, in order. */
  function Cursors(b: bytes, len: nat, at: nat, padded: bool): (c: seq<nat>)
    requires Readable(b, len, at, padded)
    decreases len - at
  {
    if at >= len then []
    else if TypeAt(b, at) == XOR_MAPPED_ADDRESS then [at]
    else [at] + Cursors(b, len, at + Stride(LengthAt(b, at), padded), padded)
  }

  // ---------------------------------------------------------------- the walk follows the attribute list

  lemma Middle(x: bytes, y: bytes, z: bytes)
    ensures (x + y + z)[|x|..|x| + |y|] == y
  {
  }

  lemma AttributeAt(b: bytes, pre: bytes, a: Attribute, rest: bytes)
    requires a.Valid() && b == pre + a.Encode() + rest
    ensures |pre| + 4 <= |b| && TypeAt(b, |pre|) == a.typ && LengthAt(b, |pre|) == |a.value|
  {
    var t, l, more := Bytes16(a.typ), Bytes16(|a.value|), a.value + a.padding + rest;
    assert b == pre + t + (l + more);
    Middle(pre, t, l + more);
    assert b == (pre + t) + l + more;
    Middle(pre + t, l, more);
  }

  lemma Regroup(x: bytes, y: bytes, z: bytes, w: bytes)
    ensures x + (y + z) + w == (x + y) + z + w
    ensures x + (y + z) + w == x + y + (z + w)
  {
  }

  /** What a walk sees at the start of an encoded list, and how the bytes look from the next attribute. */
  lemma FirstAttributeAt(b: bytes, pre: bytes, attrs: seq<Attribute>, stale: bytes) returns (next: bytes)
    requires AllValid(attrs) && attrs != [] && b == pre + EncodeAll(attrs) + stale
    ensures |pre| + 4 <= |b|
    ensures TypeAt(b, |pre|) == attrs[0].typ && LengthAt(b, |pre|) == |attrs[0].value|
    ensures |next| == |pre| + attrs[0].Size() && b == next + EncodeAll(attrs[1..]) + stale
  {
    next := pre + attrs[0].Encode();
    Regroup(pre, attrs[0].Encode(), EncodeAll(attrs[1..]), stale);
    AttributeAt(b, pre, attrs[0], EncodeAll(attrs[1..]) + stale);
  }

  lemma StrideOverAttribute(a: Attribute, padded: bool)
    requires a.Valid() && (padded || Aligned(a))
    ensures Stride(|a.value|, padded) == a.Size()
  {
  }

  /** An attribute the unpadded walk steps over exactly as the padded one does. */
  predicate Aligned(a: Attribute) {
    |a.value| % 4 == 0
  }

  /** Where attribute i starts, in a message whose attributes start at the given offset. */
  function Boundary(start: nat, attrs: seq<Attribute>, i: nat): nat
    requires i <= |attrs|
    decreases i
  {
    if i == 0 then start else Boundary(start + attrs[0].Size(), attrs[1..], i - 1)
  }

  /** Where the first n attributes start. */
  function Boundaries(start: nat, attrs: seq<Attribute>, n: nat): (c: seq<nat>)
    requires n <= |attrs|
    ensures |c| == n
    decreases n
  {
    if n == 0 then [] else [start] + Boundaries(start + attrs[0].Size(), attrs[1..], n - 1)
  }

  lemma {:induction false} BoundariesAt(start: nat, attrs: seq<Attribute>, n: nat, k: nat)
    requires k < n <= |attrs|
    ensures Boundaries(start, attrs, n)[k] == Boundary(start, attrs, k)
    decreases n
  {
    if k == 0 {
    } else {
      BoundariesAt(start + attrs[0].Size(), attrs[1..], n - 1, k - 1);
    }
  }

  /** Where a walk over an encoded attribute list must stop. */
  function StopOf(start: nat, attrs: seq<Attribute>): Stop
  {
    var i := FirstMapped(attrs);
    if i < |attrs| then Found(Boundary(start, attrs, i)) else Exhausted(start + Length(attrs))
  }

  /** How many headers it must read: up to and with the first XOR-MAPPED-ADDRESS. */
  function HeaderCount(attrs: seq<Attribute>): (n: nat)
    ensures n <= |attrs|
  {
    var i := FirstMapped(attrs);
    if i < |attrs| then i + 1 else i
  }

  /** And where they are. */
  function HeadersOf(start: nat, attrs: seq<Attribute>): seq<nat>
  {
    Boundaries(start, attrs, HeaderCount(attrs))
  }

  ghost predicate FollowsList(b: bytes, start: nat, attrs: seq<Attribute>, padded: bool)
  {
    var len := start + Length(attrs);
    && Readable(b, len, start, padded)
    && Walk(b, len, start, padded) == StopOf(start, attrs)
    && Cursors(b, len, start, padded) == HeadersOf(start, attrs)
  }

  lemma HeadersShift(start: nat, attrs: seq<Attribute>, m: nat)
    requires m < |attrs|
    ensures Boundaries(start, attrs, m + 1) == [start] + Boundaries(start + attrs[0].Size(), attrs[1..], m)
  {
  }

  lemma ListShifts(start: nat, attrs: seq<Attribute>)
    requires attrs != [] && !IsMapped(attrs[0])
    ensures var next := start + attrs[0].Size();
      && start + Length(attrs) == next + Length(attrs[1..])
      && StopOf(start, attrs) == StopOf(next, attrs[1..])
      && HeadersOf(start, attrs) == [start] + HeadersOf(next, attrs[1..])
  {
    CountShifts(attrs);
    HeadersShift(start, attrs, HeaderCount(attrs[1..]));
  }

  lemma CountShifts(attrs: seq<Attribute>)
    requires attrs != [] && !IsMapped(attrs[0])
    ensures FirstMapped(attrs) == FirstMapped(attrs[1..]) + 1
    ensures HeaderCount(attrs) == HeaderCount(attrs[1..]) + 1
  {
  }

  lemma ReadableFirst(b: bytes, len: nat, at: nat, next: nat, padded: bool)
    requires at < len && at + 4 <= |b| && TypeAt(b, at) != XOR_MAPPED_ADDRESS
    requires next == at + Stride(LengthAt(b, at), padded) && Readable(b, len, next, padded)
    ensures Readable(b, len, at, padded)
  {
  }

  /** The walk goes on from the header at the cursor. */
  lemma WalkOn(b: bytes, len: nat, at: nat, padded: bool)
    requires at < len && Readable(b, len, at, padded) && at + 4 <= |b| && TypeAt(b, at) != XOR_MAPPED_ADDRESS
    ensures var next := at + Stride(LengthAt(b, at), padded);
      Readable(b, len, next, padded) && Walk(b, len, at, padded) == Walk(b, len, next, padded)
  {
  }

  /** And so do the headers it reads. */
  lemma CursorsOn(b: bytes, len: nat, at: nat, padded: bool)
    requires at < len && Readable(b, len, at, padded) && at + 4 <= |b| && TypeAt(b, at) != XOR_MAPPED_ADDRESS
    ensures var next := at + Stride(LengthAt(b, at), padded);
      Readable(b, len, next, padded) && Cursors(b, len, at, padded) == [at] + Cursors(b, len, next, padded)
  {
  }

  lemma FollowsFirst(b: bytes, start: nat, attrs: seq<Attribute>, padded: bool)
    requires attrs != [] && !IsMapped(attrs[0])
    requires start + 4 <= |b| && TypeAt(b, start) == attrs[0].typ
    requires Stride(LengthAt(b, start), padded) == attrs[0].Size()
    requires FollowsList(b, start + attrs[0].Size(), attrs[1..], padded)
    ensures FollowsList(b, start, attrs, padded)
  {
    var next, len := start + attrs[0].Size(), start + Length(attrs);
    ListShifts(start, attrs);
    ReadableFirst(b, len, start, next, padded);
    WalkOn(b, len, start, padded);
    CursorsOn(b, len, start, padded);
  }

  lemma FollowsMapped(b: bytes, start: nat, attrs: seq<Attribute>, padded: bool)
    requires attrs != [] && IsMapped(attrs[0])
    requires start + 12 <= |b| && TypeAt(b, start) == attrs[0].typ
    ensures FollowsList(b, start, attrs, padded)
  {
    assert Length(attrs) >= attrs[0].Size() >= 4;
    assert Boundary(start, attrs, 0) == start && Boundaries(start, attrs, 1) == [start];
  }

  /** The first XOR-MAPPED-ADDRESS has an IPv4 value; the unpadded walk needs aligned attributes before it. */
  ghost predicate Walkable(attrs: seq<Attribute>, padded: bool) {
    && (FirstMapped(attrs) < |attrs| ==> |attrs[FirstMapped(attrs)].value| >= 8)
    && (padded || forall i :: 0 <= i < FirstMapped(attrs) ==> Aligned(attrs[i]))
  }

  lemma WalkableTail(attrs: seq<Attribute>, padded: bool)
    requires attrs != [] && !IsMapped(attrs[0]) && Walkable(attrs, padded)
    ensures Walkable(attrs[1..], padded) && (padded || Aligned(attrs[0]))
  {
    assert FirstMapped(attrs) == 1 + FirstMapped(attrs[1..]);
    assert forall i :: 0 <= i < FirstMapped(attrs[1..]) ==> attrs[1..][i] == attrs[i + 1];
  }

  /**
   The padded walk over any encoded list, and the unpadded one when every attribute before the
   first XOR-MAPPED-ADDRESS is aligned, reads its headers exactly at the attribute boundaries and
   stops at the first XOR-MAPPED-ADDRESS, or exactly at the end of the message.
   `stale` is whatever the buffer holds beyond the message.
   */
  lemma {:induction false} WalkFollowsList(b: bytes, pre: bytes, attrs: seq<Attribute>, stale: bytes, padded: bool)
    requires AllValid(attrs) && Walkable(attrs, padded) && b == pre + EncodeAll(attrs) + stale
    ensures FollowsList(b, |pre|, attrs, padded)
    decreases attrs
  {
    if attrs == [] {
    } else {
      var next := FirstAttributeAt(b, pre, attrs, stale);
      if IsMapped(attrs[0]) {
        FollowsMapped(b, |pre|, attrs, padded);
      } else {
        WalkableTail(attrs, padded);
        StrideOverAttribute(attrs[0], padded);
        WalkFollowsList(b, next, attrs[1..], stale, padded);
        FollowsFirst(b, |pre|, attrs, padded);
      }
    }
  }

  lemma SumAligned(x: int, y: int)
    requires x % 4 == 0 && y % 4 == 0
    ensures (x + y) % 4 == 0
  {
  }

  lemma {:induction false} BoundaryOnGrid(start: nat, attrs: seq<Attribute>, k: nat)
    requires AllValid(attrs) && k <= |attrs|
    ensures (Boundary(start, attrs, k) - start) % 4 == 0
    decreases k
  {
    if k == 0 {
    } else {
      var n := attrs[0].Size();
      AttributeIsAligned(attrs[0]);
      BoundaryOnGrid(start + n, attrs[1..], k - 1);
      assert Boundary(start, attrs, k) == Boundary(start + n, attrs[1..], k - 1);
      SumAligned(Boundary(start + n, attrs[1..], k - 1) - (start + n), n);
    }
  }

  lemma {:induction false} BoundaryInside(start: nat, attrs: seq<Attribute>, k: nat)
    requires k < |attrs|
    ensures Boundary(start, attrs, k + 1) == Boundary(start, attrs, k) + attrs[k].Size() <= start + Length(attrs)
    decreases k
  {
    if k == 0 {
    } else {
      BoundaryInside(start + attrs[0].Size(), attrs[1..], k - 1);
    }
  }

  /**
   The headers read by the padded walk lie on the four byte grid, one attribute apart, and each
   attribute whose header is read lies wholly inside the message.
   */
  lemma HeadersOnGrid(start: nat, attrs: seq<Attribute>, k: nat)
    requires AllValid(attrs) && k < |attrs| && k <= FirstMapped(attrs)
    ensures var c := HeadersOf(start, attrs);
      && k < |c|
      && (c[k] - start) % 4 == 0
      && c[k] + attrs[k].Size() <= start + Length(attrs)
      && (k + 1 < |c| ==> c[k + 1] == c[k] + attrs[k].Size())
  {
    var n := |HeadersOf(start, attrs)|;
    BoundariesAt(start, attrs, n, k);
    if k + 1 < n {
      BoundariesAt(start, attrs, n, k + 1);
    }
    BoundaryOnGrid(start, attrs, k);
    BoundaryInside(start, attrs, k);
  }
}
