/**
 What the parsers make of messages built by the rules of RFC 5389: the round trip of the padded
 parser, when the unpadded one agrees with it, and how alignment makes the difference.
 */
module StunRoundTrip {
  import opened Common
  import opened Words
  import opened StunMessage
  import opened StunWalk
  import opened StunClient

  lemma Inner(b: bytes, lead: bytes, v: bytes, more: bytes, i: nat, j: nat)
    requires b == lead + v + more && i <= j <= |v|
    ensures b[|lead| + i..|lead| + j] == v[i..j]
  {
  }

  lemma ValueInside(b: bytes, pre: bytes, a: Attribute, rest: bytes) returns (lead: bytes, more: bytes)
    requires a.Valid() && b == pre + a.Encode() + rest
    ensures |lead| == |pre| + 4 && b == lead + a.value + more
  {
    var head := Bytes16(a.typ) + Bytes16(|a.value|);
    lead, more := pre + head, a.padding + rest;
    Assoc(pre, head + a.value, a.padding);
    Assoc(pre, head, a.value);
    Assoc(lead + a.value, a.padding, rest);
  }

  lemma MappedFields(b: bytes, pre: bytes, a: Attribute, rest: bytes)
    requires a.Valid() && |a.value| >= 8 && b == pre + a.Encode() + rest
    ensures |pre| + 12 <= |b|
    ensures b[|pre| + 6..|pre| + 8] == a.value[2..4]
    ensures b[|pre| + 8..|pre| + 12] == a.value[4..8]
  {
    var lead, more := ValueInside(b, pre, a, rest);
    Inner(b, lead, a.value, more, 2, 4);
    Inner(b, lead, a.value, more, 4, 8);
  }

  /** Unmasking undoes the masking of section 15.2. */
  lemma UnmaskMasked(ip: bytes, port: nat)
    requires |ip| == 4 && port < 0x10000
    ensures Xor16(Xor16(port, COOKIE_TOP), COOKIE_TOP) == port
    ensures XorBytes(Bytes32(Xor32(Be32(ip), MAGIC_COOKIE)), COOKIE_BYTES) == ip
  {
    Powers();
    XorTwice(16, port, COOKIE_TOP);
    XorTwice(32, Be32(ip), MAGIC_COOKIE);
    Cookie();
    var masked := Bytes32(Xor32(Be32(ip), MAGIC_COOKIE));
    XorByByte(masked, COOKIE_BYTES);
    Bytes32OfBe32(XorBytes(masked, COOKIE_BYTES));
    Bytes32OfBe32(ip);
  }

  /** The bytes at the start of attribute i are that attribute's encoding. */
  lemma {:induction false} AtBoundary(b: bytes, pre: bytes, attrs: seq<Attribute>, stale: bytes, i: nat, a: Attribute)
    returns (before: bytes, after: bytes)
    requires AllValid(attrs) && i < |attrs| && a == attrs[i] && b == pre + EncodeAll(attrs) + stale
    ensures |before| == Boundary(|pre|, attrs, i)
    ensures b == before + a.Encode() + after
    decreases i
  {
    if i == 0 {
      before, after := pre, EncodeAll(attrs[1..]) + stale;
      Regroup(pre, a.Encode(), EncodeAll(attrs[1..]), stale);
    } else {
      var next := FirstAttributeAt(b, pre, attrs, stale);
      before, after := AtBoundary(b, next, attrs[1..], stale, i - 1, a);
    }
  }

  /** A walk over the first len bytes of b, reading only those, comes upon this address and port. */
  ghost predicate Finds(b: bytes, len: nat, padded: bool, ip: bytes, port: nat) {
    && Readable(b, len, HEADER_SIZE, padded)
    && var stop := Walk(b, len, HEADER_SIZE, padded);
    && stop.Found? && stop.at + 12 <= len
    && IpAt(b, stop.at) == ip && PortAt(b, stop.at) == port
  }

  /** The first XOR-MAPPED-ADDRESS of the message is that of an IPv4 address and port. */
  predicate Carries(msg: Message, reserved: byte, ip: bytes, port: nat)
    requires |ip| == 4 && port < 0x10000
  {
    var i := FirstMapped(msg.attrs);
    i < |msg.attrs| && msg.attrs[i].value == MappedValue(reserved, ip, port)
  }

  /** A datagram in its buffer; `stale` is what the buffer holds behind it. */
  ghost predicate Holds(b: bytes, msg: Message, stale: bytes)
    requires msg.Valid()
  {
    b == msg.Encode() + stale
  }

  lemma ResponseType(b: bytes, msg: Message, stale: bytes)
    requires msg.Valid() && Holds(b, msg, stale)
    ensures IsResponse(b) <==> msg.typ == BINDING_RESPONSE
  {
    assert b[..2] == Bytes16(msg.typ);
  }

  lemma MappedValueParts(reserved: byte, ip: bytes, port: nat)
    requires |ip| == 4 && port < 0x10000
    ensures var v := MappedValue(reserved, ip, port);
      Xor16(Be16(v[2..4]), COOKIE_TOP) == port && XorBytes(v[4..8], COOKIE_BYTES) == ip
  {
    var v := MappedValue(reserved, ip, port);
    assert v[2..4] == Bytes16(Xor16(port, COOKIE_TOP));
    assert v[4..8] == Bytes32(Xor32(Be32(ip), MAGIC_COOKIE));
    UnmaskMasked(ip, port);
  }

  lemma AddressInside(start: nat, attrs: seq<Attribute>, i: nat)
    requires i < |attrs| && |attrs[i].value| >= 8
    ensures Boundary(start, attrs, i) + 12 <= start + Length(attrs)
  {
    BoundaryInside(start, attrs, i);
  }

  lemma FieldsAt(b: bytes, header: bytes, attrs: seq<Attribute>, stale: bytes, i: nat, a: Attribute, at: nat)
    requires AllValid(attrs) && i < |attrs| && a == attrs[i] && b == header + EncodeAll(attrs) + stale
    requires |a.value| >= 8 && at == Boundary(|header|, attrs, i)
    ensures at + 12 <= |b| && b[at + 6..at + 8] == a.value[2..4] && b[at + 8..at + 12] == a.value[4..8]
  {
    var before, after := AtBoundary(b, header, attrs, stale, i, a);
    MappedFields(b, before, a, after);
  }

  lemma MappedAddressAt(b: bytes, at: nat, v: bytes, reserved: byte, ip: bytes, port: nat)
    requires |ip| == 4 && port < 0x10000 && v == MappedValue(reserved, ip, port)
    requires at + 12 <= |b| && b[at + 6..at + 8] == v[2..4] && b[at + 8..at + 12] == v[4..8]
    ensures IpAt(b, at) == ip && PortAt(b, at) == port
  {
    MappedValueParts(reserved, ip, port);
  }

  lemma MessageFollows(b: bytes, msg: Message, stale: bytes, padded: bool)
    requires msg.Valid() && Walkable(msg.attrs, padded) && Holds(b, msg, stale)
    ensures FollowsList(b, HEADER_SIZE, msg.attrs, padded)
  {
    WalkFollowsList(b, Header(msg.typ, Length(msg.attrs), msg.id), msg.attrs, stale, padded);
  }

  /** The offset of the first XOR-MAPPED-ADDRESS. */
  function AddressOffset(msg: Message): nat {
    Boundary(HEADER_SIZE, msg.attrs, FirstMapped(msg.attrs))
  }

  lemma MessageAddress(b: bytes, msg: Message, stale: bytes, reserved: byte, ip: bytes, port: nat)
    requires msg.Valid() && |ip| == 4 && port < 0x10000 && Carries(msg, reserved, ip, port) && Holds(b, msg, stale)
    ensures var at := AddressOffset(msg); at + 12 <= msg.Size() <= |b| && IpAt(b, at) == ip && PortAt(b, at) == port
  {
    var i := FirstMapped(msg.attrs);
    AddressInside(HEADER_SIZE, msg.attrs, i);
    FieldsAt(b, Header(msg.typ, Length(msg.attrs), msg.id), msg.attrs, stale, i, msg.attrs[i], AddressOffset(msg));
    MappedAddressAt(b, AddressOffset(msg), msg.attrs[i].value, reserved, ip, port);
  }

  lemma FollowedTo(b: bytes, msg: Message, padded: bool, ip: bytes, port: nat)
    requires FollowsList(b, HEADER_SIZE, msg.attrs, padded) && FirstMapped(msg.attrs) < |msg.attrs|
    requires var at := AddressOffset(msg); at + 12 <= msg.Size() <= |b| && IpAt(b, at) == ip && PortAt(b, at) == port
    ensures Finds(b, msg.Size(), padded, ip, port)
    ensures Walk(b, msg.Size(), HEADER_SIZE, padded) == Found(AddressOffset(msg))
  {
  }

  /** Both walks over the same message, under the conditions of each. */
  lemma MessageFinds(b: bytes, msg: Message, stale: bytes, padded: bool, reserved: byte, ip: bytes, port: nat)
    requires msg.Valid() && |ip| == 4 && port < 0x10000 && Carries(msg, reserved, ip, port) && Holds(b, msg, stale)
    requires Walkable(msg.attrs, padded)
    ensures Finds(b, msg.Size(), padded, ip, port)
    ensures Walk(b, msg.Size(), HEADER_SIZE, padded) == Found(AddressOffset(msg))
  {
    MessageFollows(b, msg, stale, padded);
    MessageAddress(b, msg, stale, reserved, ip, port);
    FollowedTo(b, msg, padded, ip, port);
  }

  /**
   Round trip. For every valid Binding Response whose first XOR-MAPPED-ADDRESS is that of (ip, port),
   whatever precedes and follows it and whatever the buffer holds behind the message, the padded
   walk stays within the message, finds that attribute and unmasks exactly (ip, port).
   */
  lemma ParseOfEncode(b: bytes, msg: Message, stale: bytes, reserved: byte, ip: bytes, port: nat)
    requires msg.Valid() && msg.typ == BINDING_RESPONSE && Holds(b, msg, stale)
    requires |ip| == 4 && port < 0x10000 && Carries(msg, reserved, ip, port)
    ensures IsResponse(b) && Finds(b, msg.Size(), true, ip, port)
  {
    ResponseType(b, msg, stale);
    MessageFinds(b, msg, stale, true, reserved, ip, port);
  }

  /** The attribute a server answers with. */
  function MappedAttribute(reserved: byte, ip: bytes, port: nat): (a: Attribute)
    requires |ip| == 4 && port < 0x10000
    ensures a.Valid() && IsMapped(a) && |a.value| == 8 && a.Size() == 12
  {
    Attribute(XOR_MAPPED_ADDRESS, MappedValue(reserved, ip, port), [])
  }

  /** Every address and port can be asked about: the response with just this attribute is one the round trip covers. */
  lemma EveryAddressCarried(id: bytes, reserved: byte, ip: bytes, port: nat)
    requires |id| == 12 && |ip| == 4 && port < 0x10000
    ensures var msg := Message(BINDING_RESPONSE, id, [MappedAttribute(reserved, ip, port)]);
      msg.Valid() && Carries(msg, reserved, ip, port) && msg.Size() == 32
  {
    var attrs := [MappedAttribute(reserved, ip, port)];
    assert Length(attrs[1..]) == 0;
  }

  /** Without an XOR-MAPPED-ADDRESS the padded walk fails, having stopped exactly at the end of the message. */
  lemma ParseWithoutAddress(b: bytes, msg: Message, stale: bytes)
    requires msg.Valid() && FirstMapped(msg.attrs) == |msg.attrs| && Holds(b, msg, stale)
    ensures var len := msg.Size();
      Readable(b, len, HEADER_SIZE, true) && Walk(b, len, HEADER_SIZE, true) == Exhausted(len)
  {
    MessageFollows(b, msg, stale, true);
  }

  lemma PrintedAddresses(b: bytes, at: nat, ip: bytes, host: Endian)
    requires at + 12 <= |b| && IpAt(b, at) == ip
    ensures PrintedByInetNtop(FieldAt(b, at), host) == ip
    ensures PrintedFromHighByte(FieldAt(b, at), host) == if host.Big? then ip else Reverse4(ip)
  {
    InetNtopIsPortable(FieldAt(b, at), host);
    HighByteFirstDependsOnHost(FieldAt(b, at), host);
  }

  /**
   If every attribute before the first XOR-MAPPED-ADDRESS has a length divisible by four, both
   walks stop at the same offset, so both parsers report the same port; the address printed by
   STUNExternalIP.c is the same on a big-endian host and has its octets reversed on a little-endian one.
   */
  lemma ParsersAgree(b: bytes, msg: Message, stale: bytes, reserved: byte, ip: bytes, port: nat, host: Endian)
    requires msg.Valid() && Holds(b, msg, stale)
    requires |ip| == 4 && port < 0x10000 && Carries(msg, reserved, ip, port)
    requires forall i :: 0 <= i < FirstMapped(msg.attrs) ==> Aligned(msg.attrs[i])
    ensures Finds(b, msg.Size(), true, ip, port) && Finds(b, msg.Size(), false, ip, port)
    ensures Walk(b, msg.Size(), HEADER_SIZE, true) == Found(AddressOffset(msg))
    ensures Walk(b, msg.Size(), HEADER_SIZE, false) == Found(AddressOffset(msg))
    ensures var at := AddressOffset(msg);
      && at + 12 <= |b|
      && PrintedByInetNtop(FieldAt(b, at), host) == ip
      && PrintedFromHighByte(FieldAt(b, at), host) == if host.Big? then ip else Reverse4(ip)
  {
    MessageFinds(b, msg, stale, true, reserved, ip, port);
    MessageFinds(b, msg, stale, false, reserved, ip, port);
    MessageAddress(b, msg, stale, reserved, ip, port);
    PrintedAddresses(b, AddressOffset(msg), ip, host);
  }

  /** The round trip of the parser itself, run over the buffer a response was received into. */
  method ParseReceived(buffer: array<byte>, len: nat, endpoint: PublicEndpoint, host: Endian,
                       ghost msg: Message, ghost stale: bytes, ghost reserved: byte, ghost ip: bytes, ghost port: nat)
    returns (rc: int)
    requires msg.Valid() && msg.typ == BINDING_RESPONSE && Holds(buffer[..], msg, stale) && len == msg.Size()
    requires |ip| == 4 && port < 0x10000 && Carries(msg, reserved, ip, port)
    modifies endpoint
    ensures rc == 0 && endpoint.publicIp == ip && endpoint.publicPort == port
  {
    ParseOfEncode(buffer[..], msg, stale, reserved, ip, port);
    rc := ParseStunResponse(buffer, len, endpoint, host);
  }

  lemma IdentifierLast(first: bytes, id: bytes, rest: bytes, b: bytes)
    requires |first| == 8 && |id| == 12 && b == first + id + rest
    ensures b[8..HEADER_SIZE] == id
  {
    Middle(first, id, rest);
  }

  lemma IdentifierAt(b: bytes, msg: Message, stale: bytes)
    requires msg.Valid() && Holds(b, msg, stale)
    ensures HEADER_SIZE <= |b| && b[8..HEADER_SIZE] == msg.id
  {
    var first, attrs := Bytes16(msg.typ) + Bytes16(Length(msg.attrs)) + COOKIE_BYTES, EncodeAll(msg.attrs);
    Assoc(first + msg.id, attrs, stale);
    IdentifierLast(first, msg.id, attrs + stale, b);
  }

  /** And that of the other one, where the two agree. */
  method CheckReceived(buffer: array<byte>, len: nat, request: bytes, endpoint: PublicEndpoint, host: Endian,
                       ghost msg: Message, ghost stale: bytes, ghost reserved: byte, ghost ip: bytes, ghost port: nat)
    returns (rc: int)
    requires msg.Valid() && msg.typ == BINDING_RESPONSE && Holds(buffer[..], msg, stale) && len == msg.Size()
    requires |request| == HEADER_SIZE && msg.id == request[8..]
    requires |ip| == 4 && port < 0x10000 && Carries(msg, reserved, ip, port)
    requires forall i :: 0 <= i < FirstMapped(msg.attrs) ==> Aligned(msg.attrs[i])
    modifies endpoint
    ensures rc == 0 && endpoint.publicPort == port
    ensures endpoint.publicIp == if host.Big? then ip else Reverse4(ip)
  {
    ResponseType(buffer[..], msg, stale);
    IdentifierAt(buffer[..], msg, stale);
    ParsersAgree(buffer[..], msg, stale, reserved, ip, port, host);
    rc := CheckResponse(buffer, len, request, endpoint, host);
  }

  // ---------------------------------------------------------------- exactly when they agree

  /** A cursor just before an attribute cannot come to stand on it, whatever bytes it takes for headers. */
  lemma Overshoots(b: bytes, len: nat, at: nat, target: nat)
    requires at < target < at + 4 && Readable(b, len, at, false)
    ensures Walk(b, len, at, false) != Found(target)
  {
  }

  /** Twelve bytes of buffer behind the message are room enough for every walk over it. */
  lemma {:induction false} RoomToRead(b: bytes, len: nat, at: nat, padded: bool)
    requires len + 12 <= |b|
    ensures Readable(b, len, at, padded)
    decreases len - at
  {
    if at >= len || TypeAt(b, at) == XOR_MAPPED_ADDRESS {
    } else {
      RoomToRead(b, len, at + Stride(LengthAt(b, at), padded), padded);
    }
  }

  /** Before the first XOR-MAPPED-ADDRESS at most the attribute just before it is unaligned. */
  predicate AlignedUpToLast(attrs: seq<Attribute>) {
    forall j :: 0 <= j < FirstMapped(attrs) - 1 ==> Aligned(attrs[j])
  }

  lemma AlignedTail(attrs: seq<Attribute>)
    requires FirstMapped(attrs) > 1 && AlignedUpToLast(attrs)
    ensures FirstMapped(attrs[1..]) == FirstMapped(attrs) - 1
    ensures AlignedUpToLast(attrs[1..]) && Aligned(attrs[0]) && !IsMapped(attrs[0])
  {
    assert forall j :: 0 <= j < |attrs| - 1 ==> attrs[1..][j] == attrs[j + 1];
  }

  lemma StopsShort(b: bytes, len: nat, start: nat, u: Attribute)
    requires u.Valid() && !Aligned(u) && !IsMapped(u)
    requires start < len && start + 4 <= |b| && TypeAt(b, start) == u.typ && LengthAt(b, start) == |u.value|
    requires Readable(b, len, start, false)
    ensures Walk(b, len, start, false) != Found(start + u.Size())
  {
    WalkOn(b, len, start, false);
    Overshoots(b, len, start + 4 + |u.value|, start + u.Size());
  }

  lemma MissesFurtherOn(b: bytes, len: nat, start: nat, next: nat, attrs: seq<Attribute>, i: nat)
    requires 1 < i == FirstMapped(attrs) < |attrs| && Aligned(attrs[0]) && attrs[0].Valid()
    requires start < len && start + 4 <= |b| && TypeAt(b, start) == attrs[0].typ
      && LengthAt(b, start) == |attrs[0].value|
    requires next == start + attrs[0].Size()
    requires Readable(b, len, start, false)
    ensures Readable(b, len, next, false)
    ensures Walk(b, len, next, false) != Found(Boundary(next, attrs[1..], i - 1)) ==>
      Walk(b, len, start, false) != Found(Boundary(start, attrs, i))
  {
    StrideOverAttribute(attrs[0], false);
    WalkOn(b, len, start, false);
  }

  /** The unpadded walk misses an attribute behind an unaligned one, whatever its padding holds. */
  lemma {:induction false} UnalignedMisses(b: bytes, pre: bytes, attrs: seq<Attribute>, stale: bytes, len: nat, i: nat)
    requires AllValid(attrs) && b == pre + EncodeAll(attrs) + stale && len == |pre| + Length(attrs)
    requires 0 < i == FirstMapped(attrs) < |attrs| && AlignedUpToLast(attrs) && !Aligned(attrs[i - 1])
    requires Readable(b, len, |pre|, false)
    ensures Walk(b, len, |pre|, false) != Found(Boundary(|pre|, attrs, i))
    decreases i
  {
    var next := FirstAttributeAt(b, pre, attrs, stale);
    if i == 1 {
      StopsShort(b, len, |pre|, attrs[0]);
      assert Boundary(|pre|, attrs, 1) == |pre| + attrs[0].Size();
    } else {
      AlignedTail(attrs);
      MissesFurtherOn(b, len, |pre|, |next|, attrs, i);
      UnalignedMisses(b, next, attrs[1..], stale, len, i - 1);
    }
  }

  /** What following the list means for where the walk stops. */
  lemma FollowingStops(b: bytes, start: nat, attrs: seq<Attribute>, padded: bool, len: nat, i: nat)
    requires FollowsList(b, start, attrs, padded) && i == FirstMapped(attrs) < |attrs| && len == start + Length(attrs)
    ensures Readable(b, len, start, padded) && Walk(b, len, start, padded) == Found(Boundary(start, attrs, i))
  {
  }

  lemma PaddedStops(b: bytes, pre: bytes, attrs: seq<Attribute>, stale: bytes, len: nat, i: nat)
    requires AllValid(attrs) && b == pre + EncodeAll(attrs) + stale && len == |pre| + Length(attrs)
    requires i == FirstMapped(attrs) < |attrs| && |attrs[i].value| >= 8
    ensures Readable(b, len, |pre|, true) && Walk(b, len, |pre|, true) == Found(Boundary(|pre|, attrs, i))
  {
    WalkFollowsList(b, pre, attrs, stale, true);
    FollowingStops(b, |pre|, attrs, true, len, i);
  }

  lemma AllAligned(attrs: seq<Attribute>, i: nat)
    requires i == FirstMapped(attrs) < |attrs| && |attrs[i].value| >= 8 && AlignedUpToLast(attrs)
    requires i == 0 || Aligned(attrs[i - 1])
    ensures Walkable(attrs, false)
  {
  }

  lemma UnpaddedStops(b: bytes, pre: bytes, attrs: seq<Attribute>, stale: bytes, len: nat, i: nat)
    requires AllValid(attrs) && b == pre + EncodeAll(attrs) + stale && len == |pre| + Length(attrs)
    requires i == FirstMapped(attrs) < |attrs| && |attrs[i].value| >= 8 && AlignedUpToLast(attrs)
    requires Readable(b, len, |pre|, false)
    ensures Walk(b, len, |pre|, false) == Found(Boundary(|pre|, attrs, i)) <==> i == 0 || Aligned(attrs[i - 1])
  {
    if i == 0 || Aligned(attrs[i - 1]) {
      AllAligned(attrs, i);
      WalkFollowsList(b, pre, attrs, stale, false);
      FollowingStops(b, |pre|, attrs, false, len, i);
    } else {
      UnalignedMisses(b, pre, attrs, stale, len, i);
    }
  }

  /** A message in its buffer, taken as any twenty bytes followed by its attributes. */
  lemma Opened(b: bytes, msg: Message, stale: bytes) returns (header: bytes)
    requires msg.Valid() && Holds(b, msg, stale)
    ensures |header| == HEADER_SIZE && b == header + EncodeAll(msg.attrs) + stale
  {
    header := Header(msg.typ, Length(msg.attrs), msg.id);
  }

  /**
   The two walks agree exactly when they should. If no attribute but the one just before the first
   XOR-MAPPED-ADDRESS is unaligned, both stop at the same offset if and only if that one is
   aligned too, whatever bytes pad it and whatever follows.
   */
  lemma AgreementExact(b: bytes, msg: Message, stale: bytes, i: nat)
    requires msg.Valid() && Holds(b, msg, stale)
    requires i == FirstMapped(msg.attrs) < |msg.attrs| && |msg.attrs[i].value| >= 8 && AlignedUpToLast(msg.attrs)
    requires Readable(b, msg.Size(), HEADER_SIZE, false)
    ensures Readable(b, msg.Size(), HEADER_SIZE, true)
    ensures Walk(b, msg.Size(), HEADER_SIZE, true) == Found(AddressOffset(msg))
    ensures Walk(b, msg.Size(), HEADER_SIZE, false) == Walk(b, msg.Size(), HEADER_SIZE, true)
      <==> i == 0 || Aligned(msg.attrs[i - 1])
  {
    var header := Opened(b, msg, stale);
    PaddedStops(b, header, msg.attrs, stale, msg.Size(), i);
    UnpaddedStops(b, header, msg.attrs, stale, msg.Size(), i);
  }

  lemma TwoAttributes(attrs: seq<Attribute>, u: Attribute, x: Attribute)
    requires attrs == [u, x] && !IsMapped(u) && IsMapped(x)
    ensures FirstMapped(attrs) == 1 && Length(attrs) == u.Size() + x.Size()
    ensures Boundary(HEADER_SIZE, attrs, 1) == HEADER_SIZE + u.Size()
  {
    assert attrs[1..] == [x] && [x][1..] == [];
    assert FirstMapped([x]) == 0 && Length([x]) == x.Size();
    assert Boundary(HEADER_SIZE + u.Size(), [x], 0) == HEADER_SIZE + u.Size();
  }

  /** A response that carries one attribute of three bytes before the address. */
  function OddResponse(id: bytes, text: bytes, pad: byte, reserved: byte, ip: bytes, port: nat): Message
    requires |text| == 3 && |ip| == 4 && port < 0x10000
  {
    Message(BINDING_RESPONSE, id, [Attribute(0x8022, text, [pad]), MappedAttribute(reserved, ip, port)])
  }

  lemma OddResponseShape(msg: Message)
    requires |msg.attrs| == 2 && msg.attrs[0].Valid() && msg.attrs[0].typ == 0x8022 && |msg.attrs[0].value| == 3
    requires msg.attrs[1].Valid() && IsMapped(msg.attrs[1]) && |msg.attrs[1].value| == 8
    requires msg.typ == BINDING_RESPONSE && |msg.id| == 12
    ensures msg.Valid() && FirstMapped(msg.attrs) == 1 && AddressOffset(msg) == 28
  {
    TwoAttributes(msg.attrs, msg.attrs[0], msg.attrs[1]);
  }

  /**
   A concrete case: behind an attribute of three bytes the padded walk finds the address and the
   unpadded one does not.
   */
  lemma OddAttributeHides(b: bytes, msg: Message, stale: bytes, id: bytes, text: bytes, pad: byte, reserved: byte,
                          ip: bytes, port: nat)
    requires |id| == 12 && |text| == 3 && |ip| == 4 && port < 0x10000 && |stale| >= 12
    requires msg == OddResponse(id, text, pad, reserved, ip, port)
    ensures msg.Valid()
    ensures Holds(b, msg, stale) ==>
      && Readable(b, msg.Size(), HEADER_SIZE, true) && Readable(b, msg.Size(), HEADER_SIZE, false)
      && Walk(b, msg.Size(), HEADER_SIZE, true) == Found(28)
      && Walk(b, msg.Size(), HEADER_SIZE, false) != Found(28)
  {
    OddResponseShape(msg);
    if Holds(b, msg, stale) {
      RoomToRead(b, msg.Size(), HEADER_SIZE, false);
      AgreementExact(b, msg, stale, 1);
    }
  }

  // ---------------------------------------------------------------- an earlier unaligned attribute decides nothing

  /** One byte of value, then an attribute without any whose type ends in a zero byte, then the address. */
  function EarlyOdd(kind: byte, x: Attribute): seq<Attribute> {
    [Attribute(1, [7], [0, 0, 0]), Attribute(Join(kind, 0), [], []), x]
  }

  lemma EarlyOddShape(kind: byte, x: Attribute)
    requires x.Valid() && IsMapped(x)
    ensures AllValid(EarlyOdd(kind, x)) && FirstMapped(EarlyOdd(kind, x)) == 2
    ensures Length(EarlyOdd(kind, x)) == 12 + x.Size()
  {
    var attrs := EarlyOdd(kind, x);
    JoinParts(kind, 0);
    TwoAttributes(attrs[1..], attrs[1], x);
  }

  /** How that looks up to and with the type of the address. */
  function EarlyOddStart(kind: byte): bytes {
    [0, 1, 0, 1, 7, 0, 0, 0, kind, 0, 0, 0, 0, 0x20]
  }

  lemma EarlyOddBytes(b: bytes, pre: bytes, kind: byte, rest: bytes)
    requires b == pre + EarlyOddStart(kind) + rest && |rest| >= 10
    ensures var at := |pre|;
      && at + 24 <= |b|
      && TypeAt(b, at) == 1 && LengthAt(b, at) == 1
      && TypeAt(b, at + 5) == 0 && LengthAt(b, at + 5) == kind
      && TypeAt(b, at + 12) == XOR_MAPPED_ADDRESS
  {
    var at := |pre|;
    assert b[at..at + 2] == [0, 1] && b[at + 2..at + 4] == [0, 1];
    assert b[at + 5..at + 7] == [0, 0] && b[at + 7..at + 9] == [0, kind];
    assert b[at + 12..at + 14] == [0, 0x20];
  }

  lemma EarlyOddWalk(b: bytes, len: nat, at: nat, kind: byte)
    requires at + 24 <= len && len + 12 <= |b|
    requires TypeAt(b, at) == 1 && LengthAt(b, at) == 1
    requires TypeAt(b, at + 5) == 0 && LengthAt(b, at + 5) == kind
    requires TypeAt(b, at + 12) == XOR_MAPPED_ADDRESS
    ensures Readable(b, len, at, false)
    ensures Walk(b, len, at, false) == Found(at + 12) <==> kind == 3
  {
    RoomToRead(b, len, at, false);
    WalkOn(b, len, at, false);
    WalkOn(b, len, at + 5, false);
    if kind < 3 {
      Overshoots(b, len, at + 9 + kind, at + 12);
    }
  }

  lemma EarlyOddEncoded(kind: byte, x: Attribute) returns (rest: bytes)
    requires x.Valid() && IsMapped(x) && |x.value| == 8 && AllValid(EarlyOdd(kind, x))
    ensures EncodeAll(EarlyOdd(kind, x)) == EarlyOddStart(kind) + rest && |rest| == 10
  {
    var attrs := EarlyOdd(kind, x);
    JoinParts(kind, 0);
    rest := Bytes16(8) + x.value;
    assert attrs[1..][1..] == [x] && [x][1..] == [];
    assert x.Encode() == [0, 0x20] + rest;
    assert attrs[1].Encode() == [kind, 0, 0, 0];
    assert attrs[0].Encode() == [0, 1, 0, 1, 7, 0, 0, 0];
    assert EncodeAll([x]) == x.Encode() + [];
    assert EncodeAll(attrs[1..]) == attrs[1].Encode() + EncodeAll([x]);
  }

  lemma EarlyOddUnpadded(b: bytes, pre: bytes, kind: byte, x: Attribute, stale: bytes)
    requires x.Valid() && IsMapped(x) && |x.value| == 8 && AllValid(EarlyOdd(kind, x)) && |stale| >= 12
    requires b == pre + EncodeAll(EarlyOdd(kind, x)) + stale
    ensures Readable(b, |pre| + 24, |pre|, false)
    ensures Walk(b, |pre| + 24, |pre|, false) == Found(|pre| + 12) <==> kind == 3
  {
    var rest := EarlyOddEncoded(kind, x);
    Regroup(pre, EarlyOddStart(kind), rest, stale);
    EarlyOddBytes(b, pre, kind, rest + stale);
    EarlyOddWalk(b, |pre| + 24, |pre|, kind);
  }

  /** The padded walk over any list like that. */
  lemma EarlyOddPadded(b: bytes, pre: bytes, attrs: seq<Attribute>, stale: bytes, len: nat)
    requires AllValid(attrs) && b == pre + EncodeAll(attrs) + stale && len == |pre| + Length(attrs)
    requires |attrs| == 3 && FirstMapped(attrs) == 2 && |attrs[2].value| == 8
    requires attrs[0].Size() == 8 && attrs[1].Size() == 4
    ensures Readable(b, len, |pre|, true) && Walk(b, len, |pre|, true) == Found(|pre| + 12)
  {
    PaddedStops(b, pre, attrs, stale, len, 2);
    assert Boundary(|pre| + 8, attrs[1..], 1) == Boundary(|pre| + 12, attrs[1..][1..], 0) == |pre| + 12;
  }

  /** Both walks over it. */
  lemma EarlyOddWalks(b: bytes, pre: bytes, attrs: seq<Attribute>, stale: bytes, kind: byte, x: Attribute)
    requires x.Valid() && IsMapped(x) && |x.value| == 8 && |stale| >= 12
    requires attrs == EarlyOdd(kind, x) && AllValid(attrs) && FirstMapped(attrs) == 2 && Length(attrs) == 24
    requires b == pre + EncodeAll(attrs) + stale
    ensures Readable(b, |pre| + 24, |pre|, true) && Walk(b, |pre| + 24, |pre|, true) == Found(|pre| + 12)
    ensures Readable(b, |pre| + 24, |pre|, false)
    ensures Walk(b, |pre| + 24, |pre|, false) == Found(|pre| + 12) <==> kind == 3
  {
    EarlyOddPadded(b, pre, attrs, stale, |pre| + 24);
    EarlyOddUnpadded(b, pre, kind, x, stale);
  }

  /** Such lists are those of responses. */
  lemma EarlyOddValid(msg: Message, kind: byte, x: Attribute)
    requires |msg.id| == 12 && msg.typ == BINDING_RESPONSE && msg.attrs == EarlyOdd(kind, x)
    requires x.Valid() && IsMapped(x) && |x.value| == 8
    ensures msg.Valid() && FirstMapped(msg.attrs) == 2 && Length(msg.attrs) == 24
  {
    EarlyOddShape(kind, x);
  }

  /**
   With an unaligned attribute further back lengths and alignment decide nothing: these responses
   differ in one byte, the kind of an attribute without a value, and the unpadded walk comes back
   on course for one kind only.
   */
  lemma EarlyOddUndecided(b: bytes, msg: Message, stale: bytes, kind: byte, x: Attribute)
    requires |msg.id| == 12 && msg.typ == BINDING_RESPONSE && msg.attrs == EarlyOdd(kind, x)
    requires x.Valid() && IsMapped(x) && |x.value| == 8 && |stale| >= 12
    ensures msg.Valid()
    ensures Holds(b, msg, stale) ==>
      && Readable(b, 44, HEADER_SIZE, true) && Walk(b, 44, HEADER_SIZE, true) == Found(32)
      && Readable(b, 44, HEADER_SIZE, false) && (Walk(b, 44, HEADER_SIZE, false) == Found(32) <==> kind == 3)
    ensures msg.Size() == 44
  {
    EarlyOddValid(msg, kind, x);
    if Holds(b, msg, stale) {
      var header := Opened(b, msg, stale);
      EarlyOddWalks(b, header, msg.attrs, stale, kind, x);
    }
  }
}
