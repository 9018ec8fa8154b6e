/**
 The STUN exchange: create_stun_binding_request and parse_stun_response of test3, and the response
 check of STUNExternalIP.c. The received buffer is an array; only its first bytes are the message.
 Dotted addresses are given as their four octets, in the order in which they are printed.
 */
module StunClient {
  import opened Words
  import opened StunMessage
  import opened StunWalk

  class PublicEndpoint {
    var publicIp: bytes
    var publicPort: nat

    constructor ()
    {
      publicIp, publicPort := [], 0;
    }
  }

  /** The twelve identifier bytes are random in the source; here they are whatever `id` says. */
  method GenerateTransactionId(buffer: array<byte>, id: bytes)
    requires buffer.Length >= HEADER_SIZE && |id| == 12
    modifies buffer
    ensures buffer[..] == old(buffer[..])[..8] + id + old(buffer[..])[HEADER_SIZE..]
  {
    for i := 0 to 12
      invariant forall k :: 0 <= k < buffer.Length ==>
        buffer[k] == if 8 <= k < 8 + i then id[k - 8] else old(buffer[k])
    {
      buffer[8 + i] := id[i];
    }
  }

  /** type, length and magic cookie of the request header. */
  method FillFields(buffer: array<byte>, fields: bytes)
    requires buffer.Length >= 8 && |fields| == 8
    modifies buffer
    ensures buffer[..] == fields + old(buffer[..])[8..]
  {
    forall i | 0 <= i < 8 {
      buffer[i] := fields[i];
    }
  }

  lemma PutIdentifier(fields: bytes, id: bytes, before: bytes)
    requires |fields| == 8 && |id| == 12 && |before| >= HEADER_SIZE
    ensures var filled := fields + before[8..];
      filled[..8] + id + filled[HEADER_SIZE..] == fields + id + before[HEADER_SIZE..]
  {
    var filled := fields + before[8..];
    assert filled[..8] == fields;
    assert filled[HEADER_SIZE..] == before[HEADER_SIZE..];
  }

  /** The request header up to the identifier: type, length zero, magic cookie. */
  function RequestFields(): (f: bytes)
    ensures |f| == 8
  {
    Bytes16(BINDING_REQUEST) + Bytes16(0) + COOKIE_BYTES
  }

  lemma RequestHeader(id: bytes)
    requires |id| == 12
    ensures Header(BINDING_REQUEST, 0, id) == [0x00, 0x01, 0x00, 0x00, 0x21, 0x12, 0xA4, 0x42] + id
  {
    var h := Header(BINDING_REQUEST, 0, id);
    HeaderLayout(BINDING_REQUEST, 0, id);
    assert h[..8] == [0x00, 0x01, 0x00, 0x00, 0x21, 0x12, 0xA4, 0x42];
    assert h == h[..8] + h[8..];
  }

  lemma InFront(b: bytes, lead: bytes, id: bytes, rest: bytes)
    requires |lead| == 8 && |id| == 12 && b == lead + id + rest
    ensures b[..8] == lead && b[8..HEADER_SIZE] == id
  {
  }

  lemma RequestInFront(b: bytes, id: bytes, rest: bytes)
    requires |id| == 12 && b == Header(BINDING_REQUEST, 0, id) + rest
    ensures b[..8] == [0x00, 0x01, 0x00, 0x00, 0x21, 0x12, 0xA4, 0x42] && b[8..HEADER_SIZE] == id
  {
    RequestHeader(id);
    InFront(b, [0x00, 0x01, 0x00, 0x00, 0x21, 0x12, 0xA4, 0x42], id, rest);
  }

  /** A binding request is a header without attributes; the rest of the buffer is left alone. */
  method CreateStunBindingRequest(buffer: array<byte>, id: bytes) returns (size: nat)
    requires buffer.Length >= HEADER_SIZE && |id| == 12
    modifies buffer
    ensures size == HEADER_SIZE
    ensures buffer[..] == Header(BINDING_REQUEST, 0, id) + old(buffer[..])[HEADER_SIZE..]
    ensures buffer[..][..8] == [0x00, 0x01, 0x00, 0x00, 0x21, 0x12, 0xA4, 0x42] && buffer[..][8..HEADER_SIZE] == id
  {
    ghost var rest := buffer[..][HEADER_SIZE..];
    PutIdentifier(RequestFields(), id, buffer[..]);
    FillFields(buffer, RequestFields());
    GenerateTransactionId(buffer, id);
    RequestInFront(buffer[..], id, rest);
    return HEADER_SIZE;
  }

  // ---------------------------------------------------------------- what the fields at an attribute mean

  /** Port and address of the XOR-MAPPED-ADDRESS whose header is at the offset, unmasked byte by byte. */
  function PortAt(b: bytes, at: nat): (p: nat)
    requires at + 12 <= |b|
  {
    Xor16(Be16(b[at + 6..at + 8]), COOKIE_TOP)
  }

  /** The address field of the attribute, still masked. */
  function FieldAt(b: bytes, at: nat): (f: bytes)
    requires at + 12 <= |b|
    ensures |f| == 4
  {
    b[at + 8..at + 12]
  }

  function IpAt(b: bytes, at: nat): (ip: bytes)
    requires at + 12 <= |b|
    ensures |ip| == 4
  {
    XorBytes(FieldAt(b, at), COOKIE_BYTES)
  }

  lemma Cookie()
    ensures Be32(COOKIE_BYTES) == MAGIC_COOKIE && Bytes32(MAGIC_COOKIE) == COOKIE_BYTES
  {
    Bytes32OfBe32(COOKIE_BYTES);
  }

  /** What test3 prints: unmask the host value of the field, store it in network order, print the bytes. */
  function PrintedByInetNtop(field: bytes, host: Endian): (ip: bytes)
    requires |field| == 4
    ensures |ip| == 4
  {
    Store32(Htonl(Xor32(Htonl(Load32(field, host), host), MAGIC_COOKIE), host), host)
  }

  /** What STUNExternalIP.c prints: mask the raw field, print the host value from its highest byte down. */
  function PrintedFromHighByte(field: bytes, host: Endian): (ip: bytes)
    requires |field| == 4
    ensures |ip| == 4
  {
    Bytes32(Xor32(Load32(field, host), Htonl(MAGIC_COOKIE, host)))
  }

  lemma InetNtopIsPortable(field: bytes, host: Endian)
    requires |field| == 4
    ensures PrintedByInetNtop(field, host) == XorBytes(field, COOKIE_BYTES)
  {
    Cookie();
    NetworkLoad(field, host);
    NetworkStore(Xor32(Be32(field), MAGIC_COOKIE), host);
    XorByByte(field, COOKIE_BYTES);
    Bytes32OfBe32(XorBytes(field, COOKIE_BYTES));
  }

  /** The other parser is right on a big-endian host and prints the octets backwards on a little-endian one. */
  lemma HighByteFirstDependsOnHost(field: bytes, host: Endian)
    requires |field| == 4
    ensures PrintedFromHighByte(field, host) ==
      if host.Big? then XorBytes(field, COOKIE_BYTES) else Reverse4(XorBytes(field, COOKIE_BYTES))
  {
    Cookie();
    if host.Big? {
      XorByByte(field, COOKIE_BYTES);
      Bytes32OfBe32(XorBytes(field, COOKIE_BYTES));
    } else {
      XorByByte(Reverse4(field), Reverse4(COOKIE_BYTES));
      XorBytesReversed(field, COOKIE_BYTES);
      Bytes32OfBe32(Reverse4(XorBytes(field, COOKIE_BYTES)));
    }
  }

  // ---------------------------------------------------------------- the two parsers

  predicate IsResponse(b: bytes) {
    |b| >= 2 && Be16(b[..2]) == BINDING_RESPONSE
  }

  /** ntohs of the 16 bit field at an offset. */
  function Ntohs(buffer: array<byte>, at: nat): (w: nat)
    requires at + 2 <= buffer.Length
    reads buffer
    ensures w == Be16(buffer[..][at..at + 2])
  {
    Join(buffer[at], buffer[at + 1])
  }

  predicate HasResponseType(buffer: array<byte>): (r: bool)
    requires 2 <= buffer.Length
    reads buffer
    ensures r == IsResponse(buffer[..])
    ensures r <==> buffer[0] == buffer[1] == 1
  {
    assert buffer[..][..2] == buffer[..][0..2];
    Ntohs(buffer, 0) == BINDING_RESPONSE
  }

  /** The four bytes of a 32 bit field in memory. */
  function Raw32(buffer: array<byte>, at: nat): (f: bytes)
    requires at + 4 <= buffer.Length
    reads buffer
    ensures |f| == 4 && f == buffer[..][at..at + 4]
  {
    buffer[at..at + 4]
  }

  /** Where the walk goes on behind an attribute of length n that is not the one looked for. */
  lemma Onward(b: bytes, len: nat, at: nat, padded: bool, n: nat) returns (next: nat)
    requires at < len && Readable(b, len, at, padded) && TypeAt(b, at) != XOR_MAPPED_ADDRESS && LengthAt(b, at) == n
    ensures next == at + 4 + n + if padded && n % 4 != 0 then 4 - n % 4 else 0
    ensures Readable(b, len, next, padded) && Walk(b, len, at, padded) == Walk(b, len, next, padded)
  {
    next := at + Stride(n, padded);
    WalkOn(b, len, at, padded);
  }

  /** The loop of parse_stun_response: on over the value and its padding until an XOR-MAPPED-ADDRESS turns up. */
  method FindMappedPadded(response: array<byte>, responseLen: nat) returns (stop: Stop)
    requires Readable(response[..], responseLen, HEADER_SIZE, true)
    ensures stop == Walk(response[..], responseLen, HEADER_SIZE, true)
  {
    ghost var b := response[..];
    var ptr := HEADER_SIZE;
    while ptr < responseLen
      invariant Readable(b, responseLen, ptr, true)
      invariant Walk(b, responseLen, HEADER_SIZE, true) == Walk(b, responseLen, ptr, true)
      decreases responseLen - ptr
    {
      var attrType, attrLength := Ntohs(response, ptr), Ntohs(response, ptr + 2);
      assert attrType == TypeAt(b, ptr) && attrLength == LengthAt(b, ptr);
      if attrType == XOR_MAPPED_ADDRESS {
        return Found(ptr);
      }
      ghost var next := Onward(b, responseLen, ptr, true, attrLength);
      ptr := ptr + 4 + attrLength;
      if attrLength % 4 != 0 {
        ptr := ptr + (4 - attrLength % 4);
      }
      assert ptr == next;
    }
    return Exhausted(ptr);
  }

  /** Decoding the attribute whose header is at the offset. */
  method StoreMapped(response: array<byte>, at: nat, endpoint: PublicEndpoint, host: Endian)
    requires at + 12 <= response.Length
    modifies endpoint
    ensures endpoint.publicIp == IpAt(response[..], at) && endpoint.publicPort == PortAt(response[..], at)
  {
    var field := Raw32(response, at + 8);
    InetNtopIsPortable(field, host);
    endpoint.publicIp := PrintedByInetNtop(field, host);
    endpoint.publicPort := Xor16(Ntohs(response, at + 6), COOKIE_TOP);
  }

  /** parse_stun_response: the only demand on the caller is that the walk stays inside the buffer. */
  method ParseStunResponse(response: array<byte>, responseLen: nat, endpoint: PublicEndpoint, host: Endian)
    returns (rc: int)
    requires 2 <= response.Length
    requires IsResponse(response[..]) ==> Readable(response[..], responseLen, HEADER_SIZE, true)
    modifies endpoint
    ensures rc ==
      if IsResponse(response[..]) && Walk(response[..], responseLen, HEADER_SIZE, true).Found? then 0 else -1
    ensures rc == 0 ==>
      var at := Walk(response[..], responseLen, HEADER_SIZE, true).at;
      endpoint.publicIp == IpAt(response[..], at) && endpoint.publicPort == PortAt(response[..], at)
    ensures rc != 0 ==> unchanged(endpoint)
  {
    if !HasResponseType(response) {
      return -1;
    }
    var stop := FindMappedPadded(response, responseLen);
    if stop.Exhausted? {
      return -1;
    }
    StoreMapped(response, stop.at, endpoint, host);
    return 0;
  }

  /** The identifier comparison, one 32 bit word at a time. */
  method SameIdentifier(buffer: array<byte>, request: bytes) returns (same: bool)
    requires HEADER_SIZE <= buffer.Length && |request| == HEADER_SIZE
    ensures same <==> buffer[..][8..HEADER_SIZE] == request[8..]
  {
    for index := 0 to 3
      invariant forall k :: 8 <= k < 8 + 4 * index ==> buffer[k] == request[k]
    {
      var at := 8 + 4 * index;
      if !(buffer[at] == request[at] && buffer[at + 1] == request[at + 1]
           && buffer[at + 2] == request[at + 2] && buffer[at + 3] == request[at + 3]) {
        assert exists j :: 4 * index <= j < 4 * index + 4 && buffer[..][8..HEADER_SIZE][j] != request[8..][j] by {
          assert forall j :: 0 <= j < 12 ==>
            buffer[..][8..HEADER_SIZE][j] == buffer[8 + j] && request[8..][j] == request[8 + j];
          assert buffer[..][8..HEADER_SIZE][4 * index] != request[8..][4 * index]
            || buffer[..][8..HEADER_SIZE][4 * index + 1] != request[8..][4 * index + 1]
            || buffer[..][8..HEADER_SIZE][4 * index + 2] != request[8..][4 * index + 2]
            || buffer[..][8..HEADER_SIZE][4 * index + 3] != request[8..][4 * index + 3];
        }
        return false;
      }
    }
    return true;
  }

  /** The loop of STUNExternalIP.c: on over the value only. */
  method FindMappedUnpadded(buffer: array<byte>, length: nat) returns (stop: Stop)
    requires Readable(buffer[..], length, HEADER_SIZE, false)
    ensures stop == Walk(buffer[..], length, HEADER_SIZE, false)
  {
    ghost var b := buffer[..];
    var pointer := HEADER_SIZE;
    while pointer < length
      invariant Readable(b, length, pointer, false)
      invariant Walk(b, length, HEADER_SIZE, false) == Walk(b, length, pointer, false)
      decreases length - pointer
    {
      assert Ntohs(buffer, pointer) == TypeAt(b, pointer) && Ntohs(buffer, pointer + 2) == LengthAt(b, pointer);
      if Ntohs(buffer, pointer) == XOR_MAPPED_ADDRESS {
        return Found(pointer);
      }
      ghost var next := Onward(b, length, pointer, false, Ntohs(buffer, pointer + 2));
      pointer := pointer + 4 + Ntohs(buffer, pointer + 2);
      assert pointer == next;
    }
    return Exhausted(pointer);
  }

  /** Decoding the attribute whose header is at the offset, without conversion to host order. */
  method StorePrinted(buffer: array<byte>, at: nat, endpoint: PublicEndpoint, host: Endian)
    requires at + 12 <= buffer.Length
    modifies endpoint
    ensures endpoint.publicPort == PortAt(buffer[..], at)
    ensures endpoint.publicIp == PrintedFromHighByte(FieldAt(buffer[..], at), host)
  {
    endpoint.publicPort := Xor16(Ntohs(buffer, at + 6), COOKIE_TOP);
    endpoint.publicIp := PrintedFromHighByte(Raw32(buffer, at + 8), host);
  }

  /** The part of getPublicIPAddressAndPort that follows a successful read. */
  method CheckResponse(buffer: array<byte>, length: nat, request: bytes, endpoint: PublicEndpoint, host: Endian)
    returns (rc: int)
    requires HEADER_SIZE <= buffer.Length && |request| == HEADER_SIZE
    requires IsResponse(buffer[..]) && buffer[..][8..HEADER_SIZE] == request[8..] ==>
      Readable(buffer[..], length, HEADER_SIZE, false)
    modifies endpoint
    ensures (buffer[0] != 1 || buffer[1] != 1) ==> rc == -5
    ensures buffer[0] == buffer[1] == 1 && buffer[..][8..HEADER_SIZE] != request[8..] ==> rc == -1
    ensures IsResponse(buffer[..]) <==> buffer[0] == buffer[1] == 1
    ensures IsResponse(buffer[..]) && buffer[..][8..HEADER_SIZE] == request[8..] ==>
      rc == if Walk(buffer[..], length, HEADER_SIZE, false).Found? then 0 else -5
    ensures rc == 0 ==>
      var at := Walk(buffer[..], length, HEADER_SIZE, false).at;
      && endpoint.publicPort == PortAt(buffer[..], at)
      && endpoint.publicIp == PrintedFromHighByte(FieldAt(buffer[..], at), host)
    ensures rc != 0 ==> unchanged(endpoint)
  {
    if !HasResponseType(buffer) {
      return -5;
    }
    var same := SameIdentifier(buffer, request);
    if !same {
      return -1;
    }
    var stop := FindMappedUnpadded(buffer, length);
    if stop.Exhausted? {
      return -5;
    }
    StorePrinted(buffer, stop.at, endpoint, host);
    return 0;
  }
}
