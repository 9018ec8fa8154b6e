/**
 One response written out byte by byte: the address attribute of the sample IPv4 response in section
 2.2 of RFC 5769, 192.0.2.1 and port 32853. Nothing here goes through the encoder.
 */
module StunExample {
  import opened Common
  import opened Words
  import opened StunMessage
  import opened StunWalk
  import opened StunClient

  const LEAD: bytes := [0x01, 0x01, 0x00, 0x0C, 0x21, 0x12, 0xA4, 0x42]
  const MAPPED: bytes := [0x00, 0x20, 0x00, 0x08, 0x00, 0x01, 0xA1, 0x47, 0xE1, 0x12, 0xA6, 0x43]
  const ADDRESS: bytes := [192, 0, 2, 1]

  /** The response as received into a buffer. */
  ghost predicate Received(b: bytes, id: bytes, stale: bytes) {
    |id| == 12 && b == LEAD + id + (MAPPED + stale)
  }

  // ---------------------------------------------------------------- unmasking by hand, a hexadecimal digit at a time

  lemma TwoDigits(a: nat, b: nat)
    requires b < 16
    ensures Below(4, a, b) == 16 * a + b
  {
    assert Pow2(4) == 16;
    BelowIsSum(4, a, b);
  }

  lemma Digits(x: byte, y: byte, a: nat, b: nat, c: nat, d: nat)
    requires b < 16 && d < 16 && x == 16 * a + b && y == 16 * c + d
    ensures Xor8(x, y) == 16 * Xor(4, a, c) + Xor(4, b, d)
  {
    var r, t := Xor(4, a, c), Xor(4, b, d);
    assert Pow2(4) == 16;
    TwoDigits(a, b);
    TwoDigits(c, d);
    XorSplits(4, 4, a, b, c, d);
    TwoDigits(r, t);
  }

  lemma AddressDigits()
    ensures Xor(4, 0xE, 0x2) == 0xC && Xor(4, 0x6, 0x4) == 0x2 && Xor(4, 0x3, 0x2) == 0x1
  {
  }

  lemma PortDigits()
    ensures Xor(4, 0xA, 0x2) == 0x8 && Xor(4, 0x4, 0x1) == 0x5 && Xor(4, 0x7, 0x2) == 0x5
  {
  }

  lemma AddressBytes()
    ensures Xor8(0xE1, 0x21) == 192 && Xor8(0x12, 0x12) == 0 && Xor8(0xA6, 0xA4) == 2 && Xor8(0x43, 0x42) == 1
  {
    AddressDigits();
    XorSelf(4, 0x1);
    XorSelf(8, 0x12);
    XorSelf(4, 0xA);
    XorSelf(4, 0x4);
    Digits(0xE1, 0x21, 0xE, 0x1, 0x2, 0x1);
    Digits(0xA6, 0xA4, 0xA, 0x6, 0xA, 0x4);
    Digits(0x43, 0x42, 0x4, 0x3, 0x4, 0x2);
  }

  lemma PortBytes()
    ensures Xor8(0xA1, 0x21) == 0x80 && Xor8(0x47, 0x12) == 0x55
  {
    PortDigits();
    XorSelf(4, 0x1);
    Digits(0xA1, 0x21, 0xA, 0x1, 0x2, 0x1);
    Digits(0x47, 0x12, 0x4, 0x7, 0x1, 0x2);
  }

  lemma TwoBytes(a: byte, b: byte, c: byte, d: byte)
    ensures Xor16(Join(a, b), Join(c, d)) == Join(Xor8(a, c), Xor8(b, d))
  {
    XorJoin(8, a, b, c, d);
  }

  lemma PortUnmasked(a: byte, b: byte, c: byte, d: byte)
    requires a == 0xA1 && b == 0x47 && c == 0x21 && d == 0x12
    ensures Xor16(Join(a, b), Join(c, d)) == 32853 && Join(c, d) == COOKIE_TOP
  {
    PortBytes();
    TwoBytes(a, b, c, d);
  }

  lemma AddressUnmasked(field: bytes)
    requires field == [0xE1, 0x12, 0xA6, 0x43]
    ensures XorBytes(field, COOKIE_BYTES) == ADDRESS
  {
    AddressBytes();
  }

  lemma PortMasked(port: nat, masked: nat)
    requires port == 32853 && masked == 0xA147
    ensures Xor16(port, COOKIE_TOP) == masked
  {
    Powers();
    PortUnmasked(0xA1, 0x47, 0x21, 0x12);
    XorTwice(16, masked, COOKIE_TOP);
  }

  lemma AddressMasked(ip: bytes, masked: bytes)
    requires ip == ADDRESS && masked == [0xE1, 0x12, 0xA6, 0x43]
    ensures Xor32(Be32(ip), MAGIC_COOKIE) == Be32(masked)
  {
    Powers();
    Cookie();
    AddressUnmasked(masked);
    XorByByte(masked, COOKIE_BYTES);
    XorTwice(32, Be32(masked), MAGIC_COOKIE);
  }

  lemma ValueBytes(ip: bytes, port: nat, maskedPort: bytes, maskedIp: bytes)
    requires |ip| == |maskedIp| == 4 && |maskedPort| == 2 && port < 0x10000
    requires Xor16(port, COOKIE_TOP) == Be16(maskedPort) && Xor32(Be32(ip), MAGIC_COOKIE) == Be32(maskedIp)
    ensures MappedValue(0, ip, port) == [0x00, 0x01] + maskedPort + maskedIp
  {
    JoinParts(maskedPort[0], maskedPort[1]);
    Bytes32OfBe32(maskedIp);
  }

  /** The encoder's value for this address is the one of the sample. */
  lemma Masked(ip: bytes, port: nat)
    requires ip == ADDRESS && port == 32853
    ensures MappedValue(0, ip, port) == [0x00, 0x01, 0xA1, 0x47, 0xE1, 0x12, 0xA6, 0x43]
  {
    var maskedPort: bytes, maskedIp: bytes := [0xA1, 0x47], [0xE1, 0x12, 0xA6, 0x43];
    PortMasked(port, Be16(maskedPort));
    AddressMasked(ip, maskedIp);
    ValueBytes(ip, port, maskedPort, maskedIp);
  }

  lemma ReceivedBytes(b: bytes, id: bytes, stale: bytes)
    requires Received(b, id, stale)
    ensures |b| >= 32 && b[..2] == [0x01, 0x01] && b[8..HEADER_SIZE] == id
    ensures b[20..22] == [0x00, 0x20] && b[26..28] == [0xA1, 0x47] && b[28..32] == [0xE1, 0x12, 0xA6, 0x43]
  {
    assert b[20..32] == MAPPED;
    assert b[20..22] == MAPPED[..2] && b[26..28] == MAPPED[6..8] && b[28..32] == MAPPED[8..12];
  }

  lemma ExampleWalk(b: bytes, id: bytes, stale: bytes, padded: bool)
    requires Received(b, id, stale)
    ensures Readable(b, 32, HEADER_SIZE, padded) && Walk(b, 32, HEADER_SIZE, padded) == Found(20)
  {
    ReceivedBytes(b, id, stale);
  }

  lemma ExampleFields(b: bytes, id: bytes, stale: bytes)
    requires Received(b, id, stale)
    ensures |b| >= 32 && PortAt(b, 20) == 32853 && IpAt(b, 20) == ADDRESS
  {
    ReceivedBytes(b, id, stale);
    PortUnmasked(b[26], b[27], 0x21, 0x12);
    AddressUnmasked(b[28..32]);
  }

  /** Both walks stop at once, and the fields they stop at hold the address. */
  lemma ExampleRead(b: bytes, id: bytes, stale: bytes, padded: bool)
    requires Received(b, id, stale)
    ensures IsResponse(b) && b[8..HEADER_SIZE] == id
    ensures Readable(b, 32, HEADER_SIZE, padded) && Walk(b, 32, HEADER_SIZE, padded) == Found(20)
    ensures PortAt(b, 20) == 32853 && IpAt(b, 20) == ADDRESS
  {
    ReceivedBytes(b, id, stale);
    ExampleWalk(b, id, stale, padded);
    ExampleFields(b, id, stale);
  }

  /** parse_stun_response gives 192.0.2.1 and 32853 on every host. */
  method ParseExample(buffer: array<byte>, endpoint: PublicEndpoint, host: Endian, ghost id: bytes, ghost stale: bytes)
    returns (rc: int)
    requires Received(buffer[..], id, stale)
    modifies endpoint
    ensures rc == 0 && endpoint.publicIp == [192, 0, 2, 1] && endpoint.publicPort == 32853
  {
    ExampleRead(buffer[..], id, stale, true);
    rc := ParseStunResponse(buffer, 32, endpoint, host);
  }

  /** The check of STUNExternalIP.c prints 192.0.2.1 on a big-endian host and 1.2.0.192 on a little-endian one. */
  method CheckExample(buffer: array<byte>, request: bytes, endpoint: PublicEndpoint, host: Endian, ghost stale: bytes)
    returns (rc: int)
    requires |request| == HEADER_SIZE && Received(buffer[..], request[8..], stale)
    modifies endpoint
    ensures rc == 0 && endpoint.publicPort == 32853
    ensures endpoint.publicIp == if host.Big? then [192, 0, 2, 1] else [1, 2, 0, 192]
  {
    ExampleRead(buffer[..], request[8..], stale, false);
    HighByteFirstDependsOnHost(FieldAt(buffer[..], 20), host);
    rc := CheckResponse(buffer, 32, request, endpoint, host);
  }
}
