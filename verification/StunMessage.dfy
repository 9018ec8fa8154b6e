/**
 STUN messages as RFC 5389 lays them out: the header of section 6, attributes padded to four bytes
 as in section 15, and the XOR-MAPPED-ADDRESS of section 15.2 for IPv4.
 */
module StunMessage {
  import opened Words

  const BINDING_REQUEST := 0x0001
  const BINDING_RESPONSE := 0x0101
  const MAGIC_COOKIE := 0x2112A442
  const COOKIE_TOP := MAGIC_COOKIE / 0x1_0000
  const COOKIE_BYTES: bytes := [0x21, 0x12, 0xA4, 0x42]
  const XOR_MAPPED_ADDRESS := 0x0020
  const HEADER_SIZE := 20

  /** Bytes needed to bring n up to a multiple of four. */
  function Padding(n: nat): nat {
    if n % 4 == 0 then 0 else 4 - n % 4
  }

  /** The length field counts the value only; padding bytes may hold anything. */
  datatype Attribute = Attribute(typ: nat, value: bytes, padding: bytes)
  {
    predicate Valid() {
      typ < 0x10000 && |value| < 0x10000 && |padding| == Padding(|value|)
    }

    /** Bytes taken in the message: header, value and padding. */
    function Size(): nat {
      4 + |value| + |padding|
    }

    function Encode(): (b: bytes)
      requires Valid()
      ensures |b| == Size()
    {
      Bytes16(typ) + Bytes16(|value|) + value + padding
    }
  }

  predicate AllValid(attrs: seq<Attribute>) {
    forall i :: 0 <= i < |attrs| ==> attrs[i].Valid()
  }

  /** Size of an attribute list in bytes. */
  function Length(attrs: seq<Attribute>): nat {
    if attrs == [] then 0 else attrs[0].Size() + Length(attrs[1..])
  }

  function EncodeAll(attrs: seq<Attribute>): (b: bytes)
    requires AllValid(attrs)
    ensures |b| == Length(attrs)
  {
    if attrs == [] then [] else attrs[0].Encode() + EncodeAll(attrs[1..])
  }

  lemma Rounded(n: nat)
    ensures (4 + n + if n % 4 == 0 then 0 else 4 - n % 4) % 4 == 0
  {
  }

  lemma AttributeIsAligned(a: Attribute)
    requires a.Valid()
    ensures a.Size() % 4 == 0
  {
    Rounded(|a.value|);
  }

  function Header(typ: nat, length: nat, id: bytes): (b: bytes)
    requires typ < 0x10000 && length < 0x10000 && |id| == 12
    ensures |b| == HEADER_SIZE
  {
    Bytes16(typ) + Bytes16(length) + COOKIE_BYTES + id
  }

  /** Section 6 of RFC 5389, field by field: type, length, cookie and identifier at bytes 0, 2, 4 and 8. */
  lemma HeaderLayout(typ: nat, length: nat, id: bytes)
    requires typ < 0x10000 && length < 0x10000 && |id| == 12
    ensures var h := Header(typ, length, id);
      && h[0] as int * 256 + h[1] as int == typ
      && h[2] as int * 256 + h[3] as int == length
      && h[4..8] == [0x21, 0x12, 0xA4, 0x42]
      && h[8..] == id
  {
    var h := Header(typ, length, id);
    var t, l := Bytes16(typ), Bytes16(length);
    assert h[..2] == t && h[2..4] == l;
    assert h[0] == t[0] && h[1] == t[1] && h[2] == l[0] && h[3] == l[1];
    JoinParts(t[0], t[1]);
    JoinParts(l[0], l[1]);
  }

  datatype Message = Message(typ: nat, id: bytes, attrs: seq<Attribute>)
  {
    ghost predicate Valid() {
      typ < 0x10000 && |id| == 12 && AllValid(attrs) && Length(attrs) < 0x10000
    }

    function Size(): nat {
      HEADER_SIZE + Length(attrs)
    }

    function Encode(): (b: bytes)
      requires Valid()
      ensures |b| == Size()
    {
      Header(typ, Length(attrs), id) + EncodeAll(attrs)
    }
  }

  /** The value of an IPv4 XOR-MAPPED-ADDRESS: a byte to ignore, the family, port and address masked with the cookie. */
  function MappedValue(reserved: byte, ip: bytes, port: nat): (v: bytes)
    requires |ip| == 4 && port < 0x10000
    ensures |v| == 8
  {
    [reserved, 1] + Bytes16(Xor16(port, COOKIE_TOP)) + Bytes32(Xor32(Be32(ip), MAGIC_COOKIE))
  }

  predicate IsMapped(a: Attribute) {
    a.typ == XOR_MAPPED_ADDRESS
  }

  /** The number of attributes before the first XOR-MAPPED-ADDRESS; all of them if there is none. */
  function FirstMapped(attrs: seq<Attribute>): (i: nat)
    ensures i <= |attrs|
    ensures i < |attrs| ==> IsMapped(attrs[i])
    ensures forall j :: 0 <= j < i ==> !IsMapped(attrs[j])
  {
    if attrs == [] || IsMapped(attrs[0]) then 0 else 1 + FirstMapped(attrs[1..])
  }
}
