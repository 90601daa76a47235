/** Byte-level encodings of the stream index: unsigned and signed varints, big-endian words, index
    rows, key prefixes and the end of a key range. */
module ByteCodec {
  import opened Wrappers

  type Byte = b: int | 0 <= b < 256
  type Bytes = seq<Byte>

  const U64: nat := 0x1_0000_0000_0000_0000
  const I63: int := 0x8000_0000_0000_0000

  // ----- unsigned varints (encoding/binary) -----

  function Uvarint(n: nat): (r: Bytes)
    ensures r != []
  {
    if n < 128 then [n] else [n % 128 + 128] + Uvarint(n / 128)
  }

  /** `binary.Uvarint` from byte `i` on: value and bytes read; too short or above 64 bits is unreadable. */
  function ReadUvarint(s: Bytes, i: nat): (r: Option<(nat, nat)>)
    requires i <= 10
    ensures r.Some? ==> 0 < r.value.1 <= |s|
    decreases 10 - i
  {
    if s == [] || i == 10 then None
    else if s[0] < 128 then
      if i == 9 && s[0] > 1 then None else Some((s[0], 1))
    else
      var rest := ReadUvarint(s[1..], i + 1);
      if rest.None? then None else Some((s[0] - 128 + 128 * rest.value.0, 1 + rest.value.1))
  }

  /** What still fits when `i` bytes of a 64-bit varint are written. */
  function Room(i: nat): nat
    requires i <= 9
    decreases 9 - i
  {
    if i == 9 then 2 else 128 * Room(i + 1)
  }

  lemma RoomIsU64()
    ensures Room(0) == U64
  {
    assert Room(8) == 256;
    assert Room(6) == 0x40_0000;
    assert Room(4) == 0x10_0000_0000;
    assert Room(2) == 0x4_0000_0000_0000;
  }

  lemma {:induction false} UvarintRoundTripFrom(n: nat, i: nat, rest: Bytes)
    requires i <= 9 && n < Room(i)
    ensures ReadUvarint(Uvarint(n) + rest, i) == Some((n, |Uvarint(n)|))
    decreases 9 - i
  {
    var s := Uvarint(n) + rest;
    if n >= 128 {
      UvarintRoundTripFrom(n / 128, i + 1, rest);
      assert s[0] == n % 128 + 128;
      assert s[1..] == Uvarint(n / 128) + rest;
    } else {
      assert s[0] == n;
    }
  }

  /** Reading inverts writing for every 64-bit value, whatever follows. */
  lemma UvarintRoundTrip(n: nat, rest: Bytes)
    requires n < U64
    ensures ReadUvarint(Uvarint(n) + rest, 0) == Some((n, |Uvarint(n)|))
  {
    RoomIsU64();
    UvarintRoundTripFrom(n, 0, rest);
  }

  /** The value of a varint: seven bits a byte, the lowest first. */
  function Base128(s: Bytes): nat {
    if s == [] then 0 else s[0] % 128 + 128 * Base128(s[1..])
  }

  /** The high bit says that more bytes follow. */
  predicate OneVarint(s: Bytes) {
    s != [] && s[|s| - 1] < 128 && forall i :: 0 <= i < |s| - 1 ==> s[i] >= 128
  }

  /** The bytes written are one varint of the value, without a superfluous byte. */
  lemma {:induction false} UvarintBytes(n: nat)
    ensures OneVarint(Uvarint(n)) && Base128(Uvarint(n)) == n
    ensures |Uvarint(n)| > 1 ==> Uvarint(n)[|Uvarint(n)| - 1] > 0
    decreases n
  {
    var s := Uvarint(n);
    if n >= 128 {
      UvarintBytes(n / 128);
      var rest := Uvarint(n / 128);
      assert s == [n % 128 + 128] + rest && s[1..] == rest;
      assert forall i :: 0 < i < |s| ==> s[i] == rest[i - 1];
    } else {
      assert s[1..] == [];
    }
  }

  /** What is read is the value of the varint the bytes begin with, whatever follows. */
  lemma {:induction false} ReadsVarint(s: Bytes, i: nat)
    requires i <= 10
    ensures ReadUvarint(s, i).Some? ==>
      OneVarint(s[..ReadUvarint(s, i).value.1]) && Base128(s[..ReadUvarint(s, i).value.1]) == ReadUvarint(s, i).value.0
    decreases 10 - i
  {
    var r := ReadUvarint(s, i);
    if r.Some? {
      var bytes := s[..r.value.1];
      if s[0] < 128 {
        assert bytes == [s[0]] && bytes[1..] == [];
      } else {
        ReadsVarint(s[1..], i + 1);
        var rest := s[1..][..r.value.1 - 1];
        assert bytes == [s[0]] + rest && bytes[1..] == rest;
        assert forall j :: 0 < j < |bytes| ==> bytes[j] == rest[j - 1];
      }
    }
  }

  // ----- signed varints -----

  function ZigZag(x: int): nat {
    if x >= 0 then 2 * x else -2 * x - 1
  }

  function UnZigZag(u: nat): int {
    if u % 2 == 0 then u / 2 else -(u / 2) - 1
  }

  /** Small magnitudes of either sign get small codes: 0, -1, 1, -2, 2 and so on. */
  lemma ZigZagOrder(x: int)
    ensures ZigZag(0) == 0 && (x > 0 ==> ZigZag(-x) == ZigZag(x - 1) + 1 && ZigZag(x) == ZigZag(-x) + 1)
  {
  }

  function Varint(x: int): Bytes {
    Uvarint(ZigZag(x))
  }

  function ReadVarint(s: Bytes): Option<int> {
    match ReadUvarint(s, 0)
    case None => None
    case Some(r) => Some(UnZigZag(r.0))
  }

  lemma VarintRoundTrip(x: int)
    requires -I63 <= x < I63
    ensures ReadVarint(Varint(x)) == Some(x)
  {
    UvarintRoundTrip(ZigZag(x), []);
    assert Uvarint(ZigZag(x)) + [] == Uvarint(ZigZag(x));
  }

  // ----- big-endian words -----

  function Be(n: nat, k: nat): (r: Bytes)
    ensures |r| == k
  {
    if k == 0 then [] else Be(n / 256, k - 1) + [n % 256]
  }

  function ReadBe(s: Bytes): nat {
    if s == [] then 0 else 256 * ReadBe(s[..|s| - 1]) + s[|s| - 1]
  }

  function Pow256(k: nat): nat {
    if k == 0 then 1 else 256 * Pow256(k - 1)
  }

  lemma {:induction false} BeRoundTripOf(n: nat, k: nat)
    requires n < Pow256(k)
    ensures ReadBe(Be(n, k)) == n
    decreases k
  {
    if k > 0 {
      BeRoundTripOf(n / 256, k - 1);
      assert Be(n, k)[..k - 1] == Be(n / 256, k - 1);
    }
  }

  function Be64(n: nat): Bytes {
    Be(n, 8)
  }

  lemma Pow256Of8()
    ensures Pow256(8) == U64
  {
    assert Pow256(2) == 0x1_0000;
    assert Pow256(4) == 0x1_0000_0000;
    assert Pow256(6) == 0x1_0000_0000_0000;
  }

  lemma Be64RoundTrip(n: nat)
    requires n < U64
    ensures ReadBe(Be64(n)) == n && |Be64(n)| == 8
  {
    Pow256Of8();
    BeRoundTripOf(n, 8);
  }

  lemma {:induction false} BeforeAppend(p: Bytes, q: Bytes, x: Byte, y: Byte)
    requires |p| == |q|
    ensures Before(p + [x], q + [y]) <==> Before(p, q) || (p == q && x < y)
    decreases |p|
  {
    if p == [] {
      assert p + [x] == [x] && q + [y] == [y];
    } else {
      assert (p + [x])[1..] == p[1..] + [x] && (q + [y])[1..] == q[1..] + [y];
      assert p == [p[0]] + p[1..] && q == [q[0]] + q[1..];
      BeforeAppend(p[1..], q[1..], x, y);
    }
  }

  /** The most significant byte comes first: words sort as the numbers they hold. */
  lemma {:induction false} BeOrder(a: nat, b: nat, k: nat)
    requires a < b < Pow256(k)
    ensures Before(Be(a, k), Be(b, k))
    decreases k
  {
    BeforeAppend(Be(a / 256, k - 1), Be(b / 256, k - 1), a % 256, b % 256);
    if a / 256 < b / 256 { BeOrder(a / 256, b / 256, k - 1); }
  }

  // ----- index rows -----

  function EncodeRow(fileID: nat, position: nat): Bytes {
    Uvarint(fileID) + Uvarint(position)
  }

  /** `decodeRow`: an unreadable part or a position above the signed range is an error. */
  function DecodeRow(value: Bytes): (r: Option<(nat, nat)>)
    ensures r.Some? ==> r.value.1 < I63
  {
    match ReadUvarint(value, 0)
    case None => None
    case Some(f) =>
      match ReadUvarint(value[f.1..], 0)
      case None => None
      case Some(p) => if p.0 >= I63 then None else Some((f.0, p.0))
  }

  /** An index row is the varint of the file id followed by the varint of the position. */
  lemma RowBytes(fileID: nat, position: nat) returns (file: Bytes, place: Bytes)
    ensures EncodeRow(fileID, position) == file + place
    ensures OneVarint(file) && Base128(file) == fileID && OneVarint(place) && Base128(place) == position
  {
    file, place := Uvarint(fileID), Uvarint(position);
    UvarintBytes(fileID);
    UvarintBytes(position);
  }

  /** Every file id and every non-negative 63-bit position survives the round trip. */
  lemma RowRoundTrip(fileID: nat, position: nat)
    requires fileID < U64 && position < I63
    ensures DecodeRow(EncodeRow(fileID, position)) == Some((fileID, position))
  {
    UvarintRoundTrip(fileID, Uvarint(position));
    UvarintRoundTrip(position, []);
    assert Uvarint(position) + [] == Uvarint(position);
    assert EncodeRow(fileID, position)[|Uvarint(fileID)|..] == Uvarint(position);
  }

  // ----- key ranges -----

  /** Byte-wise order of the store. */
  predicate Before(a: Bytes, b: Bytes) {
    if b == [] then false
    else if a == [] then true
    else if a[0] != b[0] then a[0] < b[0]
    else Before(a[1..], b[1..])
  }

  predicate AtOrAfter(s: Bytes, a: Bytes) {
    s == a || Before(a, s)
  }

  /** The carry of `prefixEnd`: drop trailing 0xFF bytes, then count the last byte up. */
  function EndOf(prefix: Bytes): Option<Bytes> {
    if prefix == [] then None
    else
      var last := prefix[|prefix| - 1];
      if last < 255 then Some(prefix[..|prefix| - 1] + [last + 1]) else EndOf(prefix[..|prefix| - 1])
  }

  /** `prefixEnd`, on its own buffer. */
  method PrefixEnd(prefix: Bytes) returns (end: Option<Bytes>)
    ensures end == EndOf(prefix)
    ensures end.None? <==> forall i :: 0 <= i < |prefix| ==> prefix[i] == 255
  {
    var buffer := new Byte[|prefix|](i requires 0 <= i < |prefix| => prefix[i]);
    var i := |prefix|;
    assert prefix[..i] == prefix && buffer[..i] == prefix;
    while i > 0
      invariant 0 <= i <= |prefix| && buffer.Length == |prefix|
      invariant buffer[..i] == prefix[..i] && EndOf(prefix) == EndOf(prefix[..i])
      invariant forall j :: i <= j < |prefix| ==> prefix[j] == 255
    {
      i := i - 1;
      assert prefix[..i + 1][..i] == prefix[..i];
      var b: int := buffer[i];
      buffer[i] := (b + 1) % 256;
      if buffer[i] != 0 {
        assert buffer[..i + 1] == prefix[..i] + [prefix[i] + 1];
        return Some(buffer[..i + 1]);
      }
    }
    end := None;
  }

  lemma EndAfterHead(p: Bytes)
    requires p != []
    ensures p[0] < 255 || EndOf(p[1..]).Some? ==> EndOf(p).Some?
    ensures EndOf(p[1..]).Some? ==> EndOf(p) == Some([p[0]] + EndOf(p[1..]).value)
    ensures EndOf(p[1..]).None? && p[0] < 255 ==> EndOf(p) == Some([p[0] + 1])
    ensures EndOf(p[1..]).None? && p[0] == 255 ==> EndOf(p).None?
    decreases |p|
  {
    if |p| > 1 {
      var front := p[..|p| - 1];
      assert p[1..][..|p| - 2] == front[1..];
      EndAfterHead(front);
      assert p[|p| - 1] == p[1..][|p| - 2];
      if p[|p| - 1] < 255 { assert front + [p[|p| - 1] + 1] == [p[0]] + (front[1..] + [p[|p| - 1] + 1]); }
    } else {
      assert p[1..] == [] && p[..0] == [];
      if p[0] < 255 { assert [] + [p[0] + 1] == [p[0] + 1]; }
    }
  }

  /** The keys in [prefix, prefixEnd) are exactly the keys that start with the prefix. */
  lemma {:induction false} PrefixRange(p: Bytes, s: Bytes)
    requires EndOf(p).Some?
    ensures AtOrAfter(s, p) && Before(s, EndOf(p).value) <==> p <= s
    decreases |p|
  {
    EndAfterHead(p);
    var e := EndOf(p).value;
    if s == [] {
    } else if s[0] == p[0] {
      assert s == [s[0]] + s[1..] && p == [p[0]] + p[1..];
      assert AtOrAfter(s, p) <==> AtOrAfter(s[1..], p[1..]);
      assert p <= s <==> p[1..] <= s[1..];
      if EndOf(p[1..]).Some? {
        assert e[1..] == EndOf(p[1..]).value;
        PrefixRange(p[1..], s[1..]);
      } else {
        AllOnes(p[1..], s[1..]);
      }
    } else {
      assert !(p <= s);
    }
  }

  /** From a prefix of 0xFF bytes on there is nothing else. */
  lemma {:induction false} AllOnes(p: Bytes, s: Bytes)
    requires EndOf(p).None?
    ensures AtOrAfter(s, p) <==> p <= s
    decreases |p|
  {
    if p != [] {
      EndAfterHead(p);
      assert p[0] == 255 && EndOf(p[1..]).None?;
      if s != [] {
        AllOnes(p[1..], s[1..]);
        assert s == [s[0]] + s[1..] && p == [p[0]] + p[1..];
      }
    } else if s != [] {
      assert Before(p, s);
    }
  }
}
