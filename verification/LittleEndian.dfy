/** Unsigned integers as they go over the wire: bytes, least significant first. */
module LittleEndian {
  import opened Bytes

  /** The low `n` bytes of a value. */
  function ToLittleEndian(value: nat, n: nat): (bytes: seq<byte>)
    ensures |bytes| == n
    decreases value, n
  {
    if n == 0 then [] else [value % 256] + ToLittleEndian(value / 256, n - 1)
  }

  function FromLittleEndian(bytes: seq<byte>): (value: nat) {
    if bytes == [] then 0 else bytes[0] + 256 * FromLittleEndian(bytes[1..])
  }

  /** Decoding an encoded value gives it back up to a multiple `q` of what `n` bytes hold. */
  lemma {:induction false} DecodeEncoded(value: nat, n: nat) returns (q: nat)
    ensures FromLittleEndian(ToLittleEndian(value, n)) < Power256(n)
    ensures value == FromLittleEndian(ToLittleEndian(value, n)) + Power256(n) * q
  {
    if n == 0 {
      q := value;
    } else {
      q := DecodeEncoded(value / 256, n - 1);
      Associate(256, Power256(n - 1), q);
    }
  }

  lemma {:induction false} Associate(a: nat, b: nat, c: nat)
    ensures a * (b * c) == (a * b) * c
  {
  }

  lemma {:induction false} EncodeDecoded(bytes: seq<byte>)
    ensures FromLittleEndian(bytes) < Power256(|bytes|)
    ensures ToLittleEndian(FromLittleEndian(bytes), |bytes|) == bytes
  {
    if bytes != [] {
      EncodeDecoded(bytes[1..]);
      var v := FromLittleEndian(bytes);
      assert v % 256 == bytes[0] && v / 256 == FromLittleEndian(bytes[1..]);
    }
  }

  /** Four-byte form; a larger value is cut to 32 bits. */
  function Encode(value: nat): (bytes: seq<byte>)
    ensures |bytes| == 4
  {
    ToLittleEndian(value, 4)
  }

  function Decode(bytes: seq<byte>): (value: nat)
    requires |bytes| == 4
    ensures value < 0x1_0000_0000
  {
    EncodeDecoded(bytes);
    FromLittleEndian(bytes)
  }

  /** The bytes of a value, the lowest one first. */
  lemma {:induction false} EncodedBytes(value: nat)
    ensures Encode(value)
            == [value % 256, value / 0x100 % 256, value / 0x1_0000 % 256, value / 0x100_0000 % 256]
  {
    var bytes := Encode(value);
    assert bytes == [value % 256] + ToLittleEndian(value / 256, 3);
    assert ToLittleEndian(value / 256, 3) == [value / 256 % 256] + ToLittleEndian(value / 256 / 256, 2);
    assert value / 256 / 256 == value / 0x1_0000 && value / 256 / 256 / 256 == value / 0x100_0000;
  }

  /** The value of four bytes, the first one being the lowest. */
  lemma {:induction false} DecodedValue(bytes: seq<byte>)
    requires |bytes| == 4
    ensures var b0: int, b1: int, b2: int, b3: int := bytes[0], bytes[1], bytes[2], bytes[3];
            Decode(bytes) == b0 + 0x100 * b1 + 0x1_0000 * b2 + 0x100_0000 * b3
  {
    assert FromLittleEndian(bytes[1..]) == bytes[1] + 256 * FromLittleEndian(bytes[1..][1..]);
    assert bytes[1..][1..] == bytes[2..] && bytes[2..][1..] == bytes[3..];
    assert FromLittleEndian(bytes[3..]) == bytes[3];
  }

  /** Decoding undoes encoding up to the cut to 32 bits, and encoding undoes decoding. */
  lemma {:induction false} RoundTrip32(value: nat, bytes: seq<byte>)
    requires |bytes| == 4
    ensures Decode(Encode(value)) == value % 0x1_0000_0000
    ensures Encode(Decode(bytes)) == bytes
  {
    var q := DecodeEncoded(value, 4);
    EncodeDecoded(bytes);
    assert Power256(4) == 0x1_0000_0000;
  }
}
