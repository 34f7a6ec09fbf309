/** Little-endian integers in byte sequences, as memcpy of a 16- or 32-bit integer lays them out. */
module Bytes {
  type byte = b: nat | b < 256

  const U16: nat := 0x1_0000
  const U32: nat := 0x1_0000_0000

  // ----- 16 bits -----

  function HalfBytes(v: nat): (s: seq<byte>)
    ensures |s| == 2
  {
    [v % 256, v / 256 % 256]
  }

  function Half(s: seq<byte>): (v: nat)
    requires |s| == 2
    ensures v < U16
  {
    var a: nat, b: nat := s[0], s[1];
    a + 256 * b
  }

  lemma HalfRoundTrip(v: nat)
    requires v < U16
    ensures Half(HalfBytes(v)) == v
  {
  }

  lemma HalfIsBytes(s: seq<byte>)
    requires |s| == 2
    ensures HalfBytes(Half(s)) == s
  {
    assert Half(s) % 256 == s[0] && Half(s) / 256 == s[1];
  }

  // ----- 32 bits -----

  /** 32-bit unsigned arithmetic. */
  function Wrap(v: nat): (r: nat)
    ensures r < U32 && r <= v && (r == v <==> v < U32)
  {
    if v < U32 then v else Wrap(v - U32)
  }

  function WordBytes(v: nat): (s: seq<byte>)
    ensures |s| == 4
  {
    [v % 256, v / 256 % 256, v / 256 / 256 % 256, v / 256 / 256 / 256 % 256]
  }

  function Word(s: seq<byte>): (v: nat)
    requires |s| == 4
    ensures v < U32
  {
    var a: nat, b: nat, c: nat, d: nat := s[0], s[1], s[2], s[3];
    a + 256 * (b + 256 * (c + 256 * d))
  }

  lemma {:induction false} WrapUnique(v: nat, q: nat, r: nat)
    requires v == 0x1_0000_0000 * q + r && r < 0x1_0000_0000
    ensures Wrap(v) == r
    decreases q
  {
    if q > 0 { WrapUnique(v - 0x1_0000_0000, q - 1, r); }
  }

  /** Sums may be cut to 32 bits on the way. */
  lemma {:induction false} WrapAdd(a: nat, b: nat)
    ensures Wrap(Wrap(a) + b) == Wrap(a + b)
    decreases a
  {
    if a >= U32 { WrapAdd(a - U32, b); }
  }

  lemma WordWraps(v: nat)
    ensures Word(WordBytes(v)) == Wrap(v)
  {
    var x := v / 256;
    var y := x / 256;
    var z := y / 256;
    WrapUnique(v, z / 256, v % 256 + 256 * (x % 256 + 256 * (y % 256 + 256 * (z % 256))));
  }

  /** The two high bytes of a word. */
  lemma HighHalf(s: seq<byte>)
    requires |s| == 4
    ensures Word(s) / U16 == Half(s[2..])
  {
    var a: nat, b: nat, c: nat, d: nat := s[0], s[1], s[2], s[3];
    assert Word(s) == (a + 256 * b) + 0x1_0000 * (c + 256 * d);
  }
}
