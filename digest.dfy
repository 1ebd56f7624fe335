/** Bytes and the UTF-8 encoding that `str.encode("UTF-8")` performs. */
module Utf8 {

  newtype byte = x: int | 0 <= x < 256

  /** A continuation byte `10xxxxxx`. */
  predicate IsContinuation(b: byte) {
    0x80 <= b < 0xC0
  }

  /** The UTF-8 encoding of one Unicode scalar value. */
  function EncodeChar(c: char): (r: seq<byte>)
    ensures 1 <= |r| <= 4
    ensures |r| == 1 <==> c as int < 0x80
    ensures |r| == 1 ==> r[0] as int == c as int
    ensures |r| > 1 ==> 0xC0 <= r[0] && forall i :: 1 <= i < |r| ==> IsContinuation(r[i])
  {
    var n := c as int;
    if n < 0x80 then [n as byte]
    else if n < 0x800 then [(0xC0 + n / 64) as byte, (0x80 + n % 64) as byte]
    else if n < 0x10000 then
      [(0xE0 + n / 4096) as byte, (0x80 + (n / 64) % 64) as byte, (0x80 + n % 64) as byte]
    else
      [(0xF0 + n / 262144) as byte, (0x80 + (n / 4096) % 64) as byte,
       (0x80 + (n / 64) % 64) as byte, (0x80 + n % 64) as byte]
  }

  /** `s.encode("UTF-8")`. */
  function Encode(s: string): (r: seq<byte>)
    ensures |r| >= |s|
    ensures s == [] <==> r == []
  {
    if |s| == 0 then [] else Encode(s[..|s| - 1]) + EncodeChar(s[|s| - 1])
  }

  predicate IsAscii(s: string) {
    forall i :: 0 <= i < |s| ==> s[i] as int < 0x80
  }

  /** An ASCII string encodes to its own code points, one byte per character. */
  lemma {:induction false} EncodeAscii(s: string)
    requires IsAscii(s)
    ensures |Encode(s)| == |s|
    ensures forall i :: 0 <= i < |s| ==> Encode(s)[i] as int == s[i] as int
  {
    if |s| > 0 {
      EncodeAscii(s[..|s| - 1]);
    }
  }
}

/** Decimal rendering of naturals, as `str(n)` does for a non-negative int. */
module Decimal {

  predicate IsDigit(c: char) {
    '0' <= c <= '9'
  }

  predicate AllDigits(s: string) {
    forall i :: 0 <= i < |s| ==> IsDigit(s[i])
  }

  function DigitChar(d: nat): (c: char)
    requires d < 10
    ensures IsDigit(c) && c as int - '0' as int == d
  {
    (d + '0' as int) as char
  }

  /** `str(n)`: digits only, no leading zero except for "0" itself. */
  function Show(n: nat): (r: string)
    ensures |r| >= 1 && AllDigits(r)
    ensures |r| > 1 ==> r[0] != '0'
    ensures n < 10 <==> |r| == 1
  {
    if n < 10 then [DigitChar(n)] else Show(n / 10) + [DigitChar(n % 10)]
  }

  /** `int(s)` for a string of digits. */
  function Parse(s: string): nat
    requires AllDigits(s)
  {
    if |s| == 0 then 0 else 10 * Parse(s[..|s| - 1]) + (s[|s| - 1] as int - '0' as int)
  }

  /** Rendering is inverted by parsing: `int(str(n)) == n`. */
  lemma {:induction false} ParseShow(n: nat)
    ensures Parse(Show(n)) == n
  {
    if n >= 10 {
      ParseShow(n / 10);
      var s := Show(n);
      assert s[..|s| - 1] == Show(n / 10);
    }
  }

  /** Rendering is injective: distinct numbers never share a decimal string. */
  lemma ShowInjective(m: nat, n: nat)
    requires Show(m) == Show(n)
    ensures m == n
  {
    ParseShow(m);
    ParseShow(n);
  }
}

/**
 * The Adler-32 checksum of section 2.2 of RFC 1950, computed byte by byte with
 * both sums reduced modulo 65521 at every step (the variant section 8.2 of
 * RFC 1950 discusses), and the closed form it must agree with.
 */
module Adler32 {
  import opened Utf8

  const Base: nat := 65521

  datatype Sums = Sums(a: nat, b: nat)

  /** The running sums after `data`, starting from A = 1, B = 0. */
  function Run(data: seq<byte>): (r: Sums)
    ensures r.a < Base && r.b < Base
  {
    if |data| == 0 then Sums(1, 0)
    else
      var prev := Run(data[..|data| - 1]);
      var a := (prev.a + data[|data| - 1] as nat) % Base;
      Sums(a, (prev.b + a) % Base)
  }

  /** The checksum as zlib returns it: B in the high 16 bits, A in the low 16. */
  function Checksum(data: seq<byte>): nat {
    Run(data).b * 65536 + Run(data).a
  }

  /** The checksum fits in 32 bits, with B in the high half and A in the low half. */
  lemma ChecksumHalves(data: seq<byte>)
    ensures Checksum(data) < 0x1_0000_0000
    ensures Checksum(data) % 65536 == Run(data).a && Checksum(data) / 65536 == Run(data).b
  {
  }

  /** Sum of the bytes. */
  function Sum(data: seq<byte>): nat {
    if |data| == 0 then 0 else Sum(data[..|data| - 1]) + data[|data| - 1] as nat
  }

  /** Sum, over every prefix, of the unreduced A after that prefix (B before reduction). */
  function SumOfA(data: seq<byte>): nat {
    if |data| == 0 then 0 else SumOfA(data[..|data| - 1]) + 1 + Sum(data)
  }

  lemma ModAddLeft(x: nat, y: nat)
    ensures (x % Base + y) % Base == (x + y) % Base
  {
    var q := x / Base;
    assert x == q * Base + x % Base;
  }

  /**
   * Reducing at every step computes RFC 1950's definition: A is 1 plus the sum
   * of the bytes, B is the sum of the successive values of A, both modulo 65521.
   */
  lemma {:induction false} RunClosedForm(data: seq<byte>)
    ensures Run(data) == Sums((1 + Sum(data)) % Base, SumOfA(data) % Base)
  {
    if |data| > 0 {
      var init := data[..|data| - 1];
      var d := data[|data| - 1] as nat;
      RunClosedForm(init);
      var prev := Run(init);
      var total := 1 + Sum(data);
      assert total == 1 + Sum(init) + d;
      var a := (prev.a + d) % Base;
      ModAddLeft(1 + Sum(init), d);
      assert a == total % Base;
      ModAddLeft(SumOfA(init), a);
      ModAddLeft(total, SumOfA(init));
      assert SumOfA(data) == SumOfA(init) + total;
      assert (prev.b + a) % Base == SumOfA(data) % Base;
      assert Run(data) == Sums(a, (prev.b + a) % Base);
    }
  }

  /** The checksum of nothing is 1. */
  lemma ChecksumEmpty()
    ensures Checksum([]) == 1
  {
  }

  /**
   * Adler-32 is not injective: two inputs with equal length, equal byte sum and
   * equal weighted sum collide. "aca" and "bab" are one such pair.
   */
  lemma ChecksumCollision()
    ensures Checksum([97, 99, 97]) == Checksum([98, 97, 98])
  {
    var x: seq<byte> := [97, 99, 97];
    var y: seq<byte> := [98, 97, 98];
    assert x[..2][..1] == [97] && y[..2][..1] == [98];
    assert x[..2][1] == 99 && y[..2][1] == 97;
    assert Run([][..0]) == Sums(1, 0);
    assert Run([97]) == Sums(98, 98);
    assert Run(x[..2]) == Sums(197, 295);
    assert Run(x) == Sums(294, 589);
    assert Run([98]) == Sums(99, 99);
    assert Run(y[..2]) == Sums(196, 295);
    assert Run(y) == Sums(294, 589);
  }
}

/** `get_digest`: the decimal Adler-32 of a string's UTF-8 bytes, the dedup key of every media resource. */
module Digest {
  import Utf8
  import Decimal
  import Adler32

  function GetDigest(s: string): (r: string)
    ensures Decimal.AllDigits(r) && 1 <= |r|
  {
    Decimal.Show(Adler32.Checksum(Utf8.Encode(s)))
  }

  /** The digest is the decimal reading of the 32-bit Adler-32 checksum of the UTF-8 bytes. */
  lemma DigestValue(s: string)
    ensures Decimal.Parse(GetDigest(s)) == Adler32.Checksum(Utf8.Encode(s))
    ensures Decimal.Parse(GetDigest(s)) < 0x1_0000_0000
  {
    Decimal.ParseShow(Adler32.Checksum(Utf8.Encode(s)));
    Adler32.ChecksumHalves(Utf8.Encode(s));
  }

  /** Two strings share a digest exactly when their UTF-8 bytes share an Adler-32 checksum. */
  lemma DigestEqualIff(s: string, t: string)
    ensures GetDigest(s) == GetDigest(t) <==> Adler32.Checksum(Utf8.Encode(s)) == Adler32.Checksum(Utf8.Encode(t))
  {
    DigestValue(s);
    DigestValue(t);
    if GetDigest(s) == GetDigest(t) {
      Decimal.ShowInjective(Adler32.Checksum(Utf8.Encode(s)), Adler32.Checksum(Utf8.Encode(t)));
    }
  }

  /** `get_digest("") == "1"`. */
  lemma DigestEmpty()
    ensures GetDigest("") == "1"
  {
    Adler32.ChecksumEmpty();
  }

  /** Distinct strings can share a digest: "aca" and "bab" do. */
  lemma DigestCollision()
    ensures "aca" != "bab" && GetDigest("aca") == GetDigest("bab")
  {
    Utf8.EncodeAscii("aca");
    Utf8.EncodeAscii("bab");
    assert Utf8.Encode("aca") == [97, 99, 97];
    assert Utf8.Encode("bab") == [98, 97, 98];
    Adler32.ChecksumCollision();
  }
}
