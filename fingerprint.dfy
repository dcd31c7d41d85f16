/**
 * The change-detection fingerprint (`calculateMD5`, lines 64-84). Despite its name it is
 * not MD5 but a rolling string hash: starting from 0, every character code c of the file
 * turns h into ((h << 5) - h) + c, which `h & h` then truncates to a signed 32-bit integer.
 * The model keeps that arithmetic exactly, with the wrap-around written out, and proves it
 * equal to the multiply-by-31 polynomial hash taken modulo 2^32.
 */
module Fingerprint {
  import opened Common

  const TwoTo31: int := 0x8000_0000
  const TwoTo32: int := 0x1_0000_0000

  predicate IsInt32(x: int)
  {
    -TwoTo31 <= x < TwoTo31
  }

  /** ECMAScript ToInt32: the signed 32-bit integer congruent to `x` modulo 2^32. */
  function ToInt32(x: int): (r: int)
    ensures IsInt32(r)
    ensures (x - r) % TwoTo32 == 0
    ensures IsInt32(x) ==> r == x
  {
    var m := x % TwoTo32;
    if m >= TwoTo31 then m - TwoTo32 else m
  }

  /** Two integers congruent modulo 2^32 truncate to the same 32-bit value. */
  lemma ToInt32Congruent(x: int, y: int)
    requires (x - y) % TwoTo32 == 0
    ensures ToInt32(x) == ToInt32(y)
  {
    var q := (x - y) / TwoTo32;
    assert x == y + q * TwoTo32;
    ModuloShift(y, q);
  }

  lemma ModuloShift(y: int, q: int)
    ensures (y + q * TwoTo32) % TwoTo32 == y % TwoTo32
  {
  }

  /** JavaScript's `h << 5` on an int32 operand: the product by 32, truncated to 32 bits. */
  function ShiftLeft5(h: int): int
  {
    ToInt32(h * 32)
  }

  /** One pass of the loop body at lines 77-78. */
  function Step(h: int, c: Byte): int
  {
    ToInt32(ShiftLeft5(h) - h + c)
  }

  /** The loop of lines 76-79 run from the running value `h` over the codes `s`. */
  function HashFrom(h: int, s: seq<Byte>): (r: int)
    ensures IsInt32(h) || s != [] ==> IsInt32(r)
    decreases s
  {
    if s == [] then h else HashFrom(Step(h, s[0]), s[1..])
  }

  /** The fingerprint of a file's content: the loop started at 0. */
  function Hash(s: seq<Byte>): (r: int)
    ensures IsInt32(r)
  {
    HashFrom(0, s)
  }

  /** The hash of a file: null when it is absent or cannot be read (lines 66, 81-82). */
  function FileHash(f: FileState): (r: Option<int>)
    ensures r.None? <==> !f.Readable?
    ensures r.Some? ==> IsInt32(r.value)
  {
    match f
    case Readable(content) => Some(Hash(content))
    case _ => None
  }

  /** The step is the multiply-by-31 update, then a 32-bit truncation. */
  lemma StepIsTimes31(h: int, c: Byte)
    requires IsInt32(h)
    ensures Step(h, c) == ToInt32(31 * h + c)
  {
    var shifted := ShiftLeft5(h);
    assert (h * 32 - shifted) % TwoTo32 == 0;
    assert (shifted - h + c) - (31 * h + c) == shifted - h * 32;
    ToInt32Congruent(shifted - h + c, 31 * h + c);
  }

  /** The same polynomial in unbounded integers: Java's String.hashCode without overflow. */
  function PolyFrom(acc: int, s: seq<Byte>): int
    decreases s
  {
    if s == [] then acc else PolyFrom(31 * acc + s[0], s[1..])
  }

  /** Truncating once at the end gives what the loop gets by truncating at every step. */
  lemma {:induction false} HashFromIsTruncatedPoly(acc: int, s: seq<Byte>)
    ensures HashFrom(ToInt32(acc), s) == ToInt32(PolyFrom(acc, s))
    decreases s
  {
    if s != [] {
      var t, next := ToInt32(acc), 31 * acc + s[0];
      assert HashFrom(t, s) == HashFrom(Step(t, s[0]), s[1..]);
      assert PolyFrom(acc, s) == PolyFrom(next, s[1..]);
      StepIsTimes31(t, s[0]);
      TruncatedStep(acc, s[0]);
      HashFromIsTruncatedPoly(next, s[1..]);
    }
  }

  /** One step from the truncated value lands where the step from the exact value does. */
  lemma TruncatedStep(acc: int, c: Byte)
    ensures ToInt32(31 * ToInt32(acc) + c) == ToInt32(31 * acc + c)
  {
    var t := ToInt32(acc);
    assert (31 * t + c) - (31 * acc + c) == 31 * (t - acc);
    MultipleOfModulus(t - acc, 31);
    ToInt32Congruent(31 * t + c, 31 * acc + c);
  }

  lemma MultipleOfModulus(d: int, k: int)
    requires d % TwoTo32 == 0
    ensures (k * d) % TwoTo32 == 0
  {
    var q := d / TwoTo32;
    assert d == q * TwoTo32;
    assert k * d == (k * q) * TwoTo32;
  }

  /** The fingerprint is the 31-polynomial of the character codes, reduced to int32. */
  lemma HashIsTruncatedPoly(s: seq<Byte>)
    ensures IsInt32(Hash(s))
    ensures Hash(s) == ToInt32(PolyFrom(0, s))
  {
    HashFromIsTruncatedPoly(0, s);
  }

  /** The classic collision "Aa" / "BB": different files whose fingerprints agree. */
  lemma Collision()
    ensures var aa: seq<Byte>, bb: seq<Byte> := [65, 97], [66, 66];
      aa != bb && Hash(aa) == Hash(bb) == 2112
  {
    var aa: seq<Byte>, bb: seq<Byte> := [65, 97], [66, 66];
    assert aa[1] != bb[1];
  }

  /** `calculateMD5`: reads the file (an absent or unreadable one yields null) and runs the loop. */
  method CalculateHash(file: FileState) returns (hash: Option<int>)
    ensures hash == FileHash(file)
    ensures hash.Some? ==> IsInt32(hash.value)
  {
    if file.Missing? {
      return None;
    }
    if file.Unreadable? {
      return None;
    }
    var content := file.content;
    var h := 0;
    var i := 0;
    while i < |content|
      invariant 0 <= i <= |content|
      invariant IsInt32(h)
      invariant HashFrom(h, content[i..]) == Hash(content)
    {
      assert content[i..][0] == content[i] && content[i..][1..] == content[i + 1..];
      h := ShiftLeft5(h) - h + content[i];
      h := ToInt32(h);
      i := i + 1;
    }
    return Some(h);
  }
}
