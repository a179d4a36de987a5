/** Fixed-width integers, byte order and the few datatypes every component shares. */
module Base {
  type byte = x: int | 0 <= x < 0x100
  type u16 = x: int | 0 <= x < 0x1_0000
  type u32 = x: int | 0 <= x < 0x1_0000_0000
  type u64 = x: int | 0 <= x < 0x1_0000_0000_0000_0000

  datatype Option<+T> = None | Some(value: T)

  /** Two's complement 32-bit wrap-around: what a C++ `int` keeps of a wider value. */
  function Wrap32(x: int): (r: int)
    ensures -0x8000_0000 <= r < 0x8000_0000
    ensures -0x8000_0000 <= x < 0x8000_0000 ==> r == x
  {
    (x + 0x8000_0000) % 0x1_0000_0000 - 0x8000_0000
  }

  lemma AddMultipleOfFour(x: nat, y: nat)
    requires y % 4 == 0
    ensures (x + y) % 4 == x % 4
  {
    assert y == 4 * (y / 4);
  }

  function Max(a: int, b: int): int {
    if a < b then b else a
  }

  function Min(a: int, b: int): int {
    if a < b then a else b
  }

  // ---- Runs ----

  datatype Timed<E> = Timed(event: E, at: int)

  /** The clock never runs backwards, and starts no earlier than `now`. */
  ghost predicate ClockRuns<E>(now: int, events: seq<Timed<E>>) {
    && (forall i :: 0 <= i < |events| ==> now <= events[i].at)
    && (forall i, j :: 0 <= i < j < |events| ==> events[i].at <= events[j].at)
  }

  function EndTime<E>(now: int, events: seq<Timed<E>>): int {
    if events == [] then now else events[|events| - 1].at
  }

  // ---- Byte order ----

  /** Network (big-endian) byte order. */
  function Be16(x: u16): (b: seq<byte>)
    ensures |b| == 2
  {
    [x / 0x100, x % 0x100]
  }

  function Be32(x: u32): (b: seq<byte>)
    ensures |b| == 4
  {
    Be16(x / 0x1_0000) + Be16(x % 0x1_0000)
  }

  function Be64(x: u64): (b: seq<byte>)
    ensures |b| == 8
  {
    Be32(x / 0x1_0000_0000) + Be32(x % 0x1_0000_0000)
  }

  function GetBe16(d: seq<byte>, pos: nat): u16
    requires pos + 2 <= |d|
  {
    (d[pos] as int) * 0x100 + d[pos + 1]
  }

  function GetBe32(d: seq<byte>, pos: nat): u32
    requires pos + 4 <= |d|
  {
    (GetBe16(d, pos) as int) * 0x1_0000 + GetBe16(d, pos + 2)
  }

  /** Reading back a 16-bit field that stands anywhere inside a longer buffer. */
  lemma GetPut16(d: seq<byte>, pos: nat, x: u16)
    requires pos + 2 <= |d| && d[pos..pos + 2] == Be16(x)
    ensures GetBe16(d, pos) == x
  {
    assert d[pos] == d[pos..pos + 2][0] && d[pos + 1] == d[pos..pos + 2][1];
  }

  lemma GetPut32(d: seq<byte>, pos: nat, x: u32)
    requires pos + 4 <= |d| && d[pos..pos + 4] == Be32(x)
    ensures GetBe32(d, pos) == x
  {
    assert d[pos..pos + 2] == d[pos..pos + 4][..2] == Be16(x / 0x1_0000);
    assert d[pos + 2..pos + 4] == d[pos..pos + 4][2..] == Be16(x % 0x1_0000);
    GetPut16(d, pos, x / 0x1_0000);
    GetPut16(d, pos + 2, x % 0x1_0000);
  }

  /** A slice of a window of `d` is a slice of `d`. */
  lemma SliceOfWindow<T>(d: seq<T>, pos: nat, w: seq<T>, lo: nat, hi: nat)
    requires lo <= hi <= |w| && pos + |w| <= |d| && d[pos..pos + |w|] == w
    ensures d[pos + lo..pos + hi] == w[lo..hi]
  {
    forall k | lo <= k < hi
      ensures d[pos + k] == w[k]
    {
      assert d[pos..pos + |w|][k] == d[pos + k];
    }
  }

  /** The pieces of a concatenation are found where their lengths say. */
  lemma Pieces<T>(a: seq<T>, b: seq<T>, c: seq<T>)
    ensures (a + b)[..|a|] == a && (a + b)[|a|..] == b
    ensures (a + b + c)[..|a|] == a && (a + b + c)[..|a| + |b|] == a + b
    ensures (a + b + c)[|a|..|a| + |b|] == b && (a + b + c)[|a| + |b|..] == c
  {
  }

  lemma ConcatAssoc<T>(a: seq<T>, b: seq<T>, c: seq<T>)
    ensures (a + b) + c == a + (b + c)
  {
  }

  function Zeros(n: nat): (z: seq<byte>)
    ensures |z| == n
  {
    seq(n, _ => 0)
  }

  /** Bitwise exclusive or of two naturals. */
  function Xor(a: nat, b: nat): nat {
    if a == 0 && b == 0 then 0 else (if a % 2 == b % 2 then 0 else 1) + 2 * Xor(a / 2, b / 2)
  }

  /** The result of `Xor` needs no more bits than its arguments. */
  lemma {:induction false} XorBelow(a: nat, b: nat, bits: nat)
    requires a < Pow2(bits) && b < Pow2(bits)
    ensures Xor(a, b) < Pow2(bits)
  {
    if bits == 0 {
    } else {
      XorBelow(a / 2, b / 2, bits - 1);
    }
  }

  lemma XorStep(bit: nat, half: nat, b: nat)
    requires bit < 2
    ensures Xor(bit + 2 * half, b) == (if bit == b % 2 then 0 else 1) + 2 * Xor(half, b / 2)
  {
    assert (bit + 2 * half) % 2 == bit && (bit + 2 * half) / 2 == half;
  }

  /** Applying the same mask twice restores the value. */
  lemma {:induction false} XorUndo(a: nat, b: nat)
    ensures Xor(Xor(a, b), b) == a
    decreases a + b
  {
    if a == 0 && b == 0 {
    } else {
      XorUndo(a / 2, b / 2);
      XorStep(if a % 2 == b % 2 then 0 else 1, Xor(a / 2, b / 2), b);
    }
  }

  function Pow2(n: nat): nat {
    if n == 0 then 1 else 2 * Pow2(n - 1)
  }

  function Xor16(a: u16, b: u16): u16 {
    PowersOfTwo();
    XorBelow(a, b, 16);
    Xor(a, b)
  }

  function Xor32(a: u32, b: u32): u32 {
    PowersOfTwo();
    XorBelow(a, b, 32);
    Xor(a, b)
  }

  lemma PowersOfTwo()
    ensures Pow2(16) == 0x1_0000
    ensures Pow2(32) == 0x1_0000_0000
  {
    assert Pow2(8) == 0x100;
    assert Pow2(12) == 0x1000;
    assert Pow2(16) == 0x1_0000;
    assert Pow2(20) == 0x10_0000;
    assert Pow2(24) == 0x100_0000;
    assert Pow2(28) == 0x1000_0000;
  }
}
