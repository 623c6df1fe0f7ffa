/** Machine words and small helpers shared by the models. */
module Words {

  const U8: int := 0x100
  const U16: int := 0x1_0000
  const U32: int := 0x1_0000_0000
  const U64: int := 0x1_0000_0000_0000_0000

  /** Centre force in offset binary. */
  const CENTRE: int := 0x8000

  type Byte = b: int | 0 <= b < U8
  type Word16 = w: int | 0 <= w < U16
  type Int16 = v: int | -0x8000 <= v <= 0x7fff

  datatype Option<T> = None | Some(value: T)

  /** A little-endian 16-bit value inside a report. */
  function WordAt(bs: seq<Byte>, at: nat): (w: Word16)
    requires at + 1 < |bs|
  {
    bs[at] as int + 256 * (bs[at + 1] as int)
  }

  /** C's integer division: truncates toward zero. */
  function TruncDiv(a: int, b: int): (q: int)
    requires b > 0
  {
    if a >= 0 then a / b else -((-a) / b)
  }

  /** A wider value cut down to 32 bits signed. */
  function ToS32(v: int): (r: int)
    ensures -0x8000_0000 <= v < 0x8000_0000 ==> r == v
  {
    (v + 0x8000_0000) % U32 - 0x8000_0000
  }

  function Abs(a: int): (r: nat) {
    if a < 0 then -a else a
  }

  function Min(a: int, b: int): (r: int) {
    if a <= b then a else b
  }

  /** The newest `n` elements of `s`, all of them when there are fewer. */
  function LastN<T>(s: seq<T>, n: nat): (r: seq<T>)
    ensures |r| == Min(|s|, n)
  {
    if |s| <= n then s else s[|s| - n..]
  }

  // Products, one fact at a time, so that callers reason linearly.

  lemma MulLe(a: int, b: int, k: int)
    requires a <= b && k >= 0
    ensures a * k <= b * k
  {
    assert (b - a) * k >= 0;
  }

  lemma CancelLt(a: int, b: int, k: int)
    requires k > 0 && a * k < b * k
    ensures a < b
  {
    if b <= a {
      MulLe(b, a, k);
    }
  }

  lemma Distribute(a: int, b: int, k: int)
    ensures (a + b) * k == a * k + b * k
    ensures (a - b) * k == a * k - b * k
    ensures k * (a + b) == k * a + k * b
    ensures k * (a - b) == k * a - k * b
  {
  }

  lemma SmallModulo(x: int)
    requires 0 <= x < U32
    ensures x % U32 == x
  {
  }

  lemma DivBounds(x: int, d: int)
    requires d > 0
    ensures (x / d) * d <= x < (x / d) * d + d
  {
  }

  lemma DivOfProduct(a: int, t: int)
    requires t > 0
    ensures (a * t) / t == a
  {
    var q := (a * t) / t;
    DivBounds(a * t, t);
    Distribute(q, 1, t);
    Distribute(a, 1, t);
    CancelLt(a, q + 1, t);
    CancelLt(q, a + 1, t);
  }
}
