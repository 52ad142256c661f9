/**
 * The EGL native-type header `android_natives.h`: the four-character magic
 * numbers that tag native windows and buffers, and the field defaults a
 * native window starts with.
 */
module AndroidNatives {

  /** `x` shifted left by `k` bits, without a width limit. */
  function Shl(x: nat, k: nat): (r: nat)
  {
    if k == 0 then x else 2 * Shl(x, k - 1)
  }

  /** Bitwise or of two unsigned numbers, bit by bit from the lowest. */
  function BitOr(x: nat, y: nat): (r: nat)
    decreases x + y
  {
    if x == 0 && y == 0 then 0
    else 2 * BitOr(x / 2, y / 2) + (if x % 2 == 1 || y % 2 == 1 then 1 else 0)
  }

  /** Unsigned 32-bit `x << k`: the bits shifted past the top are lost. */
  function ShiftLeft(x: nat, k: nat): (r: nat)
    ensures r < 0x1_0000_0000
  {
    Shl(x, k) % 0x1_0000_0000
  }

  /** A C character that fits in a byte, as its `(unsigned)` value. */
  function Code(ch: char): (n: nat)
    requires ch as int < 0x100
  {
    ch as int
  }

  /** `ANDROID_NATIVE_MAKE_CONSTANT(a, b, c, d)`: the four unsigned values
      shifted into place and or-ed together. */
  function MakeConstant(a: nat, b: nat, c: nat, d: nat): (r: nat)
  {
    BitOr(BitOr(BitOr(ShiftLeft(a, 24), ShiftLeft(b, 16)), ShiftLeft(c, 8)), d)
  }

  lemma {:induction false} BitOrZero(x: nat)
    ensures BitOr(x, 0) == x
    decreases x
  {
    if x != 0 {
      BitOrZero(x / 2);
    }
  }

  /** One step of the or: the lowest bit of `2 * u` is clear. */
  lemma BitOrDouble(u: nat, y: nat)
    ensures BitOr(2 * u, y) == 2 * BitOr(u, y / 2) + y % 2
  {
    if u == 0 && y == 0 {
      assert BitOr(0, 0) == 0;
    } else {
      assert (2 * u) / 2 == u && (2 * u) % 2 == 0;
    }
  }

  /** Or-ing values that are both shifted by `k` is shifting their or. */
  lemma {:induction false} BitOrShifted(x: nat, y: nat, k: nat)
    ensures BitOr(Shl(x, k), Shl(y, k)) == Shl(BitOr(x, y), k)
    decreases k
  {
    if k > 0 {
      var x', y' := Shl(x, k - 1), Shl(y, k - 1);
      BitOrShifted(x, y, k - 1);
      BitOrDouble(x', 2 * y');
      assert (2 * y') / 2 == y' && (2 * y') % 2 == 0;
    }
  }

  /** Or-ing a value shifted by `k` with one below `2^k` is adding them. */
  lemma {:induction false} BitOrDisjoint(x: nat, y: nat, k: nat)
    requires y < Shl(1, k)
    ensures BitOr(Shl(x, k), y) == Shl(x, k) + y
    decreases k
  {
    if k == 0 {
      BitOrZero(x);
    } else {
      BitOrDisjoint(x, y / 2, k - 1);
      BitOrDouble(Shl(x, k - 1), y);
    }
  }

  /** Shifting left by `k` is multiplying by `2^k`. */
  lemma {:induction false} ShlMul(x: nat, k: nat)
    ensures Shl(x, k) == x * Shl(1, k)
    decreases k
  {
    if k > 0 {
      ShlMul(x, k - 1);
    }
  }

  lemma {:induction false} ShlAdd(x: nat, i: nat, j: nat)
    ensures Shl(x, i + j) == Shl(Shl(x, i), j)
    decreases j
  {
    if j > 0 {
      ShlAdd(x, i, j - 1);
    }
  }

  lemma ShlValues(x: nat)
    ensures Shl(x, 8) == x * 0x100 && Shl(x, 16) == x * 0x1_0000 && Shl(x, 24) == x * 0x100_0000
  {
    assert Shl(1, 8) == 0x100 && Shl(1, 16) == 0x1_0000 && Shl(1, 24) == 0x100_0000;
    ShlMul(x, 8);
    ShlMul(x, 16);
    ShlMul(x, 24);
  }

  /** For byte arguments the shifts and ors add up: the word is the base-256
      number with digits `a b c d`. */
  lemma MakeConstantValue(a: nat, b: nat, c: nat, d: nat)
    requires a < 0x100 && b < 0x100 && c < 0x100 && d < 0x100
    ensures MakeConstant(a, b, c, d) == a * 0x100_0000 + b * 0x1_0000 + c * 0x100 + d
  {
    var ab := a * 0x100 + b;
    var abc := ab * 0x100 + c;
    TopBytes(a, b);
    var top := BitOr(ShiftLeft(a, 24), ShiftLeft(b, 16));
    assert top == Shl(ab, 16);
    ThirdByte(ab, c);
    var three := BitOr(top, ShiftLeft(c, 8));
    assert three == Shl(abc, 8);
    LastByte(abc, d);
    assert MakeConstant(a, b, c, d) == BitOr(three, d);
  }

  /** The top two bytes: `(a << 24) | (b << 16)`. */
  lemma TopBytes(a: nat, b: nat)
    requires a < 0x100 && b < 0x100
    ensures BitOr(ShiftLeft(a, 24), ShiftLeft(b, 16)) == Shl(a * 0x100 + b, 16)
  {
    ShlValues(a);
    ShlValues(b);
    assert ShiftLeft(a, 24) == Shl(a, 24) && ShiftLeft(b, 16) == Shl(b, 16);
    ShlAdd(a, 8, 16);
    BitOrShifted(Shl(a, 8), b, 16);
    Shl8(a);
    BitOrDisjoint(a, b, 8);
  }

  /** Or-ing in the third byte: `... | (c << 8)`. */
  lemma ThirdByte(ab: nat, c: nat)
    requires ab < 0x1_0000 && c < 0x100
    ensures BitOr(Shl(ab, 16), ShiftLeft(c, 8)) == Shl(ab * 0x100 + c, 8)
  {
    Shl8(c);
    Shl8(ab);
    assert ShiftLeft(c, 8) == Shl(c, 8);
    ShlAdd(ab, 8, 8);
    BitOrShifted(Shl(ab, 8), c, 8);
    BitOrDisjoint(ab, c, 8);
  }

  lemma Shl8(x: nat)
    ensures Shl(x, 8) == x * 0x100 && Shl(1, 8) == 0x100
  {
    ShlMul(x, 8);
  }

  /** Or-ing in the last byte: `... | d`. */
  lemma LastByte(abc: nat, d: nat)
    requires d < 0x100
    ensures BitOr(Shl(abc, 8), d) == abc * 0x100 + d
  {
    Shl8(abc);
    BitOrDisjoint(abc, d, 8);
  }

  /** Different four-character codes give different words. */
  lemma MakeConstantInjective(a: nat, b: nat, c: nat, d: nat, a': nat, b': nat, c': nat, d': nat)
    requires a < 0x100 && b < 0x100 && c < 0x100 && d < 0x100
    requires a' < 0x100 && b' < 0x100 && c' < 0x100 && d' < 0x100
    requires MakeConstant(a, b, c, d) == MakeConstant(a', b', c', d')
    ensures a == a' && b == b' && c == c' && d == d'
  {
    MakeConstantValue(a, b, c, d);
    MakeConstantValue(a', b', c', d');
    var w := a * 0x100_0000 + b * 0x1_0000 + c * 0x100 + d;
    Digits(a, b, c, d);
    Digits(a', b', c', d');
  }

  /** The digits of a base-256 number with four digits. */
  lemma Digits(a: nat, b: nat, c: nat, d: nat)
    requires a < 0x100 && b < 0x100 && c < 0x100 && d < 0x100
    ensures var w := a * 0x100_0000 + b * 0x1_0000 + c * 0x100 + d;
            && w % 0x100 == d && (w / 0x100) % 0x100 == c
            && (w / 0x1_0000) % 0x100 == b && w / 0x100_0000 == a
  {
    var w := a * 0x100_0000 + b * 0x1_0000 + c * 0x100 + d;
    var abc := (a * 0x100 + b) * 0x100 + c;
    assert w == abc * 0x100 + d;
    assert w / 0x100 == abc;
    assert abc / 0x100 == a * 0x100 + b;
    assert w / 0x1_0000 == a * 0x100 + b;
  }

  /** `ANDROID_NATIVE_WINDOW_MAGIC` and `ANDROID_NATIVE_BUFFER_MAGIC`. */
  const WINDOW_MAGIC: nat := MakeConstant(Code('_'), Code('w'), Code('n'), Code('d'))
  const BUFFER_MAGIC: nat := MakeConstant(Code('_'), Code('b'), Code('f'), Code('r'))

  /** The two magics are "_wnd" and "_bfr" and tell windows from buffers. */
  lemma MagicValues()
    ensures WINDOW_MAGIC == 0x5F776E64
    ensures BUFFER_MAGIC == 0x5F626672
    ensures WINDOW_MAGIC != BUFFER_MAGIC
  {
    MakeConstantValue(Code('_'), Code('w'), Code('n'), Code('d'));
    MakeConstantValue(Code('_'), Code('b'), Code('f'), Code('r'));
  }

  /** `android_native_base_t` without its `version` and its reference-count
      hooks: the magic and the four reserved pointers. */
  datatype NativeBase = NativeBase(magic: int, reserved: seq<int>)

  /** `android_native_window_t` without its floats, its OEM words and its
      hooks. */
  datatype NativeWindow = NativeWindow(common: NativeBase, flags: nat, minSwapInterval: int, maxSwapInterval: int)

  /** The tag a native object carries says it is a window. */
  predicate IsWindow(b: NativeBase)
  {
    b.magic == WINDOW_MAGIC
  }

  predicate IsBuffer(b: NativeBase)
  {
    b.magic == BUFFER_MAGIC
  }

  /** The `android_native_window_t()` constructor: no flags, both swap
      intervals 0, the window magic, and the reserved pointers cleared. */
  function NewWindow(): (w: NativeWindow)
    ensures w.flags == 0 && w.minSwapInterval == 0 && w.maxSwapInterval == 0
    ensures |w.common.reserved| == 4 && forall i :: 0 <= i < 4 ==> w.common.reserved[i] == 0
  {
    NativeWindow(NativeBase(WINDOW_MAGIC, [0, 0, 0, 0]), 0, 0, 0)
  }

  /** A new window is recognised as a window and never as a buffer. */
  lemma NewWindowIsWindow()
    ensures IsWindow(NewWindow().common) && !IsBuffer(NewWindow().common)
    ensures NewWindow().common.magic == 0x5F776E64
  {
    MagicValues();
  }
}
