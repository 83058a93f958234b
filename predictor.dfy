/**
 * The colour palette of inference/predictor.py (`_build_color_palette`):
 * the PASCAL VOC bit-interleaved colour map. Bits 3i, 3i+1 and 3i+2 of a
 * label become bit 7-i of its red, green and blue components.
 *
 * Python's integer operators are written out on unbounded naturals:
 * `x >> k` is Shift, `x << k` is ShiftLeft, `x & 1` is `% 2` and `|` is
 * BitOr.
 * A shift by a negative count raises ValueError in Python; the inner loop
 * reaches one (`7 - i` with i = 8) exactly when the label has more than
 * eight octal digits, and the model returns None there. Labels are
 * called `lbl` because `label` is a Dafny keyword.
 */
module Predictor {
  import opened Wrappers

  datatype Rgb = Rgb(r: nat, g: nat, b: nat)

  function Pow2(k: nat): (p: nat)
    ensures p >= 1
  {
    if k == 0 then 1 else 2 * Pow2(k - 1)
  }

  /** `x >> k` */
  function Shift(x: nat, k: nat): nat {
    if k == 0 then x else Shift(x / 2, k - 1)
  }

  /** Bit `k` of `x`: `(x >> k) & 1`. */
  function Bit(x: nat, k: nat): nat {
    Shift(x, k) % 2
  }

  /** Python's `a | b` on non-negative integers, bit by bit from the lowest. */
  function BitOr(a: nat, b: nat): nat
    decreases a + b
  {
    if a == 0 && b == 0 then 0
    else 2 * BitOr(a / 2, b / 2) + (if a % 2 == 1 || b % 2 == 1 then 1 else 0)
  }

  /** `x << k` */
  function ShiftLeft(x: nat, k: nat): nat {
    if k == 0 then x else 2 * ShiftLeft(x, k - 1)
  }

  /** A left shift multiplies by the matching power of two. */
  lemma {:induction false} ShiftLeftIsProduct(x: nat, k: nat)
    ensures ShiftLeft(x, k) == x * Pow2(k)
  {
    if k > 0 {
      ShiftLeftIsProduct(x, k - 1);
      assert x * Pow2(k) == 2 * (x * Pow2(k - 1));
    }
  }

  lemma {:induction false} ShiftLeftDouble(x: nat, k: nat)
    ensures ShiftLeft(x, k + 1) == ShiftLeft(2 * x, k)
  {
    if k > 0 {
      ShiftLeftDouble(x, k - 1);
    }
  }

  /** One step of BitOr: the low bit, and the or of what is above it. */
  lemma BitOrUnfold(a: nat, b: nat)
    ensures BitOr(a, b) / 2 == BitOr(a / 2, b / 2)
    ensures BitOr(a, b) % 2 == (if a % 2 == 1 || b % 2 == 1 then 1 else 0)
  {
    if a == 0 && b == 0 {
      assert BitOr(a / 2, b / 2) == 0;
    }
  }

  /** BitOr is the bitwise or: a bit of the result is set exactly when it is set in either operand. */
  lemma {:induction false} BitOrBits(a: nat, b: nat, k: nat)
    ensures Bit(BitOr(a, b), k) == 1 <==> Bit(a, k) == 1 || Bit(b, k) == 1
    decreases k
  {
    BitOrUnfold(a, b);
    if k > 0 {
      BitOrBits(a / 2, b / 2, k - 1);
    }
  }

  lemma {:induction false} BitOrZero(a: nat)
    ensures BitOr(a, 0) == a
    decreases a
  {
    if a > 0 {
      BitOrZero(a / 2);
    }
  }

  lemma BitOrDouble(a: nat, b: nat)
    ensures BitOr(2 * a, 2 * b) == 2 * BitOr(a, b)
  {
    BitOrUnfold(2 * a, 2 * b);
  }

  /** Shifting both operands left shifts their or. */
  lemma {:induction false} BitOrShifted(a: nat, b: nat, k: nat)
    ensures BitOr(ShiftLeft(a, k), ShiftLeft(b, k)) == ShiftLeft(BitOr(a, b), k)
  {
    if k > 0 {
      BitOrShifted(a, b, k - 1);
      BitOrDouble(ShiftLeft(a, k - 1), ShiftLeft(b, k - 1));
    }
  }

  /** Or-ing a single bit into an even number adds it. */
  lemma BitOrLow(m: nat, bit: nat)
    requires bit < 2
    ensures BitOr(2 * m, bit) == 2 * m + bit
  {
    BitOrUnfold(2 * m, bit);
    BitOrZero(m);
  }

  /**
   * Or-ing one bit into the position just below an accumulator that has no
   * bits there adds it: `(2m << k) | (bit << k) == (2m + bit) << k`.
   */
  lemma BitOrBelow(m: nat, bit: nat, k: nat)
    requires bit < 2
    ensures BitOr(ShiftLeft(2 * m, k), ShiftLeft(bit, k)) == ShiftLeft(2 * m + bit, k)
  {
    BitOrShifted(2 * m, bit, k);
    BitOrLow(m, bit);
  }

  lemma {:induction false} ShiftOfZero(k: nat)
    ensures Shift(0, k) == 0
  {
    if k > 0 {
      ShiftOfZero(k - 1);
    }
  }

  lemma {:induction false} ShiftAdd(x: nat, a: nat, b: nat)
    ensures Shift(Shift(x, a), b) == Shift(x, a + b)
    decreases a
  {
    if a > 0 {
      ShiftAdd(x / 2, a - 1, b);
    }
  }

  /** A shift leaves nothing exactly when the number is below the matching power of two. */
  lemma {:induction false} ShiftVanishes(x: nat, k: nat)
    ensures Shift(x, k) == 0 <==> x < Pow2(k)
  {
    if k > 0 {
      ShiftVanishes(x / 2, k - 1);
    }
  }

  lemma {:induction false} ShiftDecreases(x: nat, k: nat)
    requires x > 0 && k > 0
    ensures Shift(x, k) < x
  {
    ShiftAtMost(x / 2, k - 1);
  }

  lemma {:induction false} ShiftAtMost(x: nat, k: nat)
    ensures Shift(x, k) <= x
  {
    if k > 0 {
      ShiftAtMost(x / 2, k - 1);
    }
  }

  /** Once the shifted-out part is zero, every higher bit is zero. */
  lemma BitBeyond(x: nat, a: nat, k: nat)
    requires Shift(x, a) == 0 && a <= k
    ensures Bit(x, k) == 0
  {
    ShiftAdd(x, a, k - a);
    ShiftOfZero(k - a);
  }

  /**
   * The reference colour map. Gathered(x, c, n) packs bits c, 3+c, ...,
   * 3(n-1)+c of x, the first of them as the most significant bit.
   */
  function Gathered(x: nat, c: nat, n: nat): nat {
    if n == 0 then 0 else 2 * Gathered(x, c, n - 1) + Bit(x, 3 * (n - 1) + c)
  }

  /** Component `c` (0 red, 1 green, 2 blue) of the colour of `label`. */
  function Channel(lbl: nat, c: nat): nat {
    Gathered(lbl, c, 8)
  }

  function Color(lbl: nat): Rgb {
    Rgb(Channel(lbl, 0), Channel(lbl, 1), Channel(lbl, 2))
  }

  /** Bit j of the packed value is the source bit it was taken from. */
  lemma {:induction false} GatheredBit(x: nat, c: nat, n: nat, j: nat)
    requires j < n
    ensures Bit(Gathered(x, c, n), j) == Bit(x, 3 * (n - 1 - j) + c)
  {
    var g := Gathered(x, c, n - 1);
    var bit := Bit(x, 3 * (n - 1) + c);
    assert (2 * g + bit) / 2 == g;
    if j > 0 {
      GatheredBit(x, c, n - 1, j - 1);
    }
  }

  lemma {:induction false} GatheredBound(x: nat, c: nat, n: nat)
    ensures Gathered(x, c, n) < Pow2(n)
  {
    if n > 0 {
      GatheredBound(x, c, n - 1);
    }
  }

  /** Zero bits past the end of the label only append zeros to the packed value. */
  lemma {:induction false} GatheredPadding(x: nat, c: nat, n: nat, m: nat)
    requires Shift(x, 3 * n) == 0
    ensures Gathered(x, c, n + m) == ShiftLeft(Gathered(x, c, n), m)
  {
    if m > 0 {
      GatheredPadding(x, c, n, m - 1);
      BitBeyond(x, 3 * n, 3 * (n + m - 1) + c);
    }
  }

  /** Every component is a byte. */
  lemma ChannelIsByte(lbl: nat, c: nat)
    ensures Channel(lbl, c) <= 255
  {
    GatheredBound(lbl, c, 8);
  }

  /** Bit 7-i of component c is bit 3i+c of the label. */
  lemma ChannelBits(lbl: nat, c: nat, i: nat)
    requires c < 3 && i < 8
    ensures Bit(Channel(lbl, c), 7 - i) == Bit(lbl, 3 * i + c)
  {
    GatheredBit(lbl, c, 8, 7 - i);
  }

  /** A label below 8 sets only the top bit of each component. */
  lemma {:induction false} SingleDigitColor(lbl: nat)
    requires lbl < 8
    ensures Color(lbl) == Rgb(128 * Bit(lbl, 0), 128 * Bit(lbl, 1), 128 * Bit(lbl, 2))
  {
    SingleDigitChannel(lbl, 0);
    SingleDigitChannel(lbl, 1);
    SingleDigitChannel(lbl, 2);
  }

  lemma SingleDigitChannel(lbl: nat, c: nat)
    requires lbl < 8
    ensures Channel(lbl, c) == 128 * Bit(lbl, c)
  {
    ShiftVanishes(lbl, 3);
    GatheredPadding(lbl, c, 1, 7);
    ShiftLeftIsProduct(Bit(lbl, c), 7);
  }

  /**
   * Labels 0 to 3: black, then the top bit of red (label 1 is (128, 0, 0)),
   * of green (label 2 is (0, 128, 0)), of both (label 3 is (128, 128, 0)).
   */
  lemma FirstColors(lbl: nat)
    requires lbl <= 3
    ensures Color(lbl) == Rgb(128 * (lbl % 2), 128 * (lbl / 2), 0)
  {
    SingleDigitColor(lbl);
    SmallBits(lbl);
  }

  lemma SmallBits(x: nat)
    requires x <= 3
    ensures Bit(x, 0) == x % 2 && Bit(x, 1) == x / 2 && Bit(x, 2) == 0
  {
    assert Shift(x, 1) == Shift(x / 2, 0);
    assert Shift(x, 2) == Shift(x / 2 / 2, 0);
  }

  /** Two different numbers below 2^n differ at some bit below n. */
  lemma {:induction false} BitsDiffer(x: nat, y: nat, n: nat) returns (k: nat)
    requires x < Pow2(n) && y < Pow2(n) && x != y
    ensures k < n && Bit(x, k) != Bit(y, k)
  {
    if x % 2 != y % 2 {
      k := 0;
    } else {
      assert x / 2 != y / 2;
      var k' := BitsDiffer(x / 2, y / 2, n - 1);
      k := k' + 1;
    }
  }

  /** For labels below 2^24 the colour map is injective. */
  lemma ColorInjective(x: nat, y: nat)
    requires x < Pow2(24) && y < Pow2(24) && x != y
    ensures Color(x) != Color(y)
  {
    var k := BitsDiffer(x, y, 24);
    ColorsDifferAt(x, y, k);
  }

  /** Labels that differ at one of their low 24 bits differ in the component that bit lands in. */
  lemma ColorsDifferAt(x: nat, y: nat, k: nat)
    requires k < 24 && Bit(x, k) != Bit(y, k)
    ensures Color(x) != Color(y)
  {
    var i, c := k / 3, k % 3;
    assert 3 * i + c == k;
    ChannelBits(x, c, i);
    ChannelBits(y, c, i);
    ComponentOfColor(x, c);
    ComponentOfColor(y, c);
  }

  /** The number of passes the inner loop makes: the label's count of octal digits. */
  function OctalDigits(x: nat): nat {
    if x == 0 then 0 else 1 + OctalDigits(x / 8)
  }

  lemma {:induction false} OctalDigitsBound(x: nat, k: nat)
    ensures OctalDigits(x) <= k <==> x < Pow2(3 * k)
  {
    if k > 0 {
      OctalDigitsBound(x / 8, k - 1);
      Pow2Three(3 * (k - 1));
    }
  }

  /** At most eight passes below 2^24, and at most three for the 256 documented classes. */
  lemma PassesBounded(lbl: nat)
    ensures lbl < LabelLimit ==> OctalDigits(lbl) <= 8
    ensures lbl < 256 ==> OctalDigits(lbl) <= 3
  {
    OctalDigitsBound(lbl, 8);
    LabelLimitIsPow2();
    OctalDigitsBound(lbl, 3);
    Pow2Nine();
  }

  lemma Pow2Nine()
    ensures Pow2(9) == 512
  {
    Pow2Three(0);
    Pow2Three(3);
    Pow2Three(6);
  }

  lemma ShiftByThree(x: nat)
    ensures Shift(x, 3) == x / 8
  {
    var k := 3;
    assert Shift(x, k) == Shift(x / 2, 2) == Shift(x / 2 / 2, 1) == x / 2 / 2 / 2;
    assert x / 2 / 2 / 2 == x / 8;
  }

  lemma Pow2Three(k: nat)
    ensures Pow2(k + 3) == 8 * Pow2(k)
  {
    assert Pow2(k + 3) == 2 * Pow2(k + 2) && Pow2(k + 2) == 2 * Pow2(k + 1);
  }

  /** One pass of the inner loop on one component. */
  lemma ChannelStep(lbl: nat, c: nat, i: nat, acc: nat)
    requires i < 8 && acc == ShiftLeft(Gathered(lbl, c, i), 8 - i)
    ensures BitOr(acc, ShiftLeft(Shift(Shift(lbl, 3 * i), c) % 2, 7 - i))
      == ShiftLeft(Gathered(lbl, c, i + 1), 8 - (i + 1))
  {
    ShiftAdd(lbl, 3 * i, c);
    ShiftLeftDouble(Gathered(lbl, c, i), 7 - i);
    BitOrBelow(Gathered(lbl, c, i), Bit(lbl, 3 * i + c), 7 - i);
  }

  /** After `i` passes of the inner loop: what is left of the label, and the three accumulators. */
  ghost predicate Progress(lbl: nat, i: nat, lab: nat, r: nat, g: nat, b: nat) {
    && i <= 8
    && lab == Shift(lbl, 3 * i)
    && r == ShiftLeft(Gathered(lbl, 0, i), 8 - i)
    && g == ShiftLeft(Gathered(lbl, 1, i), 8 - i)
    && b == ShiftLeft(Gathered(lbl, 2, i), 8 - i)
    && i + OctalDigits(lab) == OctalDigits(lbl)
  }

  /** One more pass keeps Progress and consumes one octal digit. */
  lemma PassPreserves(lbl: nat, i: nat, lab: nat, r: nat, g: nat, b: nat)
    requires Progress(lbl, i, lab, r, g, b) && lab != 0 && i <= 7
    ensures Shift(lab, 3) < lab
    ensures Progress(lbl, i + 1, Shift(lab, 3),
      BitOr(r, ShiftLeft(Shift(lab, 0) % 2, 7 - i)),
      BitOr(g, ShiftLeft(Shift(lab, 1) % 2, 7 - i)),
      BitOr(b, ShiftLeft(Shift(lab, 2) % 2, 7 - i)))
  {
    ChannelStep(lbl, 0, i, r);
    ChannelStep(lbl, 1, i, g);
    ChannelStep(lbl, 2, i, b);
    DigitStep(lbl, i, lab);
  }

  /** One pass drops the lowest octal digit of what is left of the label. */
  lemma DigitStep(lbl: nat, i: nat, lab: nat)
    requires lab == Shift(lbl, 3 * i) && lab != 0
    requires i + OctalDigits(lab) == OctalDigits(lbl)
    ensures Shift(lab, 3) < lab && Shift(lab, 3) == Shift(lbl, 3 * (i + 1))
    ensures i + 1 + OctalDigits(Shift(lab, 3)) == OctalDigits(lbl)
  {
    ShiftDecreases(lab, 3);
    ShiftByThree(lab);
    ShiftAdd(lbl, 3 * i, 3);
    assert 3 * i + 3 == 3 * (i + 1);
    assert OctalDigits(lab) == 1 + OctalDigits(lab / 8);
  }

  /** When nothing is left of the label, the accumulators hold its colour. */
  lemma PassesExhausted(lbl: nat, i: nat, r: nat, g: nat, b: nat)
    requires Progress(lbl, i, 0, r, g, b)
    ensures Rgb(r, g, b) == Color(lbl) && lbl < Pow2(24) && i == OctalDigits(lbl)
  {
    GatheredPadding(lbl, 0, i, 8 - i);
    GatheredPadding(lbl, 1, i, 8 - i);
    GatheredPadding(lbl, 2, i, 8 - i);
    assert i + (8 - i) == 8;
    assert r == Channel(lbl, 0) && g == Channel(lbl, 1) && b == Channel(lbl, 2);
    ShiftAdd(lbl, 3 * i, 24 - 3 * i);
    ShiftOfZero(24 - 3 * i);
    ShiftVanishes(lbl, 24);
  }

  /** Something left after eight passes means the label is at least 2^24. */
  lemma NinthPass(lbl: nat, lab: nat, r: nat, g: nat, b: nat)
    requires Progress(lbl, 8, lab, r, g, b) && lab != 0
    ensures lbl >= Pow2(24)
  {
    ShiftVanishes(lbl, 24);
  }

  /** The first label whose colour needs more than eight passes: 2^24. */
  const LabelLimit: nat := 0x100_0000

  lemma LabelLimitIsPow2()
    ensures Pow2(24) == LabelLimit
  {
    assert Pow2(8) == 256;
    Pow2Three(8);
    Pow2Three(11);
    Pow2Three(14);
    Pow2Three(17);
    Pow2Three(20);
    assert Pow2(24) == 2 * Pow2(23);
  }

  /**
   * The body of the `for label` loop: the inner `while lab` loop. It fails
   * (Python's ValueError) exactly when the label needs a ninth pass, whose
   * shift count `7 - i` is negative.
   */
  method ColorOf(lbl: nat) returns (color: Option<Rgb>, ghost passes: nat)
    ensures color.Some? <==> lbl < LabelLimit
    ensures color.Some? ==> color.value == Color(lbl) && passes == OctalDigits(lbl) <= 8
    ensures color.None? ==> passes == 9
  {
    var lab := lbl;
    var r, g, b := 0, 0, 0;
    var i := 0;
    while lab != 0
      invariant Progress(lbl, i, lab, r, g, b)
      decreases lab
    {
      if i > 7 {
        NinthPass(lbl, lab, r, g, b);
        LabelLimitIsPow2();
        return None, 9;
      }
      PassPreserves(lbl, i, lab, r, g, b);
      var shift := 7 - i;
      r := BitOr(r, ShiftLeft(Shift(lab, 0) % 2, shift));
      g := BitOr(g, ShiftLeft(Shift(lab, 1) % 2, shift));
      b := BitOr(b, ShiftLeft(Shift(lab, 2) % 2, shift));
      lab := Shift(lab, 3);
      i := i + 1;
    }
    PassesExhausted(lbl, i, r, g, b);
    LabelLimitIsPow2();
    color, passes := Some(Rgb(r, g, b)), i;
  }

  /** Component `c` of a colour. */
  function Component(color: Rgb, c: nat): nat {
    if c == 0 then color.r else if c == 1 then color.g else color.b
  }

  /** A list of colours as the flat list `[r0, g0, b0, r1, g1, b1, ...]`. */
  function Flatten(colors: seq<Rgb>): seq<nat> {
    if colors == [] then []
    else
      var last := colors[|colors| - 1];
      Flatten(colors[..|colors| - 1]) + [last.r, last.g, last.b]
  }

  lemma {:induction false} FlattenLayout(colors: seq<Rgb>, k: nat, c: nat)
    requires k < |colors| && c < 3
    ensures |Flatten(colors)| == 3 * |colors|
    ensures Flatten(colors)[3 * k + c] == Component(colors[k], c)
  {
    var front := colors[..|colors| - 1];
    FlattenLength(front);
    if k < |front| {
      FlattenLayout(front, k, c);
      assert front[k] == colors[k];
    }
  }

  lemma {:induction false} FlattenLength(colors: seq<Rgb>)
    ensures |Flatten(colors)| == 3 * |colors|
  {
    if colors != [] {
      FlattenLength(colors[..|colors| - 1]);
    }
  }

  /** The colours of labels 0 to n-1. */
  function Colors(n: nat): (cs: seq<Rgb>)
    ensures |cs| == n && forall k :: 0 <= k < n ==> cs[k] == Color(k)
  {
    seq(n, (k: int) requires 0 <= k => Color(k))
  }

  /** The reference palette: the colours of labels 0 to n-1, flattened. */
  function Palette(n: nat): seq<nat> {
    Flatten(Colors(n))
  }

  /** The palette has three entries per class, and label L's colour sits at 3L, 3L+1, 3L+2. */
  lemma PaletteLayout(n: nat, lbl: nat, c: nat)
    requires lbl < n && c < 3
    ensures |Palette(n)| == 3 * n
    ensures Palette(n)[3 * lbl + c] == Channel(lbl, c)
  {
    FlattenLayout(Colors(n), lbl, c);
    ComponentOfColor(lbl, c);
  }

  lemma ComponentOfColor(lbl: nat, c: nat)
    requires c < 3
    ensures Component(Color(lbl), c) == Channel(lbl, c)
  {
  }

  lemma ColorParts(lbl: nat, color: Rgb)
    requires color == Color(lbl)
    ensures color.r == Channel(lbl, 0) && color.g == Channel(lbl, 1) && color.b == Channel(lbl, 2)
  {
  }

  /** One more class appends its colour. */
  lemma PaletteGrows(n: nat)
    ensures Palette(n + 1) == Palette(n) + [Channel(n, 0), Channel(n, 1), Channel(n, 2)]
  {
    assert Colors(n + 1)[..n] == Colors(n);
  }

  /** Writing three values into three slots extends the filled prefix by them. */
  lemma SlotsFilled(before: seq<nat>, after: seq<nat>, at: nat, x: nat, y: nat, z: nat)
    requires |before| == |after| && at + 3 <= |after|
    requires forall k :: 0 <= k < at ==> after[k] == before[k]
    requires after[at] == x && after[at + 1] == y && after[at + 2] == z
    ensures after[..at + 3] == before[..at] + [x, y, z]
  {
  }

  /** Writing the colour of label `lbl` into its slots extends the filled prefix to Palette(lbl + 1). */
  lemma PaletteStep(before: seq<nat>, after: seq<nat>, lbl: nat)
    requires |before| == |after| && 3 * lbl + 3 <= |after|
    requires before[..3 * lbl] == Palette(lbl)
    requires forall k :: 0 <= k < 3 * lbl ==> after[k] == before[k]
    requires after[3 * lbl] == Channel(lbl, 0) && after[3 * lbl + 1] == Channel(lbl, 1)
    requires after[3 * lbl + 2] == Channel(lbl, 2)
    ensures after[..3 * (lbl + 1)] == Palette(lbl + 1)
  {
    var at := 3 * lbl;
    SlotsFilled(before, after, at, Channel(lbl, 0), Channel(lbl, 1), Channel(lbl, 2));
    PaletteGrows(lbl);
    assert 3 * (lbl + 1) == at + 3;
  }

  /** `palette[3*label : 3*label + 3] = [r, g, b]`, over a prefix that holds the earlier labels. */
  method StoreColor(slots: array<nat>, lbl: nat, color: Rgb)
    requires 3 * lbl + 3 <= slots.Length
    requires slots[..3 * lbl] == Palette(lbl) && color == Color(lbl)
    modifies slots
    ensures slots[..3 * (lbl + 1)] == Palette(lbl + 1)
    ensures slots[3 * (lbl + 1)..] == old(slots[3 * (lbl + 1)..])
  {
    var at := 3 * lbl;
    ghost var before := slots[..];
    ColorParts(lbl, color);
    slots[at], slots[at + 1], slots[at + 2] := color.r, color.g, color.b;
    PaletteStep(before, slots[..], lbl);
  }

  /** One turn of the `for label` loop: the label's colour, stored in its three slots, or the failure. */
  method FillSlots(slots: array<nat>, lbl: nat) returns (stored: bool)
    requires 3 * lbl + 3 <= slots.Length
    requires slots[..3 * lbl] == Palette(lbl)
    modifies slots
    ensures stored <==> lbl < LabelLimit
    ensures stored ==> slots[..3 * (lbl + 1)] == Palette(lbl + 1)
  {
    var color, passes := ColorOf(lbl);
    if color.None? {
      return false;
    }
    StoreColor(slots, lbl, color.value);
    return true;
  }

  /**
   * `_build_color_palette(num_classes)`: a zero-filled list of 3n entries,
   * each label's colour assigned into its three slots in turn. A negative
   * count behaves as 0. Labels of 2^24 and above make the inner loop raise.
   */
  method BuildColorPalette(numClasses: int) returns (palette: Option<seq<nat>>)
    ensures palette.None? <==> numClasses > LabelLimit
    ensures palette.Some? ==> palette.value == Palette(if numClasses > 0 then numClasses else 0)
  {
    var n: nat := if numClasses > 0 then numClasses else 0;
    var slots := new nat[3 * n](_ => 0);
    for lbl := 0 to n
      invariant slots[..3 * lbl] == Palette(lbl)
      invariant lbl <= LabelLimit
    {
      var stored := FillSlots(slots, lbl);
      if !stored {
        return None;
      }
    }
    assert slots[..] == slots[..3 * n];
    palette := Some(slots[..]);
  }
}
