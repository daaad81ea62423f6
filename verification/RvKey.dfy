/** The argmax of the decode loop on the RISC-V core (firmware/include/rvsched.h): the block with the
    largest maximum by integer keys, then the first position in it holding that maximum. */
module RvKey {
  import opened Dyadic
  import opened Fp32
  import FpExact

  /** binary32 bits to an unsigned key with the floats' order. */
  function Key(f: U32): U32 {
    if f >= SIGN then 0xFFFF_FFFF - f else f + SIGN
  }

  // ---------------------------------------------------------------- values

  /** What a number's bits stand for, in units of 2^-149. */
  datatype Extended = MinusInf | Of(v: int) | PlusInf

  predicate IsNaN(f: U32) {
    f % SIGN > EXP_ONES
  }

  /** Magnitude of a finite number: subnormal, or a significand with its hidden one, scaled. */
  function Magnitude(n: nat): (v: int)
    requires n < EXP_ONES
    ensures v >= 0
  {
    var e, m := n / HIDDEN, n % HIDDEN;
    if e == 0 then m else Shl(m + HIDDEN, e - 1)
  }

  function Value(f: U32): Extended
    requires !IsNaN(f)
  {
    if f % SIGN == EXP_ONES then (if f >= SIGN then MinusInf else PlusInf)
    else Of(if f >= SIGN then -Magnitude(f % SIGN) else Magnitude(f % SIGN))
  }

  predicate Less(a: Extended, b: Extended) {
    match (a, b)
    case (Of(v), Of(w)) => v < w
    case (MinusInf, _) => b != MinusInf
    case (_, MinusInf) => false
    case (PlusInf, _) => false
    case (Of(_), PlusInf) => true
  }

  /** The value is the one arithmetic works with, but for the subnormals it flushes. */
  lemma {:induction false} ValueOfNormal(f: U32)
    requires FpExact.Finite(f) && !Unpack(f).zero
    ensures !IsNaN(f) && Value(f) == Of(FpExact.Value(f))
  {
    hide Shl;
  }

  /** The order of the bits: sign and magnitude. Both zeros count as 0. */
  function Number(f: U32): int {
    if f >= SIGN then SIGN - f else f
  }

  lemma {:induction false} MagnitudeOrder(a: nat, b: nat)
    requires a < b < EXP_ONES
    ensures Magnitude(a) < Magnitude(b)
  {
    var ea, ma, eb, mb := a / HIDDEN, a % HIDDEN, b / HIDDEN, b % HIDDEN;
    assert ea < eb || (ea == eb && ma < mb);
    if ea == eb {
      if ea > 0 { CompareScaled(mb + HIDDEN, ma + HIDDEN, Pow2(ea - 1)); }
    } else {
      MulUp(HIDDEN, mb + HIDDEN, Pow2(eb - 1));
      if ea == 0 {
        MulUp(1, Pow2(eb - 1), HIDDEN);
      } else {
        CompareScaled(2 * HIDDEN, ma + HIDDEN, Pow2(ea - 1));
        Pow2Order(ea - 1, eb - 1);
        MulUp(2 * Pow2(ea - 1), Pow2(eb - 1), HIDDEN);
      }
    }
  }

  lemma {:induction false} MagnitudesOrder(a: nat, b: nat)
    requires a < EXP_ONES && b < EXP_ONES
    ensures Magnitude(a) < Magnitude(b) <==> a < b
    ensures Magnitude(a) == Magnitude(b) <==> a == b
    ensures Magnitude(0) == 0
  {
    hide Magnitude;
    if a < b { MagnitudeOrder(a, b); } else if b < a { MagnitudeOrder(b, a); }
    ZeroMagnitude();
  }

  lemma {:induction false} ZeroMagnitude()
    ensures Magnitude(0) == 0
  {
  }

  /** The order of the bits is the order of the values. */
  lemma {:induction false} NumberIsValue(f: U32, g: U32)
    requires !IsNaN(f) && !IsNaN(g)
    ensures Number(f) < Number(g) <==> Less(Value(f), Value(g))
    ensures Number(f) == Number(g) <==> Value(f) == Value(g)
  {
    var a, b := f % SIGN, g % SIGN;
    SignAndBits(f);
    SignAndBits(g);
    hide Magnitude, Number, IsNaN;
    if a < EXP_ONES && b < EXP_ONES { MagnitudesOrder(a, b); }
    if a < EXP_ONES { MagnitudesOrder(0, a); }
    if b < EXP_ONES { MagnitudesOrder(0, b); }
  }

  lemma {:induction false} SignAndBits(f: U32)
    ensures var a := f % SIGN;
            && a < SIGN && (f < SIGN ==> f == a && Number(f) == a) && (f >= SIGN ==> f == a + SIGN && Number(f) == -a)
            && (IsNaN(f) <==> a > EXP_ONES)
  {
  }

  // ---------------------------------------------------------------- totalOrder

  predicate IsQuiet(f: U32) {
    f / 0x40_0000 % 2 == 1
  }

  function Payload(f: U32): nat {
    f % 0x40_0000
  }

  /** Two NaNs: negative before positive; positive ones signaling before quiet, then by payload;
      negative ones the other way round. */
  predicate NaNOrder(f: U32, g: U32) {
    if f >= SIGN && g < SIGN then true
    else if f < SIGN && g >= SIGN then false
    else if f < SIGN then (if IsQuiet(f) == IsQuiet(g) then Payload(f) <= Payload(g) else IsQuiet(g))
    else if IsQuiet(f) == IsQuiet(g) then Payload(f) >= Payload(g)
    else IsQuiet(f)
  }

  /** totalOrder, clauses a) to d) of section 5.10 of IEEE 754-2019: numbers by value, -0 before +0;
      negative NaNs before all numbers, positive ones after them. */
  predicate TotalOrder(f: U32, g: U32) {
    if IsNaN(f) && IsNaN(g) then NaNOrder(f, g)
    else if IsNaN(f) then f >= SIGN
    else if IsNaN(g) then g < SIGN
    else Less(Value(f), Value(g)) || (Value(f) == Value(g) && (f >= SIGN || g < SIGN))
  }

  /** The key embeds totalOrder. */
  lemma {:induction false} KeyIsTotalOrder(f: U32, g: U32)
    ensures Key(f) <= Key(g) <==> TotalOrder(f, g)
    ensures Key(f) == Key(g) <==> f == g
  {
    KeyIsNumber(f, g);
    hide Value, Less, Key, IsQuiet, Payload;
    SignAndBits(f);
    SignAndBits(g);
    if !IsNaN(f) && !IsNaN(g) {
      NumberIsValue(f, g);
    } else if IsNaN(f) && IsNaN(g) {
      hide Number, IsNaN;
      PayloadOrder(f % SIGN, g % SIGN);
      PayloadOrder(g % SIGN, f % SIGN);
    }
  }

  lemma {:induction false} PayloadOrder(a: nat, b: nat)
    requires EXP_ONES < a < SIGN && EXP_ONES < b < SIGN
    ensures a <= b <==> if IsQuiet(a) == IsQuiet(b) then Payload(a) <= Payload(b) else IsQuiet(b)
    ensures IsQuiet(a + SIGN) == IsQuiet(a) && Payload(a + SIGN) == Payload(a)
    ensures IsQuiet(b + SIGN) == IsQuiet(b) && Payload(b + SIGN) == Payload(b)
  {
  }

  /** The key's order in terms of the bits' numbers. */
  lemma {:induction false} KeyIsNumber(f: U32, g: U32)
    ensures Key(f) <= Key(g) <==> Number(f) < Number(g) || (Number(f) == Number(g) && (f >= SIGN || g < SIGN))
    ensures Key(f) == Key(g) <==> f == g
  {
  }

  // ---------------------------------------------------------------- the two loops

  /** First position of the largest key among the first n. */
  function BestBlock(bmax: seq<U32>, n: nat): (j: nat)
    requires 0 < n <= |bmax|
    ensures j < n
  {
    if n == 1 then 0
    else
      var best := BestBlock(bmax, n - 1);
      if Key(bmax[n - 1]) > Key(bmax[best]) then n - 1 else best
  }

  /** The code's equality of floats: the same bits, or two zeros of either sign. */
  predicate Same(f: U32, m: U32) {
    f == m || (f % SIGN == 0 && m % SIGN == 0)
  }

  lemma {:induction false} SameIsEqual(f: U32, m: U32)
    ensures Same(f, m) <==> Number(f) == Number(m)
  {
  }

  /** First position from i on that holds m, 0 if none. */
  function FirstHolding(b: seq<U32>, m: U32, i: nat): (k: nat)
    requires i <= |b|
    ensures k < |b| || k == 0
    decreases |b| - i
  {
    if i == |b| then 0 else if Same(b[i], m) then i else FirstHolding(b, m, i + 1)
  }

  lemma {:induction false} BlockFits(j: nat, n: nat, size: nat)
    requires j < n
    ensures (j + 1) * size <= n * size && (j + 1) * size == j * size + size
  {
    MulUp(j + 1, n, size);
    SumTimes(j, 1, size);
  }

  /** Block j of the logits. */
  function Block(logits: seq<U32>, n: nat, size: nat, j: nat): (b: seq<U32>)
    requires |logits| == n * size && j < n
    ensures |b| == size
  {
    BlockFits(j, n, size);
    logits[j * size..(j + 1) * size]
  }

  /** Index of position i of block j. */
  function Pos(size: nat, j: nat, i: nat): nat {
    j * size + i
  }

  lemma {:induction false} BlockAt(logits: seq<U32>, n: nat, size: nat, j: nat, i: nat)
    requires |logits| == n * size && j < n && i < size
    ensures Pos(size, j, i) < |logits| && Block(logits, n, size, j)[i] == logits[Pos(size, j, i)]
  {
    BlockFits(j, n, size);
  }

  /** The token the core picks. */
  function Pick(logits: seq<U32>, bmax: seq<U32>, size: nat): nat
    requires |bmax| > 0 && |logits| == |bmax| * size
  {
    var best := BestBlock(bmax, |bmax|);
    Pos(size, best, FirstHolding(Block(logits, |bmax|, size, best), bmax[best], 0))
  }

  // ---------------------------------------------------------------- what is picked

  /** m is a largest of b in the order of the bits. */
  predicate HasMax(b: seq<U32>, m: U32) {
    && (exists i :: 0 <= i < |b| && Number(b[i]) == Number(m))
    && (forall i :: 0 <= i < |b| ==> Number(b[i]) <= Number(m))
  }

  /** bmax[j] is a largest of block j in that order. */
  predicate MaximaHeld(logits: seq<U32>, bmax: seq<U32>, size: nat)
    requires |logits| == |bmax| * size
  {
    forall j :: 0 <= j < |bmax| ==> HasMax(Block(logits, |bmax|, size, j), bmax[j])
  }

  lemma {:induction false} BestIsFirst(bmax: seq<U32>, n: nat)
    requires 0 < n <= |bmax|
    ensures var b := BestBlock(bmax, n);
            && (forall j :: 0 <= j < n ==> Key(bmax[j]) <= Key(bmax[b]))
            && (forall j :: 0 <= j < b ==> Key(bmax[j]) < Key(bmax[b]))
  {
    if n > 1 { BestIsFirst(bmax, n - 1); }
  }

  lemma {:induction false} FirstIsFirst(b: seq<U32>, m: U32, i: nat)
    requires i <= |b| && exists k :: i <= k < |b| && Same(b[k], m)
    ensures var k := FirstHolding(b, m, i);
            i <= k < |b| && Same(b[k], m) && forall j :: i <= j < k ==> !Same(b[j], m)
    decreases |b| - i
  {
    if !Same(b[i], m) { FirstIsFirst(b, m, i + 1); }
  }

  lemma {:induction false} NotEmpty(n: nat, size: nat)
    requires n * size > 0
    ensures size > 0
  {
  }

  /** Block and position of a logit. */
  lemma {:induction false} Located(logits: seq<U32>, n: nat, size: nat, t: nat) returns (j: nat, i: nat)
    requires |logits| == n * size && t < |logits|
    ensures j < n && i < size && t == Pos(size, j, i) && Block(logits, n, size, j)[i] == logits[t]
  {
    hide Block;
    NotEmpty(n, size);
    j, i := Divide(t, size);
    QuotientBetween(t, size, j, i, 0, n);
    BlockAt(logits, n, size, j, i);
  }

  /** Indices are in the order of blocks, then positions. */
  lemma {:induction false} InOrder(size: nat, j: nat, i: nat, l: nat, k: nat)
    requires i < size && k < size
    ensures Pos(size, j, i) < Pos(size, l, k) <==> j < l || (j == l && i < k)
  {
    if j < l { BlockFits(j, l, size); }
    if l < j { BlockFits(l, j, size); }
  }

  /** Where the picked token is, and that its logit is the largest block maximum. */
  lemma {:induction false} PickedAt(logits: seq<U32>, bmax: seq<U32>, size: nat) returns (best: nat, k: nat)
    requires |bmax| > 0 && |logits| == |bmax| * size && MaximaHeld(logits, bmax, size)
    ensures best == BestBlock(bmax, |bmax|) && k < size
    ensures var p := Pick(logits, bmax, size);
            p == Pos(size, best, k) && p < |logits| && Number(logits[p]) == Number(bmax[best])
    ensures forall i :: 0 <= i < k ==> Number(Block(logits, |bmax|, size, best)[i]) < Number(bmax[best])
  {
    hide Key, Block, Pos;
    best := BestBlock(bmax, |bmax|);
    var b := Block(logits, |bmax|, size, best);
    assert HasMax(b, bmax[best]);
    hide MaximaHeld;
    var o :| 0 <= o < |b| && Number(b[o]) == Number(bmax[best]);
    SameIsEqual(b[o], bmax[best]);
    FirstIsFirst(b, bmax[best], 0);
    k := FirstHolding(b, bmax[best], 0);
    SameIsEqual(b[k], bmax[best]);
    BlockAt(logits, |bmax|, size, best, k);
    hide Number, Same;
    forall i | 0 <= i < k ensures Number(b[i]) < Number(bmax[best]) { SameIsEqual(b[i], bmax[best]); }
  }

  /** No block maximum is larger than the best, and an equal one before it is a -0 before a +0. */
  lemma {:induction false} BestIsLargest(bmax: seq<U32>, j: nat)
    requires j < |bmax|
    ensures var best := BestBlock(bmax, |bmax|);
            && Number(bmax[j]) <= Number(bmax[best])
            && (j < best && Number(bmax[j]) == Number(bmax[best]) ==> bmax[j] == SIGN && bmax[best] == 0)
  {
    var best := BestBlock(bmax, |bmax|);
    BestIsFirst(bmax, |bmax|);
    KeyIsNumber(bmax[j], bmax[best]);
    KeyIsNumber(bmax[best], bmax[j]);
  }

  /** The token picked indexes a largest logit in the order of the bits. */
  lemma {:induction false} PickHasLargest(logits: seq<U32>, bmax: seq<U32>, size: nat, t: nat)
    requires |bmax| > 0 && |logits| == |bmax| * size && MaximaHeld(logits, bmax, size) && t < |logits|
    ensures Pick(logits, bmax, size) < |logits| && Number(logits[t]) <= Number(logits[Pick(logits, bmax, size)])
  {
    hide Pick, Number, Block, Pos;
    var best, k := PickedAt(logits, bmax, size);
    var j, i := Located(logits, |bmax|, size, t);
    BestIsLargest(bmax, j);
    assert HasMax(Block(logits, |bmax|, size, j), bmax[j]);
  }

  /** Every earlier logit is smaller in that order. */
  predicate FirstByBits(logits: seq<U32>, p: nat)
    requires p < |logits|
  {
    forall t :: 0 <= t < p ==> Number(logits[t]) < Number(logits[p])
  }

  /** A block maximum of -0 before the best one, +0, is numerically as large. */
  lemma {:induction false} EarlierZero(logits: seq<U32>, bmax: seq<U32>, size: nat, j: nat)
    requires |bmax| > 0 && |logits| == |bmax| * size && MaximaHeld(logits, bmax, size)
    requires j < BestBlock(bmax, |bmax|) && bmax[j] == SIGN && bmax[BestBlock(bmax, |bmax|)] == 0
    ensures var p := Pick(logits, bmax, size); p < |logits| && !FirstByBits(logits, p)
  {
    hide Pick, Number, Block, Pos;
    var best, k := PickedAt(logits, bmax, size);
    ZerosAreEqual();
    var b := Block(logits, |bmax|, size, j);
    assert HasMax(b, bmax[j]);
    var i :| 0 <= i < |b| && Number(b[i]) == Number(bmax[j]);
    BlockAt(logits, |bmax|, size, j, i);
    InOrder(size, j, i, best, k);
    assert Number(logits[Pos(size, j, i)]) == Number(logits[Pick(logits, bmax, size)]);
  }

  lemma {:induction false} EarlierIsSmaller(logits: seq<U32>, bmax: seq<U32>, size: nat, t: nat)
    requires |bmax| > 0 && |logits| == |bmax| * size && MaximaHeld(logits, bmax, size)
    requires var best := BestBlock(bmax, |bmax|); forall j :: 0 <= j < best ==> !(bmax[j] == SIGN && bmax[best] == 0)
    requires t < Pick(logits, bmax, size)
    ensures Pick(logits, bmax, size) < |logits| && Number(logits[t]) < Number(logits[Pick(logits, bmax, size)])
  {
    hide Pick, Number, Block, Pos;
    var best, k := PickedAt(logits, bmax, size);
    var j, i := Located(logits, |bmax|, size, t);
    InOrder(size, j, i, best, k);
    BestIsLargest(bmax, j);
    assert HasMax(Block(logits, |bmax|, size, j), bmax[j]);
  }

  /** The token picked is the first index of a largest logit exactly when no earlier block's maximum
      is numerically the best one, which can only be a -0 before a +0. */
  lemma {:induction false} PickIsFirstByBits(logits: seq<U32>, bmax: seq<U32>, size: nat)
    requires |bmax| > 0 && |logits| == |bmax| * size && MaximaHeld(logits, bmax, size)
    ensures var p, best := Pick(logits, bmax, size), BestBlock(bmax, |bmax|);
            && p < |logits|
            && (FirstByBits(logits, p) <==> forall j :: 0 <= j < best ==> !(bmax[j] == SIGN && bmax[best] == 0))
  {
    hide Pick, Number, MaximaHeld;
    var best, k := PickedAt(logits, bmax, size);
    if j :| 0 <= j < best && bmax[j] == SIGN && bmax[best] == 0 {
      EarlierZero(logits, bmax, size, j);
    } else {
      forall t | 0 <= t < Pick(logits, bmax, size)
        ensures Number(logits[t]) < Number(logits[Pick(logits, bmax, size)])
      {
        EarlierIsSmaller(logits, bmax, size, t);
      }
    }
  }

  lemma {:induction false} ZerosAreEqual()
    ensures Number(SIGN) == Number(0)
  {
  }

  // ---------------------------------------------------------------- in terms of values

  predicate NoNaN(s: seq<U32>) {
    forall i :: 0 <= i < |s| ==> !IsNaN(s[i])
  }

  /** m has the largest value of b. */
  predicate IsMax(b: seq<U32>, m: U32)
    requires NoNaN(b) && !IsNaN(m)
  {
    && (exists i :: 0 <= i < |b| && Value(b[i]) == Value(m))
    && (forall i :: 0 <= i < |b| ==> !Less(Value(m), Value(b[i])))
  }

  lemma {:induction false} BlockNoNaN(logits: seq<U32>, n: nat, size: nat, j: nat)
    requires |logits| == n * size && j < n && NoNaN(logits)
    ensures NoNaN(Block(logits, n, size, j))
  {
    BlockFits(j, n, size);
  }

  /** There is no NaN, and bmax[j] has the largest value of block j. */
  ghost predicate MaximaRight(logits: seq<U32>, bmax: seq<U32>, size: nat)
    requires |logits| == |bmax| * size
  {
    && NoNaN(logits) && NoNaN(bmax)
    && forall j :: 0 <= j < |bmax| ==>
         NoNaN(Block(logits, |bmax|, size, j)) && IsMax(Block(logits, |bmax|, size, j), bmax[j])
  }

  lemma {:induction false} MaxByBits(b: seq<U32>, m: U32)
    requires NoNaN(b) && !IsNaN(m) && IsMax(b, m)
    ensures HasMax(b, m)
  {
    hide Value, Number, Less;
    var o :| 0 <= o < |b| && Value(b[o]) == Value(m);
    NumberIsValue(b[o], m);
    forall i | 0 <= i < |b| ensures Number(b[i]) <= Number(m) { NumberIsValue(m, b[i]); }
  }

  lemma {:induction false} MaximaByBits(logits: seq<U32>, bmax: seq<U32>, size: nat)
    requires |logits| == |bmax| * size && MaximaRight(logits, bmax, size)
    ensures MaximaHeld(logits, bmax, size)
  {
    hide Block, IsMax, HasMax;
    forall j | 0 <= j < |bmax| ensures HasMax(Block(logits, |bmax|, size, j), bmax[j]) {
      MaxByBits(Block(logits, |bmax|, size, j), bmax[j]);
    }
  }

  /** With no NaN and right block maxima the token picked indexes a logit of largest value. */
  lemma {:induction false} PickIsLargest(logits: seq<U32>, bmax: seq<U32>, size: nat, t: nat)
    requires |bmax| > 0 && |logits| == |bmax| * size && MaximaRight(logits, bmax, size) && t < |logits|
    ensures var p := Pick(logits, bmax, size); p < |logits| && !Less(Value(logits[p]), Value(logits[t]))
  {
    hide Pick, Value, Less, Number;
    MaximaByBits(logits, bmax, size);
    PickHasLargest(logits, bmax, size, t);
    NumberIsValue(logits[Pick(logits, bmax, size)], logits[t]);
  }

  /** Every earlier logit has a smaller value. */
  predicate FirstOfLargest(logits: seq<U32>, p: nat)
    requires p < |logits| && NoNaN(logits)
  {
    forall t :: 0 <= t < p ==> Less(Value(logits[t]), Value(logits[p]))
  }

  /** The token picked is the first index of a logit of largest value exactly when no earlier block's
      maximum is a -0 while the largest is +0. */
  lemma {:induction false} PickIsFirstIff(logits: seq<U32>, bmax: seq<U32>, size: nat)
    requires |bmax| > 0 && |logits| == |bmax| * size && MaximaRight(logits, bmax, size)
    ensures var p, best := Pick(logits, bmax, size), BestBlock(bmax, |bmax|);
            && p < |logits|
            && (FirstOfLargest(logits, p) <==> forall j :: 0 <= j < best ==> !(bmax[j] == SIGN && bmax[best] == 0))
  {
    hide Pick, Value, Less, Number;
    MaximaByBits(logits, bmax, size);
    PickIsFirstByBits(logits, bmax, size);
    var p := Pick(logits, bmax, size);
    forall t | 0 <= t < p
      ensures Number(logits[t]) < Number(logits[p]) <==> Less(Value(logits[t]), Value(logits[p]))
    {
      NumberIsValue(logits[t], logits[p]);
    }
  }
}
