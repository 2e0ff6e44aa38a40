/** The checksum stamped on every low-level command, and what it computes.

    `Crc32Core` is the bit loop over 32-bit words. Bits are consumed most significant
    first, the register starts as all ones and is not inverted at the end.
 */
module Crc32 {
  import opened Gf2
  import opened Words

  /** The generator of section 3.2.9 of IEEE 802.3, with its leading term. */
  ghost const GENERATOR: Poly := {32, 26, 23, 22, 16, 12, 11, 10, 8, 7, 5, 4, 2, 1, 0}

  /** The constant 0x04c11db7 of the code: the generator without its leading term. */
  function Polynomial(): Word {
    seq(32, k requires 0 <= k < 32 => k in {5, 8, 9, 15, 19, 20, 21, 23, 24, 26, 27, 29, 30, 31})
  }

  /** One more hexadecimal digit. */
  lemma ValueDigit(bits: seq<bool>, n: nat)
    requires n + 4 <= |bits|
    ensures Value(bits, n + 4) == 16 * Value(bits, n) + (if bits[n] then 8 else 0) + (if bits[n + 1] then 4 else 0)
                                  + (if bits[n + 2] then 2 else 0) + if bits[n + 3] then 1 else 0
  {
    assert Value(bits, n + 1) == 2 * Value(bits, n) + if bits[n] then 1 else 0;
    assert Value(bits, n + 2) == 2 * Value(bits, n + 1) + if bits[n + 1] then 1 else 0;
    assert Value(bits, n + 3) == 2 * Value(bits, n + 2) + if bits[n + 2] then 1 else 0;
  }

  lemma HighHalf(p: Word)
    requires forall k :: 0 <= k < 16 ==> (p[k] <==> k in {5, 8, 9, 15})
    ensures Value(p, 16) == 0x04c1
  {
    ValueDigit(p, 0);
    ValueDigit(p, 4);
    ValueDigit(p, 8);
    ValueDigit(p, 12);
  }

  lemma LowHalf(p: Word)
    requires forall k :: 16 <= k < 32 ==> (p[k] <==> k in {19, 20, 21, 23, 24, 26, 27, 29, 30, 31})
    ensures Value(p, 32) == 0x1_0000 * Value(p, 16) + 0x1db7
  {
    ValueDigit(p, 16);
    ValueDigit(p, 20);
    ValueDigit(p, 24);
    ValueDigit(p, 28);
  }

  lemma PolynomialValue(p: Word)
    requires p == Polynomial()
    ensures Value(p, 32) == 0x04c11db7
  {
    HighHalf(p);
    LowHalf(p);
  }

  lemma AllSet(p: Word, n: nat)
    requires n <= 16 && forall k :: 0 <= k < 32 ==> p[k]
    ensures Value(p, n + 16) == 0x1_0000 * Value(p, n) + 0xFFFF
  {
    ValueDigit(p, n);
    ValueDigit(p, n + 4);
    ValueDigit(p, n + 8);
    ValueDigit(p, n + 12);
  }

  /** The start value of the register. */
  lemma OnesValue(w: Word)
    requires w == Ones()
    ensures Value(w, 32) == 0xFFFF_FFFF
  {
    AllSet(w, 0);
    AllSet(w, 16);
  }

  // ---------------------------------------------------------------- specification of the loop

  /** One pass of the inner loop: shift, and reduce once for the bit shifted out and once for the data bit. */
  function Step(c: Word, b: bool): Word {
    var shifted := if c[0] then Xor(ShiftUp(c), Polynomial()) else ShiftUp(c);
    if b then Xor(shifted, Polynomial()) else shifted
  }

  function Feed(c: Word, bits: seq<bool>): Word {
    if bits == [] then c else Step(Feed(c, bits[..|bits| - 1]), bits[|bits| - 1])
  }

  function MessageBits(words: seq<Word>): (bits: seq<bool>)
    ensures |bits| == 32 * |words|
  {
    if words == [] then [] else MessageBits(words[..|words| - 1]) + words[|words| - 1]
  }

  function Crc(words: seq<Word>): Word {
    Feed(Ones(), MessageBits(words))
  }

  // ---------------------------------------------------------------- the polynomial remainder

  /** What is divided: the all-ones start value shifted past the message, and the message shifted past the register. */
  ghost function Dividend(bits: seq<bool>): Poly {
    Add(Shift(FromBits(Ones()), |bits|), Shift(FromBits(bits), 32))
  }

  lemma GeneratorDegree()
    ensures HasDegree(GENERATOR, 32)
  {
  }

  /** The code's constant holds the generator's terms below x^32. */
  lemma GeneratorTerm(i: nat)
    ensures i in GENERATOR <==> i == 32 || (i < 32 && Polynomial()[31 - i])
  {
  }

  /** One pass in polynomial terms: multiply by x, bring the data bit in at x^32, and subtract
      the generator when the bit shifted out and the data bit differ (when both are set the two
      reductions cancel). */
  lemma StepPoly(c: Word, b: bool)
    ensures FromBits(Step(c, b)) ==
            Add(Add(Shift(FromBits(c), 1), if b then {32} else {}),
                if c[0] != b then GENERATOR else {})
  {
    forall i: nat
      ensures i in FromBits(Step(c, b)) <==>
              i in Add(Add(Shift(FromBits(c), 1), if b then {32} else {}),
                       if c[0] != b then GENERATOR else {})
    {
      StepTerm(c, b, i);
    }
  }

  lemma StepTerm(c: Word, b: bool, i: nat)
    ensures i in FromBits(Step(c, b)) <==>
            ((i in Shift(FromBits(c), 1)) != (b && i == 32)) != (c[0] != b && i in GENERATOR)
  {
    WordTerm(Step(c, b), i);
    ShiftedWordTerm(c, i);
    if i < 32 {
      StepCoefficient(c, b, i);
    } else {
      GeneratorTerm(i);
    }
  }

  lemma WordTerm(w: Word, i: nat)
    ensures i in FromBits(w) <==> i < 32 && w[31 - i]
  {
    assert i < 32 ==> Coefficient(w, i) == w[31 - i];
  }

  lemma ShiftedWordTerm(w: Word, i: nat)
    ensures i in Shift(FromBits(w), 1) <==> 1 <= i <= 32 && w[32 - i]
  {
    ShiftMember(FromBits(w), 1, i);
    if i >= 1 {
      WordTerm(w, i - 1);
    }
  }

  lemma StepCoefficient(c: Word, b: bool, i: nat)
    requires i < 32
    ensures Step(c, b)[31 - i] == ((0 < i && c[32 - i]) != (c[0] != b && i in GENERATOR))
  {
    StepBit(c, b, 31 - i);
    GeneratorTerm(i);
  }

  lemma StepBit(c: Word, b: bool, k: nat)
    requires k < 32
    ensures Step(c, b)[k] == ((k < 31 && c[k + 1]) != (c[0] != b && Polynomial()[k]))
  {
  }

  lemma SumUp(a: Poly, c: Poly, x: Poly, g: Poly)
    ensures Add(Add(a, c), x) == Add(Add(a, g), Add(Add(c, x), g))
  {
  }

  lemma DividendAppend(bits: seq<bool>, b: bool)
    ensures Dividend(bits + [b]) == Add(Shift(Dividend(bits), 1), if b then {32} else {})
  {
    var s, m := FromBits(Ones()), FromBits(bits);
    var last: Poly := if b then {0} else {};
    FromBitsAppend(bits, b);
    ShiftAdd(Shift(m, 1), last, 32);
    ShiftShift(m, 1, 32);
    ShiftShift(m, 32, 1);
    ShiftShift(s, |bits|, 1);
    ShiftAdd(Shift(s, |bits|), Shift(m, 32), 1);
    assert Shift(last, 32) == if b then {32} else {};
  }

  /** The loop divides: with the right quotient, dividend = quotient * generator + register. */
  lemma {:induction false} FeedDivides(bits: seq<bool>) returns (q: seq<bool>)
    ensures Dividend(bits) == Add(Mul(q, GENERATOR), FromBits(Feed(Ones(), bits)))
  {
    if bits == [] {
      q := [];
      assert Shift(FromBits(Ones()), 0) == FromBits(Ones());
      assert Shift(FromBits([]), 32) == {};
    } else {
      var init, b := bits[..|bits| - 1], bits[|bits| - 1];
      var c := Feed(Ones(), init);
      var q0 := FeedDivides(init);
      q := q0 + [c[0] != b];
      assert q[..|q| - 1] == q0;
      DividendAppend(init, b);
      assert bits == init + [b];
      StepPoly(c, b);
      ShiftAdd(Mul(q0, GENERATOR), FromBits(c), 1);
      SumUp(Shift(Mul(q0, GENERATOR), 1), Shift(FromBits(c), 1), if b then {32} else {},
            if c[0] != b then GENERATOR else {});
      MulLast(q, GENERATOR);
    }
  }

  /** Bit `pos` of a message, counted from the most significant bit of its first word. */
  predicate BitAt(words: seq<Word>, pos: nat)
    requires pos < 32 * |words|
  {
    words[pos / 32][pos % 32]
  }

  /** What is divided, exponent by exponent: x^32 times the message, plus ones in the 32 places above the message. */
  ghost function WordDividend(words: seq<Word>): Poly {
    set e: nat | e < 32 * |words| + 32 && TermOf(words, e)
  }

  predicate TermOf(words: seq<Word>, e: nat)
    requires e < 32 * |words| + 32
  {
    (e >= 32 * |words|) != (e >= 32 && BitAt(words, 32 * |words| + 31 - e))
  }

  lemma MessageBit(words: seq<Word>, pos: nat)
    requires pos < 32 * |words|
    ensures MessageBits(words)[pos] == BitAt(words, pos)
  {
    var i, k := pos / 32, pos % 32;
    MessageBitsAt(words, i);
    assert pos == 32 * i + k;
    assert MessageBits(words)[32 * i..32 * i + 32][k] == MessageBits(words)[pos];
  }

  lemma OnesTerm(i: nat)
    ensures i in FromBits(Ones()) <==> i < 32
  {
    assert i < 32 ==> Coefficient(Ones(), i);
  }

  lemma DividendTerm(words: seq<Word>, e: nat)
    ensures e in Dividend(MessageBits(words)) <==> e in WordDividend(words)
  {
    var bits, n := MessageBits(words), 32 * |words|;
    ShiftMember(FromBits(Ones()), n, e);
    ShiftMember(FromBits(bits), 32, e);
    if e >= n {
      OnesTerm(e - n);
    }
    if 32 <= e < n + 32 {
      MessageBit(words, n + 31 - e);
      assert Coefficient(bits, e - 32) == bits[n - 1 - (e - 32)];
    }
  }

  lemma DividendIs(words: seq<Word>)
    ensures Dividend(MessageBits(words)) == WordDividend(words)
  {
    forall e: nat ensures e in Dividend(MessageBits(words)) <==> e in WordDividend(words) {
      DividendTerm(words, e);
    }
  }

  /** The checksum of every word sequence is the one and only remainder of its dividend modulo the generator. */
  lemma CrcIsRemainder(words: seq<Word>, r: Poly)
    ensures IsRemainder(WordDividend(words), GENERATOR, 32, r) <==> forall i: nat :: i in r <==> i < 32 && Crc(words)[31 - i]
  {
    var bits := MessageBits(words);
    var q := FeedDivides(bits);
    var c := FromBits(Crc(words));
    DividendIs(words);
    assert IsRemainder(Dividend(bits), GENERATOR, 32, c);
    GeneratorDegree();
    if IsRemainder(Dividend(bits), GENERATOR, 32, r) {
      RemainderUnique(Dividend(bits), GENERATOR, 32, r, c);
    }
    forall i: nat ensures i in c <==> i < 32 && Crc(words)[31 - i] {
      WordTerm(Crc(words), i);
    }
    if forall i: nat :: i in r <==> i < 32 && Crc(words)[31 - i] {
      assert r == c;
    }
  }

  // ---------------------------------------------------------------- affinity and bijectivity

  lemma StepLinear(c: Word, d: Word, a: bool, b: bool)
    ensures Step(Xor(c, d), a != b) == Xor(Step(c, a), Step(d, b))
  {
    forall k | 0 <= k < 32 ensures Step(Xor(c, d), a != b)[k] == Xor(Step(c, a), Step(d, b))[k] {
      StepBit(Xor(c, d), a != b, k);
      StepBit(c, a, k);
      StepBit(d, b, k);
    }
  }

  /** For a fixed data bit a pass loses nothing: different registers stay different. */
  lemma StepInjective(c: Word, d: Word, b: bool)
    ensures Step(c, b) == Step(d, b) ==> c == d
  {
    if Step(c, b) == Step(d, b) {
      StepBit(c, b, 31);
      StepBit(d, b, 31);
      assert c[0] == d[0];
      forall k | 0 < k < 32 ensures c[k] == d[k] {
        StepBit(c, b, k - 1);
        StepBit(d, b, k - 1);
      }
    }
  }

  lemma {:induction false} FeedLinear(c: Word, d: Word, a: seq<bool>, b: seq<bool>)
    requires |a| == |b|
    ensures Feed(Xor(c, d), Xor(a, b)) == Xor(Feed(c, a), Feed(d, b))
  {
    if a == [] {
    } else {
      var n := |a| - 1;
      FeedLinear(c, d, a[..n], b[..n]);
      assert Xor(a, b)[..n] == Xor(a[..n], b[..n]);
      StepLinear(Feed(c, a[..n]), Feed(d, b[..n]), a[n], b[n]);
    }
  }

  lemma {:induction false} FeedInjective(c: Word, d: Word, bits: seq<bool>)
    ensures Feed(c, bits) == Feed(d, bits) ==> c == d
  {
    if bits == [] {
    } else {
      var n := |bits| - 1;
      FeedInjective(c, d, bits[..n]);
      StepInjective(Feed(c, bits[..n]), Feed(d, bits[..n]), bits[n]);
    }
  }

  lemma {:induction false} FeedAppend(c: Word, a: seq<bool>, b: seq<bool>)
    ensures Feed(c, a + b) == Feed(Feed(c, a), b)
  {
    if b == [] {
      assert a + b == a;
    } else {
      var n := |b| - 1;
      FeedAppend(c, a, b[..n]);
      assert (a + b)[..|a + b| - 1] == a + b[..n];
    }
  }

  /** The bits of `w` that have not been consumed after `k` passes, moved to the top. */
  function Unread(w: Word, k: nat): Word
    requires k <= 32
  {
    w[k..] + seq(k, _ => false)
  }

  lemma {:induction false} FeedWordPrefix(c: Word, w: Word, k: nat)
    requires k <= 32
    ensures Feed(Xor(c, w), Zeros()[..k]) == Xor(Feed(c, w[..k]), Unread(w, k))
  {
    if k > 0 {
      FeedWordPrefix(c, w, k - 1);
      assert Zeros()[..k][..k - 1] == Zeros()[..k - 1];
      assert w[..k][..k - 1] == w[..k - 1];
      var f, u := Feed(c, w[..k - 1]), Unread(w, k - 1);
      StepLinear(f, u, w[k - 1], w[k - 1]);
      forall j | 0 <= j < 32 ensures Step(u, w[k - 1])[j] == Unread(w, k)[j] {
        StepBit(u, w[k - 1], j);
      }
    }
  }

  /** Feeding all 32 bits of a word is the same as mixing the word in first and feeding zeros. */
  lemma FeedWord(c: Word, w: Word)
    ensures Feed(c, w) == Feed(Xor(c, w), Zeros())
  {
    FeedWordPrefix(c, w, 32);
    assert w[..32] == w && Zeros()[..32] == Zeros() && Unread(w, 32) == Zeros();
    assert Xor(Feed(c, w), Zeros()) == Feed(c, w);
  }

  lemma FeedWordNonzero(w: Word)
    ensures Feed(Zeros(), w) == Zeros() ==> w == Zeros()
  {
    FeedWord(Zeros(), w);
    FeedZero(Zeros());
    assert Xor(Zeros(), w) == w;
    FeedInjective(w, Zeros(), Zeros());
  }

  lemma {:induction false} FeedZero(bits: seq<bool>)
    requires Quiet(bits)
    ensures Feed(Zeros(), bits) == Zeros()
  {
    if bits != [] {
      FeedZero(bits[..|bits| - 1]);
      assert Step(Zeros(), false) == Zeros();
    }
  }

  // ---------------------------------------------------------------- what the checksum detects

  /** Running the loop over a message followed by one more word gives zero exactly when that word is its checksum. */
  lemma ZeroResidue(words: seq<Word>, last: Word)
    ensures Crc(words + [last]) == Zeros() <==> last == Crc(words)
  {
    var all := words + [last];
    assert all[..|all| - 1] == words;
    var c := Crc(words);
    FeedAppend(Ones(), MessageBits(words), last);
    FeedWord(c, last);
    FeedZero(Zeros());
    FeedInjective(Xor(c, last), Zeros(), Zeros());
    XorIsZero(c, last);
  }

  /** The 32 bits from `p` on are the only place where the two messages may differ. */
  ghost predicate DifferOnlyIn(a: seq<bool>, b: seq<bool>, p: nat) {
    |a| == |b| && forall i :: 0 <= i < |a| && !(p <= i < p + 32) ==> a[i] == b[i]
  }

  ghost predicate Quiet(bits: seq<bool>) {
    forall i :: 0 <= i < |bits| ==> !bits[i]
  }

  lemma ThreeParts(e: seq<bool>, p: nat)
    requires p + 32 <= |e|
    ensures e == e[..p] + (e[p..p + 32] + e[p + 32..])
  {
  }

  /** From the zero register, an error pattern confined to 32 consecutive bits leaves a nonzero register. */
  lemma BurstParts(before: seq<bool>, burst: Word, after: seq<bool>)
    requires Quiet(before) && Quiet(after)
    ensures Feed(Zeros(), before + (burst + after)) == Zeros() ==> burst == Zeros()
  {
    FeedAppend(Zeros(), before, burst + after);
    FeedZero(before);
    FeedAppend(Zeros(), burst, after);
    FeedZero(after);
    FeedInjective(Feed(Zeros(), burst), Zeros(), after);
    FeedWordNonzero(burst);
  }

  lemma XorQuiet(a: seq<bool>, b: seq<bool>, p: nat)
    requires p + 32 <= |a| && DifferOnlyIn(a, b, p)
    ensures Quiet(Xor(a, b)[..p]) && Quiet(Xor(a, b)[p + 32..])
  {
  }

  /** Any change confined to 32 consecutive bits, at any offset, changes the register. */
  lemma BurstBits(a: seq<bool>, b: seq<bool>, p: nat)
    requires p + 32 <= |a| && DifferOnlyIn(a, b, p)
    requires Feed(Ones(), a) == Feed(Ones(), b)
    ensures a == b
  {
    var e := Xor(a, b);
    FeedLinear(Ones(), Ones(), a, b);
    assert Xor(Ones(), Ones()) == Zeros();
    XorIsZero(Feed(Ones(), a), Feed(Ones(), b));
    XorQuiet(a, b, p);
    ThreeParts(e, p);
    BurstParts(e[..p], e[p..p + 32], e[p + 32..]);
    forall i | 0 <= i < |a| ensures a[i] == b[i] {
      if p <= i < p + 32 {
        assert e[i] == e[p..p + 32][i - p] == Zeros()[i - p];
      }
    }
  }

  lemma {:induction false} MessageBitsAt(words: seq<Word>, i: nat)
    requires i < |words|
    ensures MessageBits(words)[32 * i..32 * i + 32] == words[i]
  {
    if i < |words| - 1 {
      var init := words[..|words| - 1];
      MessageBitsAt(init, i);
      assert MessageBits(words)[..32 * |init|] == MessageBits(init);
    }
  }

  lemma MessageBitsInjective(a: seq<Word>, b: seq<Word>)
    requires |a| == |b| && MessageBits(a) == MessageBits(b)
    ensures a == b
  {
    forall i | 0 <= i < |a| ensures a[i] == b[i] {
      MessageBitsAt(a, i);
      MessageBitsAt(b, i);
    }
  }

  /** Two different commands that differ only inside one window of at most 32 consecutive bits,
      even across a word boundary or the end of the message, have different checksums. */
  lemma BurstDetected(a: seq<Word>, b: seq<Word>, p: nat)
    requires |a| == |b| && a != b
    requires DifferOnlyIn(MessageBits(a), MessageBits(b), p)
    ensures Crc(a) != Crc(b)
  {
    if Crc(a) == Crc(b) {
      var n := 32 * |a|;
      var start := if p + 32 <= n then p else n - 32;
      BurstBits(MessageBits(a), MessageBits(b), start);
      MessageBitsInjective(a, b);
    }
  }

  // ---------------------------------------------------------------- the loop itself

  /** The loop, over the first `len` words at `ptr`. */
  method Crc32Core(ptr: array<Word>, len: nat) returns (crc: Word)
    requires len <= ptr.Length
    ensures crc == Crc(ptr[..len])
    ensures forall r: Poly :: IsRemainder(WordDividend(ptr[..len]), GENERATOR, 32, r) <==> forall i: nat :: i in r <==> i < 32 && crc[31 - i]
  {
    crc := Ones();
    for i := 0 to len
      invariant crc == Crc(ptr[..i])
    {
      var xbit := OneHot(0);
      var data := ptr[i];
      ghost var before := crc;
      for bits := 0 to 32
        invariant xbit == OneHot(bits)
        invariant crc == Feed(before, data[..bits])
      {
        assert data[..bits + 1][..bits] == data[..bits];
        assert Meet(data, xbit) <==> data[bits] by {
          assert xbit[bits];
        }
        if Meet(crc, OneHot(0)) {
          crc := ShiftUp(crc);
          crc := Xor(crc, Polynomial());
        } else {
          assert OneHot(0)[0];
          crc := ShiftUp(crc);
        }
        if Meet(data, xbit) {
          crc := Xor(crc, Polynomial());
        }
        xbit := ShiftDown(xbit);
      }
      assert data[..32] == data;
      assert ptr[..i + 1][..i] == ptr[..i];
      FeedAppend(Ones(), MessageBits(ptr[..i]), data);
    }
    forall r: Poly
      ensures IsRemainder(WordDividend(ptr[..len]), GENERATOR, 32, r) <==> forall i: nat :: i in r <==> i < 32 && crc[31 - i]
    {
      CrcIsRemainder(ptr[..len], r);
    }
  }
}
