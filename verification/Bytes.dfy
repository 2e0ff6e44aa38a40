/** Bytes, integers of fixed width and their two byte orders. */
module Bytes {

  type Byte = b: nat | b < 256

  function Pow256(k: nat): (r: nat)
    ensures r > 0
  {
    if k == 0 then 1 else 256 * Pow256(k - 1)
  }

  /** The low `k` bytes of `n`, least significant first. */
  function Little(n: nat, k: nat): (s: seq<Byte>)
    ensures |s| == k
  {
    if k == 0 then [] else [n % 256] + Little(n / 256, k - 1)
  }

  function FromLittle(s: seq<Byte>): (n: nat)
    ensures n < Pow256(|s|)
  {
    if s == [] then 0 else s[0] + 256 * FromLittle(s[1..])
  }

  /** The low `k` bytes of `n` in network order. */
  function Big(n: nat, k: nat): (s: seq<Byte>)
    ensures |s| == k
  {
    if k == 0 then [] else Big(n / 256, k - 1) + [n % 256]
  }

  function FromBig(s: seq<Byte>): nat {
    if s == [] then 0 else 256 * FromBig(s[..|s| - 1]) + s[|s| - 1]
  }

  lemma {:induction false} LittleRoundTrip(n: nat, k: nat)
    requires n < Pow256(k)
    ensures FromLittle(Little(n, k)) == n
  {
    if k > 0 {
      LittleRoundTrip(n / 256, k - 1);
      assert Little(n, k)[1..] == Little(n / 256, k - 1);
    }
  }

  lemma {:induction false} BigRoundTrip(n: nat, k: nat)
    requires n < Pow256(k)
    ensures FromBig(Big(n, k)) == n
  {
    if k > 0 {
      BigRoundTrip(n / 256, k - 1);
      assert Big(n, k)[..k - 1] == Big(n / 256, k - 1);
    }
  }

  /** The first byte of a little-endian pair is the low one. */
  lemma FromLittle2(s: seq<Byte>)
    requires |s| == 2
    ensures FromLittle(s) == s[0] + 256 * (s[1] as nat)
  {
    assert FromLittle(s[1..]) == s[1] + 256 * FromLittle(s[1..][1..]);
  }

  /** The first byte in network order is the high one. */
  lemma FromBig2(s: seq<Byte>)
    requires |s| == 2
    ensures FromBig(s) == 256 * (s[0] as nat) + s[1]
  {
    assert FromBig(s[..1]) == 256 * FromBig(s[..1][..0]) + s[0];
  }

  lemma FromBig4(s: seq<Byte>)
    requires |s| == 4
    ensures FromBig(s) == 0x100_0000 * (s[0] as nat) + 0x1_0000 * (s[1] as nat) + 256 * (s[2] as nat) + s[3]
  {
    FromBig2(s[..2]);
    assert s[..3][..2] == s[..2];
    assert FromBig(s[..3]) == 256 * FromBig(s[..2]) + s[2];
  }

  lemma Widths()
    ensures Pow256(2) == 0x1_0000 && Pow256(4) == 0x1_0000_0000
  {
  }

  /** A 16-bit unsigned counter. */
  function Wrap16(n: nat): (r: nat)
    ensures r < 0x1_0000
  {
    n % 0x1_0000
  }

  lemma WrapAdd(n: nat, k: nat)
    ensures Wrap16(Wrap16(n) + k) == Wrap16(n + k)
  {
  }

  // ---------------------------------------------------------------- 16-bit signed values

  type Int16 = x: int | -0x8000 <= x < 0x8000

  /** `(int16_t)x`: the low sixteen bits, read as two's complement. */
  function ToInt16(x: int): (r: Int16)
    ensures (r - x) % 0x1_0000 == 0
    ensures -0x8000 <= x < 0x8000 ==> r == x
  {
    (x + 0x8000) % 0x1_0000 - 0x8000
  }

  function Int16Bytes(x: Int16): (s: seq<Byte>)
    ensures |s| == 2
  {
    Little(x % 0x1_0000, 2)
  }

  function FromInt16Bytes(s: seq<Byte>): Int16
    requires |s| == 2
  {
    ToInt16(FromLittle(s))
  }

  lemma Int16Layout(s: seq<Byte>)
    requires |s| == 2
    ensures (FromInt16Bytes(s) - (s[0] + 256 * (s[1] as nat))) % 0x1_0000 == 0
  {
    FromLittle2(s);
  }

  lemma Int16RoundTrip(x: Int16)
    ensures FromInt16Bytes(Int16Bytes(x)) == x
  {
    Widths();
    LittleRoundTrip(x % 0x1_0000, 2);
  }

  // ---------------------------------------------------------------- sequences in fixed-size pieces

  function Flatten<T>(ss: seq<seq<T>>): seq<T> {
    if ss == [] then [] else Flatten(ss[..|ss| - 1]) + ss[|ss| - 1]
  }

  lemma {:induction false} FlattenAppend<T>(a: seq<seq<T>>, b: seq<seq<T>>)
    ensures Flatten(a + b) == Flatten(a) + Flatten(b)
  {
    if b == [] {
      assert a + b == a;
    } else {
      var init, last := b[..|b| - 1], b[|b| - 1];
      FlattenAppend(a, init);
      assert b == init + [last] && a + b == (a + init) + [last];
      FlattenPush(init, last);
      FlattenPush(a + init, last);
      assert Flatten(a) + (Flatten(init) + last) == Flatten(a) + Flatten(init) + last;
    }
  }

  /** Adding one piece at the end. */
  lemma FlattenPush<T>(ss: seq<seq<T>>, s: seq<T>)
    ensures Flatten(ss + [s]) == Flatten(ss) + s
  {
    assert (ss + [s])[..|ss|] == ss;
  }

  lemma FlattenOne<T>(s: seq<T>)
    ensures Flatten([s]) == s
  {
    assert Flatten<T>([s][..0]) == [];
  }

  lemma {:induction false} FlattenLength<T>(ss: seq<seq<T>>, n: nat)
    requires forall i :: 0 <= i < |ss| ==> |ss[i]| == n
    ensures |Flatten(ss)| == n * |ss|
  {
    if ss == [] {
    } else {
      FlattenLength(ss[..|ss| - 1], n);
      MulStep(n, |ss| - 1);
    }
  }

  /** `s` in pieces of `n`, the last one possibly shorter. */
  function Chunks<T>(s: seq<T>, n: nat): seq<seq<T>>
    requires n > 0
  {
    if s == [] then [] else if |s| <= n then [s] else [s[..n]] + Chunks(s[n..], n)
  }

  /** Every piece but the last is full, and no piece is empty. */
  ghost predicate Full<T>(pieces: seq<seq<T>>, n: nat) {
    forall i :: 0 <= i < |pieces| ==>
      1 <= |pieces[i]| <= n && (i < |pieces| - 1 ==> |pieces[i]| == n)
  }

  lemma {:induction false} ChunksFull<T>(s: seq<T>, n: nat)
    requires n > 0
    ensures Full(Chunks(s, n), n)
  {
    if |s| > n {
      ChunksFull(s[n..], n);
      FullCons(s[..n], Chunks(s[n..], n), n);
    }
  }

  lemma {:induction false} ChunksFlatten<T>(s: seq<T>, n: nat)
    requires n > 0
    ensures Flatten(Chunks(s, n)) == s
  {
    if s == [] {
    } else if |s| <= n {
      FlattenOne(s);
    } else {
      ChunksFlatten(s[n..], n);
      FlattenAppend([s[..n]], Chunks(s[n..], n));
      FlattenOne(s[..n]);
    }
  }

  /** The pieces are full, and put together they are `s` again. */
  lemma ChunksAreFull<T>(s: seq<T>, n: nat)
    requires n > 0
    ensures Full(Chunks(s, n), n)
    ensures Flatten(Chunks(s, n)) == s
  {
    ChunksFull(s, n);
    ChunksFlatten(s, n);
  }

  lemma FullCons<T>(piece: seq<T>, rest: seq<seq<T>>, n: nat)
    requires n > 0 && |piece| == n && Full(rest, n)
    ensures Full([piece] + rest, n)
  {
    forall i | 0 <= i < |[piece] + rest|
      ensures 1 <= |([piece] + rest)[i]| <= n && (i < |[piece] + rest| - 1 ==> |([piece] + rest)[i]| == n)
    {
      assert i > 0 ==> ([piece] + rest)[i] == rest[i - 1];
    }
  }

  /** There are as many pieces as the length divided by `n`, rounded up. */
  lemma {:induction false} ChunkCount<T>(s: seq<T>, n: nat)
    requires n > 0
    ensures s == [] ==> Chunks(s, n) == []
    ensures s != [] ==> n * (|Chunks(s, n)| - 1) < |s| <= n * |Chunks(s, n)|
  {
    if |s| > n {
      ChunkCount(s[n..], n);
      var k := |Chunks(s[n..], n)|;
      MulStep(n, k);
      MulStep(n, k - 1);
    }
  }

  lemma MulStep(n: int, k: int)
    ensures n * (k + 1) == n * k + n
  {
  }

  /** The pieces are the only way to cut `s` so. */
  lemma {:induction false} FullIsChunks<T>(pieces: seq<seq<T>>, n: nat)
    requires n > 0 && Full(pieces, n)
    ensures Chunks(Flatten(pieces), n) == pieces
  {
    if pieces == [] {
    } else {
      var rest := pieces[1..];
      assert pieces == [pieces[0]] + rest;
      FlattenAppend([pieces[0]], rest);
      FlattenOne(pieces[0]);
      FullIsChunks(rest, n);
      if rest == [] {
      } else {
        FlattenNonempty(rest);
        assert Flatten(pieces)[..n] == pieces[0] && Flatten(pieces)[n..] == Flatten(rest);
      }
    }
  }

  lemma FlattenNonempty<T>(ss: seq<seq<T>>)
    requires ss != [] && ss[|ss| - 1] != []
    ensures Flatten(ss) != []
  {
  }

  // ---------------------------------------------------------------- records of equal size

  /** `b` cut into records of `size` bytes from the end; an incomplete record in front is dropped. */
  function SplitRecords(b: seq<Byte>, size: nat): seq<seq<Byte>>
    requires size > 0
  {
    if |b| < size then [] else SplitRecords(b[..|b| - size], size) + [b[|b| - size..]]
  }

  ghost predicate AllSized(records: seq<seq<Byte>>, size: nat) {
    forall i :: 0 <= i < |records| ==> |records[i]| == size
  }

  lemma NextFits(size: nat, i: nat, n: nat)
    requires i < n
    ensures size * (i + 1) == size * i + size <= size * n
  {
    MulStep(size, i);
    MulOrder(size, i + 1, n);
  }

  lemma MulOrder(size: nat, j: nat, k: nat)
    requires j <= k
    ensures size * j <= size * k
  {
  }

  /** Record `k` of `n` whole records stands at `size * k`. */
  lemma {:induction false} SplitAt(b: seq<Byte>, size: nat, n: nat, k: nat)
    requires size > 0 && |b| == size * n && k < n
    ensures |SplitRecords(b, size)| == n
    ensures size * k + size <= |b| && SplitRecords(b, size)[k] == b[size * k..size * k + size]
  {
    NextFits(size, n - 1, n);
    NextFits(size, k, n);
    var init := b[..|b| - size];
    if n == 1 {
      SplitNothing(init, size);
    } else if k < n - 1 {
      SplitAt(init, size, n - 1, k);
      NextFits(size, k, n - 1);
      SliceOfPrefix(b, |b| - size, size * k, size * k + size);
    } else {
      SplitAt(init, size, n - 1, 0);
    }
  }

  lemma SplitNothing(b: seq<Byte>, size: nat)
    requires size > 0 && |b| == 0
    ensures SplitRecords(b, size) == []
  {
  }

  lemma SliceOfPrefix(b: seq<Byte>, m: nat, i: nat, j: nat)
    requires i <= j <= m <= |b|
    ensures b[..m][i..j] == b[i..j]
  {
  }

  lemma {:induction false} SplitFlatten(records: seq<seq<Byte>>, size: nat)
    requires size > 0 && AllSized(records, size)
    ensures SplitRecords(Flatten(records), size) == records
  {
    if records == [] {
    } else {
      var init, last := records[..|records| - 1], records[|records| - 1];
      SplitFlatten(init, size);
      var b := Flatten(records);
      assert b[..|b| - size] == Flatten(init) && b[|b| - size..] == last;
    }
  }
}
