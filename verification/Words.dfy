/** 32-bit machine words as their bits, most significant first, with the C operators the checksum uses. */
module Words {

  type Word = s: seq<bool> | |s| == 32 witness seq(32, _ => false)

  function Zeros(): Word {
    seq(32, _ => false)
  }

  /** 0xFFFFFFFF */
  function Ones(): Word {
    seq(32, _ => true)
  }

  /** The word with only bit `k` from the top set: `(1 << 31) >> k`. */
  function OneHot(k: nat): Word {
    seq(32, i requires 0 <= i < 32 => i == k)
  }

  /** `a ^ b` */
  function Xor(a: seq<bool>, b: seq<bool>): (r: seq<bool>)
    requires |a| == |b|
    ensures |r| == |a|
  {
    seq(|a|, i requires 0 <= i < |a| => a[i] != b[i])
  }

  /** `w << 1` */
  function ShiftUp(w: Word): Word {
    w[1..] + [false]
  }

  /** `w >> 1` */
  function ShiftDown(w: Word): Word {
    [false] + w[..31]
  }

  /** `a & b` used as a condition */
  predicate Meet(a: Word, b: Word) {
    exists i :: 0 <= i < 32 && a[i] && b[i]
  }

  /** The number that the first `n` bits stand for. */
  function Value(bits: seq<bool>, n: nat): nat
    requires n <= |bits|
  {
    if n == 0 then 0 else 2 * Value(bits, n - 1) + if bits[n - 1] then 1 else 0
  }

  lemma XorIsZero(c: Word, w: Word)
    ensures Xor(c, w) == Zeros() <==> c == w
  {
    if Xor(c, w) == Zeros() {
      forall k | 0 <= k < 32 ensures c[k] == w[k] {
        assert Xor(c, w)[k] == Zeros()[k];
      }
    }
  }
}
