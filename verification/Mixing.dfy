/** A sequence while it is being overwritten element by element. */
module Mixing {

  /** The first `k` entries of `now`, the rest still of `before`. */
  function Mixed<T>(now: seq<T>, before: seq<T>, k: nat): seq<T>
    requires k <= |now| == |before|
  {
    now[..k] + before[k..]
  }

  lemma MixedStep<T>(now: seq<T>, before: seq<T>, k: nat)
    requires k < |now| == |before|
    ensures Mixed(now, before, k)[k := now[k]] == Mixed(now, before, k + 1)
  {
  }

  lemma MixedEnds<T>(now: seq<T>, before: seq<T>)
    requires |now| == |before|
    ensures Mixed(now, before, 0) == before && Mixed(now, before, |now|) == now
  {
  }

  lemma PrefixStep<T>(s: seq<T>, k: nat)
    requires k < |s|
    ensures s[..k] + [s[k]] == s[..k + 1]
  {
  }
}
