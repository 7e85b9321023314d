/**
 * The DAQ-to-readout wiring as a pair of tables over the channels [0, n): a
 * forward table from DAQ channel to readout channel and an inverse table back.
 * The readout object only keeps the forward direction as its invariant; this
 * module proves that the inverse table is then also undone by the forward one,
 * so the two tables form a bijection of [0, n).
 */
module ChannelMap {
  import opened Unsigned

  /** `inv` undoes `fwd`: every DAQ channel maps to a readout channel below `n`, which maps back to it. */
  ghost predicate InvertsForward(fwd: seq<u32>, inv: seq<u32>, n: nat)
  {
    && |fwd| == n
    && |inv| == n
    && forall i :: 0 <= i < n ==> fwd[i] < n && inv[fwd[i]] == i
  }

  /** The two tables are mutually inverse permutations of [0, n). */
  ghost predicate IsBijection(fwd: seq<u32>, inv: seq<u32>, n: nat)
  {
    && InvertsForward(fwd, inv, n)
    && forall j :: 0 <= j < n ==> inv[j] < n && fwd[inv[j]] == j
  }

  /** The readout channels reached by the first `k` DAQ channels. */
  ghost function Image(fwd: seq<u32>, k: nat): set<int>
    requires k <= |fwd|
  {
    set i | 0 <= i < k :: fwd[i] as int
  }

  /** The channel numbers [0, n), built one channel at a time. */
  ghost function Below(n: nat): (s: set<int>)
    ensures forall j :: j in s <==> 0 <= j < n
    ensures |s| == n
  {
    if n == 0 then {} else Below(n - 1) + {n - 1}
  }

  /** A forward table with an inverse never sends two DAQ channels to one readout channel. */
  lemma {:induction false} ImageSize(fwd: seq<u32>, inv: seq<u32>, n: nat, k: nat)
    requires InvertsForward(fwd, inv, n) && k <= n
    ensures |Image(fwd, k)| == k
  {
    if k > 0 {
      ImageSize(fwd, inv, n, k - 1);
      assert Image(fwd, k) == Image(fwd, k - 1) + {fwd[k - 1] as int};
      assert fwd[k - 1] as int !in Image(fwd, k - 1);
    }
  }

  /** Every readout channel below `n` is reached by some DAQ channel. */
  lemma ForwardIsOnto(fwd: seq<u32>, inv: seq<u32>, n: nat)
    requires InvertsForward(fwd, inv, n)
    ensures Image(fwd, n) == Below(n)
  {
    var image, all := Image(fwd, n), Below(n);
    ImageSize(fwd, inv, n, n);
    assert image <= all;
    assert all * image == image;
    assert |all - image| == 0;
  }

  /** The one-directional invariant already makes the two tables a bijection of [0, n). */
  lemma InvertsForwardIsBijection(fwd: seq<u32>, inv: seq<u32>, n: nat)
    requires InvertsForward(fwd, inv, n)
    ensures IsBijection(fwd, inv, n)
  {
    ForwardIsOnto(fwd, inv, n);
    forall j | 0 <= j < n
      ensures inv[j] < n && fwd[inv[j]] == j
    {
      assert j in Image(fwd, n);
      var i :| 0 <= i < n && fwd[i] as int == j;
      assert inv[fwd[i]] == i;
    }
  }

  /** The bijection, for callers that only know the invariant may hold. */
  lemma BijectionWhenInverted(fwd: seq<u32>, inv: seq<u32>, n: nat)
    ensures InvertsForward(fwd, inv, n) ==> IsBijection(fwd, inv, n)
  {
    if InvertsForward(fwd, inv, n) {
      InvertsForwardIsBijection(fwd, inv, n);
    }
  }
}
