/** The 16-word circular schedule that the SHA-1 and SHA-256 code keeps: w[t & 15] holds word t. */
module CircularBuffer {

  /** Before step n the buffer holds the last sixteen schedule words, each at its index mod 16. */
  ghost predicate Holds(w: seq<bv32>, schedule: nat -> bv32, n: nat)
    requires |w| == 16
  {
    forall t: nat :: t < n <= t + 16 ==> w[t % 16] == schedule(t)
  }

  lemma SlotsDiffer(t: nat, i: nat)
    requires t < i < t + 16
    ensures t % 16 != i % 16
  {
  }

  /** Word i takes the place of word i - 16. */
  lemma Put(w: seq<bv32>, schedule: nat -> bv32, i: nat)
    requires |w| == 16 && Holds(w, schedule, i)
    ensures Holds(w[i % 16 := schedule(i)], schedule, i + 1)
  {
    forall t: nat | t < i + 1 <= t + 16
      ensures w[i % 16 := schedule(i)][t % 16] == schedule(t)
    {
      if t < i {
        SlotsDiffer(t, i);
      }
    }
  }

  lemma Get(w: seq<bv32>, schedule: nat -> bv32, n: nat, t: nat)
    requires |w| == 16 && Holds(w, schedule, n) && t < n <= t + 16
    ensures w[t % 16] == schedule(t)
  {
  }

  /** Whatever is computed from four earlier words can be computed from their slots. */
  lemma GetFour(w: seq<bv32>, schedule: nat -> bv32, n: nat, mix: (bv32, bv32, bv32, bv32) -> bv32,
                p: nat, q: nat, r: nat, s: nat)
    requires |w| == 16 && Holds(w, schedule, n)
    requires p < n <= p + 16 && q < n <= q + 16 && r < n <= r + 16 && s < n <= s + 16
    ensures mix(w[p % 16], w[q % 16], w[r % 16], w[s % 16]) == mix(schedule(p), schedule(q), schedule(r), schedule(s))
  {
    Get(w, schedule, n, p);
    Get(w, schedule, n, q);
    Get(w, schedule, n, r);
    Get(w, schedule, n, s);
  }
}
