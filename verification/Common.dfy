/** Shared vocabulary of the daemon's model. */
module Common {

  datatype Option<+T> = None | Some(value: T)

  type byte = b: int | 0 <= b < 256

  /** Counters and epochs are 64-bit words. */
  const WORD: nat := 0x1_0000_0000_0000_0000

  /** A worker exits with this code after it has handed its work to an upgrade successor. */
  const UPGRADE_COMMIT_EXIT_CODE: int := 23

  /** Milliseconds since `from`, zero if the clock has not reached it. */
  function Elapsed(from: nat, to: nat): nat { if to >= from then to - from else 0 }

  function Pow2(k: nat): (p: nat)
    ensures p >= 1
  {
    if k == 0 then 1 else 2 * Pow2(k - 1)
  }

  lemma {:induction false} PowMonotone(a: nat, b: nat)
    requires a <= b
    ensures Pow2(a) <= Pow2(b)
    decreases b
  {
    if a < b { PowMonotone(a, b - 1); }
  }

  lemma Assoc<T>(a: seq<T>, b: seq<T>, c: seq<T>)
    ensures a + (b + c) == a + b + c
  {
  }
}
