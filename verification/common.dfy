/** Shared vocabulary of the model: C#'s 32-bit unsigned integer, optional
    values, results that may carry a fault, and duplicate-free sequences. */
module Common {

  /** Number of values of C#'s `uint`. */
  const UINT32_MODULUS: int := 0x1_0000_0000

  /** C#'s `uint`. */
  newtype uint32 = x: int | 0 <= x < UINT32_MODULUS

  /** Unchecked `uint` addition, as C# performs it by default: the sum wraps
      around modulo 2^32 instead of raising an error. */
  function AddWrap(a: uint32, b: uint32): (r: uint32)
    ensures a as int + b as int < UINT32_MODULUS ==> r as int == a as int + b as int
    ensures a as int + b as int >= UINT32_MODULUS ==> r as int == a as int + b as int - UINT32_MODULUS
  {
    ((a as int + b as int) % UINT32_MODULUS) as uint32
  }

  function Min(a: int, b: int): int { if a <= b then a else b }

  function Max(a: int, b: int): int { if a >= b then a else b }

  /** A value that may be absent: the C# `null` reference. */
  datatype Option<+T> = None | Some(value: T)

  /** Either a value or the fault that aborted the computation (a C# exception). */
  datatype Result<+T, +E> = Success(value: T) | Failure(error: E)

  /** No element occurs twice. */
  predicate NoDuplicates<T(==)>(s: seq<T>) {
    forall i, j :: 0 <= i < j < |s| ==> s[i] != s[j]
  }

  /** The elements of a sequence, as a set. */
  function Elements<T>(s: seq<T>): set<T> {
    set x | x in s
  }

  /** A duplicate-free sequence has as many elements as its set. */
  lemma {:induction false} DistinctLength<T>(s: seq<T>)
    requires NoDuplicates(s)
    ensures |Elements(s)| == |s|
  {
    if |s| > 0 {
      var tail := s[1..];
      assert NoDuplicates(tail) by {
        forall i, j | 0 <= i < j < |tail| ensures tail[i] != tail[j] {
          assert tail[i] == s[i + 1] && tail[j] == s[j + 1];
        }
      }
      DistinctLength(tail);
      assert Elements(s) == {s[0]} + Elements(tail) by {
        assert s == [s[0]] + tail;
      }
      assert s[0] !in Elements(tail) by {
        forall j | 0 <= j < |tail| ensures tail[j] != s[0] {
          assert tail[j] == s[j + 1];
        }
      }
    }
  }
}
