/** Optional values and results with an error, used across the model. */
module Wrappers {

  /** A value that may be absent; `None` stands for C#'s `null`. */
  datatype Option<+T> = None | Some(value: T) {
    function GetOr(default: T): T {
      match this
      case Some(v) => v
      case None => default
    }
  }

  /** The value of an operation, or the exception it would throw. */
  datatype Result<+R, +E> = Success(value: R) | Failure(error: E)
}

/** Small counting helpers shared by the limiter and the metrics proofs. */
module Counting {

  function Min(a: int, b: int): int { if a <= b then a else b }

  function Max(a: int, b: int): int { if a <= b then b else a }

  /** Number of positions of `s` that hold `x`. */
  function Occurrences<T(==)>(s: seq<T>, x: T): (n: nat)
    ensures n <= |s|
  {
    if |s| == 0 then 0
    else Occurrences(s[..|s| - 1], x) + (if s[|s| - 1] == x then 1 else 0)
  }

  /** Number of `true` entries of `bs`. */
  function TrueCount(bs: seq<bool>): (n: nat)
    ensures n <= |bs|
  {
    if |bs| == 0 then 0
    else TrueCount(bs[..|bs| - 1]) + (if bs[|bs| - 1] then 1 else 0)
  }

  /** For a sequence without repetitions, an element occurs once and a non-element never. */
  lemma {:induction false} OccurrencesOfDistinct<T>(s: seq<T>, x: T)
    requires forall i, j :: 0 <= i < j < |s| ==> s[i] != s[j]
    ensures Occurrences(s, x) == if x in s then 1 else 0
  {
    if |s| > 0 {
      var init := s[..|s| - 1];
      OccurrencesOfDistinct(init, x);
      assert s == init + [s[|s| - 1]];
      if s[|s| - 1] == x {
        assert x !in init by {
          forall i | 0 <= i < |init| ensures init[i] != x {
            assert s[i] != s[|s| - 1];
          }
        }
      }
    }
  }
}
