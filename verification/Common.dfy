/** Declarations that several models share. */
module Common {

  const NUL: char := 0 as char

  datatype Option<+T> = None | Some(value: T)

  /** How a library call ends: it returns, or err_dump ends the process. */
  datatype Outcome<+T> = Returned(value: T) | Died

  function Min(a: int, b: int): int {
    if a < b then a else b
  }

  /** One more index, which may or may not be among those counted */
  lemma OneIndex(before: set<int>, now: set<int>, n: int, last: bool)
    requires n !in before && before <= now <= before + {n} && (n in now <==> last)
    ensures |now| == |before| + if last then 1 else 0
  {
    if last {
      assert now == before + {n};
    } else {
      assert now == before;
    }
  }

  ghost predicate NoRepeat(s: seq<int>) {
    forall i, j | 0 <= i < j < |s| :: s[i] != s[j]
  }
}
