/** Small shared vocabulary: an optional value, duplicate-free sequences and the last index of an element. */
module Base {

  datatype Option<+T> = None | Some(value: T)

  /** No element occurs twice in `s`. */
  predicate Distinct<T(==)>(s: seq<T>)
  {
    forall a, b | 0 <= a < b < |s| :: s[a] != s[b]
  }

  /** Index of the last occurrence of `x` in `s`, or -1 when there is none. */
  function LastIndex<T(==)>(s: seq<T>, x: T): (k: int)
    ensures -1 <= k < |s|
    ensures k == -1 <==> x !in s
    ensures k >= 0 ==> s[k] == x
    ensures forall m | k < m < |s| :: s[m] != x
    decreases |s|
  {
    if s == [] then -1
    else if s[|s| - 1] == x then |s| - 1
    else LastIndex(s[..|s| - 1], x)
  }
}
