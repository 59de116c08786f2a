/** Optional values, used where the source returns `end()`, a null pointer or an out-flag, and the
    size of a subset.
 */
module Wrappers {

  datatype Option<+T> = None | Some(value: T)

  lemma {:induction false} SizeOfSubset<T>(a: set<T>, b: set<T>)
    requires a <= b
    ensures |a| <= |b|
    decreases a
  {
    if x :| x in a {
      SizeOfSubset(a - {x}, b - {x});
    }
  }
}
