// The helpers every component shares.
module Wrappers {
  datatype Option<+T> = None | Some(value: T)

  /** Two heads of one list are nested. */
  lemma HeadsAreNested<T>(a: seq<T>, b: seq<T>, t: seq<T>)
    requires a <= t && b <= t
    ensures a <= b || b <= a
  {
    if |a| <= |b| {
      assert a == t[..|a|] == b[..|a|];
    } else {
      assert b == t[..|b|] == a[..|b|];
    }
  }
}
