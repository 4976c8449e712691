/** The optional value used throughout for the source's nil pointers, SQL NULLs and failed lookups. */
module Options {
  datatype Option<+T> = None | Some(value: T)

  /** A set that is not empty has a member. */
  lemma SomeMember<T>(s: set<T>) returns (x: T)
    requires s != {}
    ensures x in s
  {
    x :| x in s;
  }

  lemma SmallerSet<T>(a: set<T>, b: set<T>)
    requires a <= b
    ensures |a| <= |b|
  {
    if a != {} {
      var x := SomeMember(a);
      SmallerSet(a - {x}, b - {x});
    }
  }
}
