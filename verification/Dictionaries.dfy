/** Iterating over the keys of a dictionary, in whatever order. */
module Dictionaries {
  method AnyOf<T(==)>(s: set<T>) returns (x: T)
    requires s != {}
    ensures x in s
  {
    x :| x in s;
  }
}
