/** Small helpers over the built-in collections. */
module Collections {

  // Some element of a non-empty set: the order in which a map is ranged over is not fixed.
  method PickAny<T>(s: set<T>) returns (x: T)
    requires s != {}
    ensures x in s
  {
    x :| x in s;
  }

  ghost function Pick<T>(s: set<T>): (x: T)
    requires s != {}
    ensures x in s
  {
    var x :| x in s;
    x
  }
}
