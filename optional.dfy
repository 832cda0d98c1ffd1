/** A value that may be absent: a colour band that found no contour, or no key held. */
module Optional {

  datatype Option<+T> = None | Some(value: T)

  /** The list holding the value if there is one, and nothing otherwise. */
  function ToSeq<T>(o: Option<T>): (s: seq<T>)
    ensures |s| <= 1
    ensures o.None? <==> s == []
    ensures o.Some? ==> s == [o.value]
  {
    match o
    case None => []
    case Some(v) => [v]
  }
}
