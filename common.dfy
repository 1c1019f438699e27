/** Small value types shared by the rendering and registration modules. */
module Common {

  /** A C# reference that may be null: `None` stands for null. */
  datatype Option<+T> = None | Some(value: T)

  /** IRequestData, reduced to the one question the render strategies ask of it:
      whether the current request was issued by script (an "ajax" request). How
      the host decides that from the request headers is not part of this model. */
  datatype RequestData = RequestData(isAjaxRequest: bool)

  /** Number of occurrences of `x` in `s`. */
  function Count<T(==)>(s: seq<T>, x: T): nat
  {
    if s == [] then 0 else (if s[0] == x then 1 else 0) + Count(s[1..], x)
  }
}
