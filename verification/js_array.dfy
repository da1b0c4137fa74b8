/** The one array operation the role check relies on. */
module JsArray {

  /** `Array.prototype.includes`: a scan from the front comparing each element
      with `x`. For strings SameValueZero is plain equality. */
  function Includes<T(==)>(xs: seq<T>, x: T): (found: bool)
    ensures found <==> x in xs
  {
    if xs == [] then false
    else xs[0] == x || Includes(xs[1..], x)
  }

  /** `h` is `older` with zero or more elements put in front of it, which is how
      `[entry, ...h]` grows a list. */
  predicate PrependedTo<T(==)>(h: seq<T>, older: seq<T>)
  {
    |older| <= |h| && h[|h| - |older|..] == older
  }

  lemma PrependedTrans<T>(a: seq<T>, b: seq<T>, c: seq<T>)
    requires PrependedTo(a, b) && PrependedTo(b, c)
    ensures PrependedTo(a, c)
  {
    assert a[|a| - |c|..] == a[|a| - |b|..][|b| - |c|..];
  }

}
