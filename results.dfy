/** Result and Option values for the exporter's error returns and runtime panics. */
module Results {

  datatype Option<+T> = None | Some(value: T)

  datatype Result<+T, +E> = Ok(value: T) | Err(error: E)

  /** Puts `prefix` in front of the list carried by `r`; an error passes through untouched. */
  function Prepend<T, E>(prefix: seq<T>, r: Result<seq<T>, E>): (p: Result<seq<T>, E>)
    ensures p.Ok? <==> r.Ok?
    ensures p.Ok? ==> |p.value| == |prefix| + |r.value|
    ensures p.Ok? ==> p.value[..|prefix|] == prefix && p.value[|prefix|..] == r.value
    ensures p.Err? ==> p == r
  {
    match r
    case Ok(xs) => Ok(prefix + xs)
    case Err(e) => Err(e)
  }

  lemma PrependAppend<T, E>(a: seq<T>, b: seq<T>, r: Result<seq<T>, E>)
    ensures Prepend(a, Prepend(b, r)) == Prepend(a + b, r)
  {
    if r.Ok? {
      assert a + (b + r.value) == (a + b) + r.value;
    }
  }
}
