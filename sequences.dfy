/** Mapping a partial per-element step over a list, failing as a whole on the
    first element that fails: the shape of the RSS and RDF item loops, whose
    hard failures abort the entire parse. */
module Sequences {
  import opened Wrappers

  function CollectAll<A, B>(xs: seq<A>, f: A -> Option<B>): (r: Option<seq<B>>)
    ensures r.None? <==> exists k :: 0 <= k < |xs| && f(xs[k]).None?
    ensures r.Some? ==> |r.value| == |xs| && forall k :: 0 <= k < |xs| ==> f(xs[k]) == Some(r.value[k])
  {
    if xs == [] then Some([])
    else
      match f(xs[0])
      case None => None
      case Some(y) =>
        match CollectAll(xs[1..], f)
        case None => None
        case Some(ys) => Some([y] + ys)
  }
}
