/** The Option type that stands for Rust's `Option<T>` in every day's model, and a sequence fact. */
module Wrappers {

  datatype Option<+T> = None | Some(value: T)
  {
    /** Rust's `unwrap_or`. */
    function UnwrapOr(default: T): T
    {
      match this
      case Some(v) => v
      case None => default
    }
  }

  /**
   * `f` applied to every element, or `None` as soon as one application is
   * `None`: how a `collect` of `Option`s, or a loop that gives up on the
   * first bad element, behaves.
   */
  function Traverse<A, B>(f: A -> Option<B>, xs: seq<A>): (r: Option<seq<B>>)
    ensures r.Some? <==> forall i :: 0 <= i < |xs| ==> f(xs[i]).Some?
    ensures r.Some? ==> |r.value| == |xs| && forall i :: 0 <= i < |xs| ==> f(xs[i]) == Some(r.value[i])
  {
    if xs == [] then Some([])
    else
      var front := Traverse(f, xs[..|xs| - 1]);
      var last := f(xs[|xs| - 1]);
      if front.Some? && last.Some? then Some(front.value + [last.value]) else None
  }

  /** Taking a prefix of a one-longer prefix: the step every prefix-summing loop needs. */
  lemma TakeTake<T>(s: seq<T>, i: nat)
    requires i < |s|
    ensures s[..i + 1][..i] == s[..i]
    ensures s[..i + 1] == s[..i] + [s[i]]
  {
  }
}
