/**
 * Ordered fallback chains: the first present value among candidates,
 * the explicit form of a chain of `??` operators.
 */
module Precedence {
  import opened MatchTypes

  /** The first `Some` of `candidates`, or `None` when every candidate is absent. */
  function FirstPresent<T>(candidates: seq<Option<T>>): (r: Option<T>)
    ensures r.None? <==> forall i :: 0 <= i < |candidates| ==> candidates[i].None?
    ensures r.Some? ==> exists i :: 0 <= i < |candidates| && candidates[i] == r
                                    && forall j :: 0 <= j < i ==> candidates[j].None?
  {
    if |candidates| == 0 then None
    else if candidates[0].Some? then candidates[0]
    else
      var rest := FirstPresent(candidates[1..]);
      assert rest.Some? ==> exists i :: 1 <= i < |candidates| && candidates[i] == rest
                                        && forall j :: 0 <= j < i ==> candidates[j].None? by {
        if rest.Some? {
          var k :| 0 <= k < |candidates[1..]| && candidates[1..][k] == rest
                   && forall j :: 0 <= j < k ==> candidates[1..][j].None?;
          assert candidates[k + 1] == rest;
          forall j | 0 <= j < k + 1 ensures candidates[j].None? {
            if j > 0 { assert candidates[j] == candidates[1..][j - 1]; }
          }
        }
      }
      rest
  }

  /** `a ?? b` where both sides may be absent. */
  function Coalesce<T>(a: Option<T>, b: Option<T>): (r: Option<T>)
    ensures a.Some? ==> r == a
    ensures a.None? ==> r == b
  {
    if a.Some? then a else b
  }

  /** `a ?? b ?? fallback`: a two-level chain that ends in a value that is always there. */
  function Pick<T>(a: Option<T>, b: Option<T>, fallback: T): (r: T)
    ensures a.Some? ==> r == a.value
    ensures a.None? && b.Some? ==> r == b.value
    ensures a.None? && b.None? ==> r == fallback
  {
    Coalesce(a, b).GetOr(fallback)
  }
}
