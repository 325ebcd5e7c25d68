/** What the models of concurrent objects share: calls in progress, one step of which is one atomic
    operation of the code. */
module Common {
  type CallId = nat

  function Min(a: int, b: int): int { if a < b then a else b }

  function One(b: bool): nat { if b then 1 else 0 }

  /** The two states differ in where the call `c` stands, and in no other call. */
  ghost predicate OnlyCall<P>(s: map<CallId, P>, t: map<CallId, P>, c: CallId) {
    forall d | d != c :: (d in s <==> d in t) && (d in s ==> s[d] == t[d])
  }

  lemma Without(a: set<CallId>, c: CallId)
    ensures |a| == |a - {c}| + One(c in a)
  {
    if c !in a { assert a - {c} == a; }
  }
}
