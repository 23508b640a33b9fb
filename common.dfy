/** Small value types shared by every module of the model. */
module Common {

  /** A value that may be absent: JavaScript's `null`/`undefined`. */
  datatype Option<+T> = None | Some(value: T)

  /** The outcome of an operation that can throw: a value, or the error it threw. */
  datatype Result<+T, +E> = Ok(value: T) | Err(error: E)

  /** `s.includes(sub)` of JavaScript strings: `sub` occurs somewhere in `s`. */
  function Contains(s: string, sub: string): (c: bool)
    ensures sub == [] ==> c
    ensures |sub| > |s| ==> !c
  {
    assert sub == [] ==> OccursAt(s, sub, 0);
    exists k :: 0 <= k <= |s| && OccursAt(s, sub, k)
  }

  /** `sub` occurs in `s` starting at index `k`. */
  predicate OccursAt(s: string, sub: string, k: nat) {
    k + |sub| <= |s| && s[k..k + |sub|] == sub
  }

  /** Whatever surrounds it, a string contains each of its infixes. */
  lemma ContainsInfix(p: string, sub: string, q: string)
    ensures Contains(p + sub + q, sub)
  {
    var s := p + sub + q;
    assert OccursAt(s, sub, |p|);
  }
}
