/** Small value wrappers shared by the analytics modules. */
module Common {

  /** A nullable column or an absent row. */
  datatype Option<+T> = None | Some(value: T)

  /** The exceptions the analytics code can raise on its own. */
  datatype Error = ZeroDivisionError

  /** The value a call returns, or the exception it raises. */
  datatype Result<+T> = Ok(value: T) | Err(error: Error)

  /** How many elements of `s` satisfy `p`; Python's `sum(1 for x in s if p(x))`. */
  function Count<T>(s: seq<T>, p: T -> bool): (n: nat)
    ensures n <= |s|
    ensures n == 0 <==> forall i :: 0 <= i < |s| ==> !p(s[i])
  {
    if s == [] then 0 else Count(s[..|s| - 1], p) + (if p(s[|s| - 1]) then 1 else 0)
  }

  /** Elements satisfying two exclusive predicates are counted at most once between them. */
  lemma {:induction false} CountExclusive<T>(s: seq<T>, p: T -> bool, q: T -> bool)
    requires forall i :: 0 <= i < |s| ==> !(p(s[i]) && q(s[i]))
    ensures Count(s, p) + Count(s, q) <= |s|
  {
    if s != [] {
      CountExclusive(s[..|s| - 1], p, q);
    }
  }
}
