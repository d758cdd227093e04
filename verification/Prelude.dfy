/** Datatypes and set facts shared by the models. */
module Prelude {
  datatype Option<+T> = None | Some(value: T)

  datatype Result<+T, +E> = Ok(value: T) | Err(error: E)

  /**
   What becomes of one piece of work on untrusted data: it succeeds; it raises one of the errors that careful callers
   expect (`ValueError`, `TypeError`, `KeyError`, `IndexError`); or it raises another one, such as an `ArithmeticError`.
   */
  datatype Attempt = Fine | Foreseen | Unforeseen

  /** What a check records: nothing if it passed, else this. */
  function Unless<T>(passed: bool, issue: T): set<T> { if passed then {} else {issue} }

  lemma UnlessMeans<T>(passed: bool, issue: T)
    ensures forall i :: i in Unless(passed, issue) <==> !passed && i == issue
  {}

  lemma SubsetCount<T>(a: set<T>, b: set<T>)
    requires a <= b
    ensures |a| <= |b|
  {
    assert b == a + (b - a);
  }

  lemma SetMember<T>(s: set<T>) returns (x: T)
    requires s != {}
    ensures x in s
  {
    x :| x in s;
  }
}
