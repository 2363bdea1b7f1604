/** Shared by the models: an absent value, a call that raises, and the powers of two by which retries back off. */
module Wrappers {

  datatype Option<+T> = None | Some(value: T)

  /** `Raised` is any exception the source lets escape; the enclosing transaction is rolled back. */
  datatype Result<+T> = Raised | Ok(value: T)

  function PowerOfTwo(n: nat): nat {
    if n == 0 then 1 else 2 * PowerOfTwo(n - 1)
  }

  lemma Pick<T>(values: set<T>) returns (v: T)
    requires values != {}
    ensures v in values
  {
    v :| v in values;
  }
}
