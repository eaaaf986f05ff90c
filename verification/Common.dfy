/** The optional value, result and byte types and the row lookup that modules of the model share. */
module Common {

  datatype Option<+T> = None | Some(value: T)

  /** `Rejected` stands for the source raising its protocol or validation exception. */
  datatype Result<+T> = Ok(value: T) | Rejected {
    predicate IsFailure() {
      Rejected?
    }

    function PropagateFailure<U>(): Result<U>
      requires Rejected?
    {
      Rejected
    }

    function Extract(): T
      requires Ok?
    {
      value
    }
  }

  /** The first row a query matches. */
  function Find<T>(rows: seq<T>, matches: T -> bool): (r: Option<T>)
    ensures r.Some? ==> r.value in rows && matches(r.value)
    ensures r.None? ==> forall row :: row in rows ==> !matches(row)
  {
    if rows == [] then None else if matches(rows[0]) then Some(rows[0]) else Find(rows[1..], matches)
  }

  type Byte = x: int | 0 <= x < 256

  /** The error numbers that evidence admits. */
  type ErrorNumber = n: int | 0 <= n <= 4095

  /** The error number of an exception, if it has one that evidence admits. */
  function Bounded(raw: Option<int>): (r: Option<ErrorNumber>)
    ensures r.Some? ==> raw == Some(r.value)
  {
    if raw.Some? && 0 <= raw.value <= 4095 then Some(raw.value) else None
  }

  /** The most adopted descendants that are ever counted. */
  const MAX_ADOPTED := 4096
}
