/** Results shared by every component. The service layer and the persistence layer of the server
    each have an error enumeration; they are connected one to one (a constraint violation is a
    `Conflict`, a missing row is `NotFound`), so one enumeration stands for both. */
module Outcomes {

  datatype Option<+T> = None | Some(value: T)

  datatype ServiceError = NotFound | Conflict | Forbidden | InternalError

  /** `std::expected<T, ServiceError>`, usable with `:-`. */
  datatype Result<+T> = Ok(value: T) | Err(error: ServiceError) {

    predicate IsFailure() {
      Err?
    }

    function PropagateFailure<U>(): Result<U>
      requires Err?
    {
      Err(error)
    }

    function Extract(): T
      requires Ok?
    {
      value
    }
  }

  /** A witness for choosing an element of a set. */
  lemma SomeElement<T>(s: set<T>) returns (x: T)
    requires s != {}
    ensures x in s
  {
    if y :| y in s {
      x := y;
    } else {
      assert false;
    }
  }
}
