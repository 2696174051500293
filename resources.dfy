/**
 * `createResource(promise)`: a memoising wrapper around one promise with a tri-state
 * `read()`. The JavaScript version throws the promise while loading and throws the
 * stored error after a rejection; here `Read` returns a tagged `ReadResult` instead.
 */
module Resources {
  import opened Options
  import opened Promises

  /** The closure's `status`: 'loading', 'success' and 'error'. */
  datatype Status = Loading | Success | Failure

  /** What `read()` does: return the value, signal "not ready yet", or raise the error. */
  datatype ReadResult<+T, +E> = Ready(value: T) | Pending | Failed(error: E)

  /** A status may stay as it is or leave `Loading`; nothing goes back to `Loading`. */
  predicate Advances(before: Status, after: Status) {
    before == after || before == Loading
  }

  class Resource<T, E> {
    /** How the wrapped promise settles; fixed once the promise exists. */
    ghost const outcome: Settled<T, E>

    var status: Status
    var result: Option<T>
    var error: Option<E>
    /** Continuations registered on the promise by reads while loading and not yet run. */
    var callbacks: nat

    /** The stored value or error is the promise's own outcome, and only the slot the status names is filled. */
    ghost predicate Valid()
      reads this
    {
      match status
      case Loading => result.None? && error.None?
      case Success => outcome.Fulfilled? && result == Some(outcome.value) && error.None?
      case Failure => outcome.Rejected? && error == Some(outcome.reason) && result.None?
    }

    constructor (ghost outcome: Settled<T, E>)
      ensures Valid() && this.outcome == outcome
      ensures status == Loading && result.None? && error.None? && callbacks == 0
    {
      this.outcome := outcome;
      status := Loading;
      result := None;
      error := None;
      callbacks := 0;
    }

    /** `read()`. While loading it registers one more continuation and signals `Pending`;
        once settled it returns the promise's value or its reason, every time, changing nothing. */
    method Read() returns (r: ReadResult<T, E>)
      requires Valid()
      modifies this`callbacks
      ensures Valid()
      ensures status == old(status) && result == old(result) && error == old(error)
      ensures status == Loading ==> r == Pending && callbacks == old(callbacks) + 1
      ensures status == Success ==> r == Ready(outcome.value) && callbacks == old(callbacks)
      ensures status == Failure ==> r == Failed(outcome.reason) && callbacks == old(callbacks)
    {
      if status == Loading {
        callbacks := callbacks + 1;
        r := Pending;
      } else if status == Success {
        r := Ready(result.value);
      } else {
        r := Failed(error.value);
      }
    }

    /** One registered continuation runs with the promise's outcome `o`. It moves the resource
        to `Success` or `Failure`; on an already settled resource it changes nothing but the count. */
    method Settle(o: Settled<T, E>)
      requires Valid() && o == outcome && callbacks > 0
      modifies this
      ensures Valid()
      ensures callbacks == old(callbacks) - 1
      ensures status != Loading && Advances(old(status), status)
      ensures o.Fulfilled? ==> status == Success && result == Some(o.value) && error == old(error)
      ensures o.Rejected? ==> status == Failure && error == Some(o.reason) && result == old(result)
      ensures old(status) != Loading ==>
        status == old(status) && result == old(result) && error == old(error)
    {
      callbacks := callbacks - 1;
      match o
      case Fulfilled(v) =>
        status := Success;
        result := Some(v);
      case Rejected(e) =>
        status := Failure;
        error := Some(e);
    }
  }
}
