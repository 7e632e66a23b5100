/** Failure-compatible wrappers shared by every module of the model.
    A Python exception that aborts the caller becomes a `Failure`; a value
    the source may legitimately be without (`None`) becomes an `Option`. */
module Results {

  datatype Option<+T> = None | Some(value: T) {
    predicate IsFailure() { None? }

    function PropagateFailure<U>(): Option<U>
      requires None?
    {
      None
    }

    function Extract(): T
      requires Some?
    {
      value
    }

    function GetOr(default: T): T {
      match this
      case Some(v) => v
      case None => default
    }
  }

  /** The exceptions the modelled Python code can raise; each comment
      names the Python exception the kind stands for. */
  datatype Error =
    | MissingObservation(uuid: string)   // AssertionError: `check_sim_obs` finds no buffer
    | KeyMissing(key: string)            // KeyError: subscripting a dict without the key
    | NotSubscriptable                   // TypeError: subscripting a value that is not a container
    | NotIterable                        // TypeError: iterating a scalar
    | IndexOutOfRange                    // IndexError: indexing past either end of a list or tensor
    | NotConvertible                     // TypeError (or ValueError): `float(v)` refuses the value
    | ZeroDivision                       // ZeroDivisionError: `//` or `%` by zero
    | TemplateNotFound(path: string)     // AssertionError: the template loader registers nothing
    | UndefinedName(name: string)        // NameError: a name the code uses but never defines
    | MultiAgentUnsupported(agent: int)  // AssertionError of `get_agent_state`; for `set_agent_state`
                                         // the engine's `get_agent` may raise IndexError first
    | DegenerateDepthRange               // no exception: 0/0 in depth normalisation yields NaN
    | InactiveMode(mode: string)         // AssertionError: `render` asked for a mode no sensor provides
    | UnexpectedBuffer(uuid: string)     // no check in the source: a buffer of another sensor's
                                         // type under this uuid, which the numpy code would
                                         // mis-handle; the model refuses it

  datatype Result<+T> = Success(value: T) | Failure(error: Error) {
    predicate IsFailure() { Failure? }

    function PropagateFailure<U>(): Result<U>
      requires Failure?
    {
      Failure(error)
    }

    function Extract(): T
      requires Success?
    {
      value
    }
  }
}
