/** Shared vocabulary of both backends: optional values, results, and the
    faults the interpreter raises (every fault is fatal to the run). */
module Base {

  datatype Option<+T> = None | Some(value: T)

  datatype Result<+T, +E> = Ok(value: T) | Err(error: E) {
    predicate IsFailure() { Err? }

    function PropagateFailure<U>(): Result<U, E>
      requires Err?
    {
      Err(error)
    }

    function Extract(): T
      requires Ok?
    {
      value
    }
  }

  /** The exceptions raised by the interpreter, one constructor per message. */
  datatype Fault =
    | UnknownClass(className: string)          // "Nieznana klasa"
    | UnknownSuperclass(className: string)     // "Brak klasy bazowej"
    | UnknownVariable(varName: string)         // "Nieznana zmienna"
    | UnknownObject(objName: string)           // "Nieznany obiekt"
    | UnknownAttribute(attrName: string)       // get_attr / set_attr failures
    | UnknownMethod(objName: string, methodName: string)
    | SelfOutsideMethod                        // "self" with no current instance
    | UnknownOperator(op: string)              // arithmetic or comparison operator
    | TypeMismatch(op: string)                 // Python TypeError on mixed operands
    | ZeroDivision                             // Python ZeroDivisionError
    | HostError(what: string)                  // a Python error the code does not raise itself
    | Unmodelled(what: string)                 // floats and string formatting
    | OutOfFuel                                // the bound standing in for non-termination
    | NoFreshInstance                          // the reference semantics ran out of new instances

  type Outcome = Result<(), Fault>
}
