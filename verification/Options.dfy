// Values a JavaScript property or lookup can hold, shared by every component.
module Options {

  datatype Option<+T> = None | Some(value: T)

  /** A property of a JavaScript object: missing (or undefined), null, or holding a value. */
  datatype Field<+T> = Absent | Null | Present(value: T) {

    /** `x ?? null`: a missing property and a null one compare equal. */
    function OrNull(): Option<T> {
      if Present? then Some(value) else None
    }
  }

  /** `x || ''` for a property that holds a string. */
  function OrEmpty(f: Field<string>): string {
    if f.Present? then f.value else ""
  }
}
