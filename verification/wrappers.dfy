/** An optional value for lookups and parsers that can come up empty. The
    three members below make it usable with `:-`: a `None` stops the
    computation and becomes its result. */
module Wrappers {

  datatype Option<+T> = None | Some(value: T) {

    /** An absent value ends a `:-` chain. */
    predicate IsFailure() {
      None?
    }

    /** The absent value, retyped as the result of the enclosing chain. */
    function PropagateFailure<U>(): Option<U>
      requires None?
    {
      None
    }

    /** The value a successful `:-` binds. */
    function Extract(): T
      requires Some?
    {
      value
    }
  }
}
