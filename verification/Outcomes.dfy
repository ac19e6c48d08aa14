/** The two failure-compatible types the model uses: a lookup that may find
    nothing, and an operation the program may refuse with an exception. */
module Outcomes {

  type Byte = x: int | 0 <= x < 256

  /** The characters, by code point, that the library's `strip` removes. */
  predicate Whitespace(c: int) {
    || 0x09 <= c <= 0x0D || 0x1C <= c <= 0x20 || c in {0x85, 0xA0, 0x1680, 0x2028, 0x2029, 0x202F, 0x205F, 0x3000}
    || 0x2000 <= c <= 0x200A
  }

  datatype Option<+T> = None | Some(value: T)

  /** Rejected stands for a ValidationError, ConflictError or integrity error
      that unwinds the caller's transaction. */
  datatype Result<+T> = Ok(value: T) | Rejected {
    predicate IsFailure() {
      Rejected?
    }

    function PropagateFailure<U>(): Result<U>
      requires Rejected?
    {
      Rejected
    }

    function Extract(): T
      requires Ok?
    {
      value
    }
  }

  datatype Guard = Pass | Refuse {
    predicate IsFailure() {
      Refuse?
    }

    function PropagateFailure<U>(): Result<U>
      requires Refuse?
    {
      Rejected
    }
  }

  /** `:- Check(c)` refuses unless c holds. */
  function Check(condition: bool): Guard {
    if condition then Pass else Refuse
  }
}
