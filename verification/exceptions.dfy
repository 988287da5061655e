/** The Python exceptions the modelled code raises or catches, by class. */
module Exceptions {

  /** `ValueError` and `RuntimeError` each stand for the whole class, subclasses included
      (`UnicodeDecodeError` is a `ValueError`, `NotImplementedError` and a framework's
      out-of-memory error are `RuntimeError`s); `OtherError` covers only classes outside
      both hierarchies. */
  datatype Exc =
    | ValueError(message: string)
    | RuntimeError(message: string)
    /** numpy's out-of-bounds index: `index` is the offending index, `size` the axis length */
    | IndexError(index: nat, size: nat)
    /** any class that is neither a `ValueError` nor a `RuntimeError`, named by `name` */
    | OtherError(name: string, message: string)
  {
    /** True for what `except (ValueError, RuntimeError)` catches: both classes and their
        subclasses. */
    predicate IsValueOrRuntime() {
      ValueError? || RuntimeError?
    }
  }
}
