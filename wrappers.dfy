/** Small failure-carrying datatypes shared by the model. */
module Wrappers {

  /** A Java reference that may be null: `None` stands for `null`. */
  datatype Option<+T> = None | Some(value: T)

  /** The value a Java call returns, or the exception it throws. */
  datatype Result<+T, +E> = Ok(value: T) | Err(error: E)
}

/** The exceptions LibZFS raises, one constructor per throw site. */
module ZfsErrors {

  datatype ZfsError =
    | LinkageError                  // libzfs_init returned null
    | NullPointer(key: string)      // the ABI setting was read as null and dereferenced
    | CreateFailed(dataset: string) // zfs_create returned nonzero for an intermediate dataset
    | OpenFailed(errno: int)        // zfs_open returned null with a nonzero libzfs_errno
}
