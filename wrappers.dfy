/** Option and Result values standing in for JavaScript's null/undefined and rejected promises. */
module Wrappers {

  datatype Option<+T> = None | Some(value: T)

  /** Why an operation of the data layer rejects. */
  datatype DbError =
    | ArgumentCount(given: nat)   // `new Error('Number of arguments requires is 2 but ...')`
    | NotFound(message: string)   // an explicit `throw new Error(...)` on a missing project
    | TypeError                   // reading a property of `undefined`
    | ConstraintError             // `add` of a key that the table already holds
    | SqlError                    // a WebSQL `executeSql` that reports an error

  datatype Result<+T> = Ok(value: T) | Err(error: DbError)
}
