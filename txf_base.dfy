/** Shared result and error types of the TXF parser model. */
module TxfBase {

  datatype Option<+T> = None | Some(value: T)

  datatype Result<+T, +E> = Ok(value: T) | Err(error: E)

  /** The three blocks whose length is declared by a count written before them. */
  datatype Block = Coords | Semantics | Objects

  /**
   * The failures raised by the parse actions and the object constructor.
   * They abort the whole parse: no alternative is tried after one of them.
   */
  datatype Failure =
    | CountMismatch(block: Block, declared: nat, actual: nat)  // a declared count differs
    | MissingKey                                               // no `.KEY` entry (a lookup failure)
    | KeyNotInteger(text: string)                              // the `.KEY` text is not an integer
}
