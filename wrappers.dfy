/** Option and result types shared by the model. */
module Wrappers {

  datatype Option<+T> = None | Some(value: T)

  /** The Python exceptions the modelled code raises (and does not catch). */
  datatype Error =
    | ValueError      // a record text that does not match the header grammar
    | KeyError        // `set.remove` of an element the set does not hold
    | AttributeError  // `tuple.replace` inside `change_id`

  datatype Result<+T> = Ok(value: T) | Err(error: Error)
}
