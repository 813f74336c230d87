/** Option and error-return shapes shared by the decoder model. */
module Outcome {
  datatype Option<T> = None | Some(value: T)

  /** The negative error codes the modelled functions return. */
  datatype Error = InvalidData | NoMemory

  datatype Result<T> = Ok(value: T) | Err(error: Error)
}
