/** Java-side outcomes: exceptions a call can end with, and the usual
    Option/Result wrappers the rest of the model returns instead of throwing. */
module Outcomes {

  /** The exception kinds the modelled code can raise or propagate. */
  datatype Exception =
    | IOException          // closed stream, or a StreamMap failure (id limit, bad or free id)
    | IllegalArgument      // busy or unbound stream port
    | IllegalState         // ArrayBlockingQueue.add on a full queue
    | IndexOutOfBounds     // array or buffer index outside its bounds
    | BufferUnderflow      // ByteBuffer.get of more bytes than remain
    | NullPointer          // null byte array handed to a write

  datatype Result<T> = Ok(value: T) | Thrown(exc: Exception)

  datatype Option<T> = None | Some(value: T)
}
