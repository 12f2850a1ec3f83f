/**
 * What command handlers hand back to the terminal.
 */
module Values {

  /** A handler's return value: `null`, a string, or the image object
      `{isImage: true, src, alt}`. */
  datatype Value = Null | Text(text: string) | Image(src: string, alt: string)

  /** How a call to a handler ends: with a value, by throwing an error with
      the given message, or by returning a Promise (an `async` handler). */
  datatype Outcome = Returned(value: Value) | Threw(message: string) | Pending
}
