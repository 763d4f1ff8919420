/**
 * Values shared by every handler of the notification server: an optional value
 * (a JavaScript `undefined`/`null` or a missing row), and the HTTP reply a
 * handler produces (a status code with either a JSON body or an error message).
 */
module Common {

  datatype Option<+T> = None | Some(value: T)

  /** An octet of a `Uint8Array`, `ArrayBuffer` or `Buffer`. */
  newtype Byte = b: int | 0 <= b < 256

  /** A call that either returns a value or throws an `Error` with a message. */
  datatype Result<+T> = Ok(value: T) | Thrown(message: string)

  /** The shape of every `new Response(JSON.stringify(...), { status })` the handlers build. */
  datatype Reply<+T> = Reply(status: int, body: Body<T>)

  /** `{ error: message }` bodies are errors; everything else is the handler's own payload. */
  datatype Body<+T> = Payload(value: T) | Error(message: string)

  function Fail<T>(status: int, message: string): Reply<T>
  {
    Reply(status, Error(message))
  }

  const UNAUTHORIZED := "Unauthorized"
  const INTERNAL_SERVER_ERROR := "Internal Server Error"

  /** JavaScript truthiness of an optional string: `undefined`, `null` and `""` are falsy. */
  predicate Truthy(s: Option<string>)
  {
    s.Some? && s.value != ""
  }
}
