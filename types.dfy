/** Values shared by the image pipeline: bytes, colours, optional and failing results,
    and the .NET exceptions the modelled code throws or passes on. */
module Types {

  newtype byte = x: int | 0 <= x < 256

  type Bytes = seq<byte>

  /** Unity's `Color32`: four 8-bit channels. */
  datatype Color32 = Color32(r: byte, g: byte, b: byte, a: byte)

  /** `new Color32(0, 0, 0, 0)`, the colour every animation buffer starts from. */
  const Transparent: Color32 := Color32(0, 0, 0, 0)

  /** A C# reference or nullable value: `None` stands for `null`. */
  datatype Option<+T> = None | Some(value: T)

  datatype Result<+T, +E> = Ok(value: T) | Err(error: E)

  /** The exceptions that reach the modelled code. */
  datatype Exception =
    | ArgumentNull(paramName: string)        // ArgumentNullException(nameof(...))
    | ArgumentOutOfRange(paramName: string)  // String.Substring with a negative length
    | InvalidImage                           // the Bitmap decoder refused the bytes
    | Thrown(message: Option<string>)        // any other exception; its Message may be null

  /** `e.Message`. The wording .NET gives its own exceptions is not modelled: they are named by type. */
  function Message(e: Exception): Option<string>
  {
    match e
    case ArgumentNull(_) => Some("ArgumentNullException")
    case ArgumentOutOfRange(_) => Some("ArgumentOutOfRangeException")
    case InvalidImage => Some("ArgumentException")
    case Thrown(message) => message
  }
}
