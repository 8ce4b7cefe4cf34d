/** Shared vocabulary: bytes (operating-system strings are byte strings in this
    model), an Option and a Result datatype. */
module Common {

  /** One byte of an operating-system string or of a file. */
  newtype byte = b: int | 0 <= b < 256

  /** Command-line tokens, option names, paths, environment values and file
      lines are all byte strings. */
  type Bytes = seq<byte>

  datatype Option<+T> = None | Some(value: T)

  datatype Result<+T, +E> = Ok(value: T) | Err(error: E)

  /** The bytes of an ASCII string literal (used for the few fixed names). */
  function Ascii(s: string): (r: Bytes)
    ensures |r| == |s|
    ensures forall i :: 0 <= i < |s| ==> r[i] as int == s[i] as int % 256
  {
    seq(|s|, i requires 0 <= i < |s| => (s[i] as int % 256) as byte)
  }

  /** The last element of a non-empty sequence. */
  function Last<T>(s: seq<T>): T
    requires |s| > 0
  {
    s[|s| - 1]
  }
}
