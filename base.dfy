/** Values shared by every part of the archive writer: bytes, optional and
    fallible results, the two ways an I/O operation can fail, and the two ways
    a reader or an entry stream can end. */
module Base {

  newtype byte = x: int | 0 <= x < 256

  /** A byte string (the source's `BStr`/`BString`, and `Vec<u8>` contents). */
  type Bytes = seq<byte>

  datatype Option<+T> = None | Some(value: T)

  datatype Result<+T, +E> = Ok(value: T) | Err(error: E)

  /** The `std::io::Error`s this core can meet: reading a source failed, or
      the output sink refused a write. */
  datatype IoError = ReadFailed | WriteFailed

  /** How a reader or an entry stream behaves once it has produced everything
      it holds: it reports a clean end, or it fails. */
  datatype Ending = Clean | Fails

  /** Concatenation regroups freely; stated over an arbitrary element type so
      that using it never unfolds the elements. */
  lemma AppendAssoc<T>(a: seq<T>, b: seq<T>, c: seq<T>)
    ensures a + (b + c) == (a + b) + c
  {
  }

  lemma AppendEmpty<T>(a: seq<T>)
    ensures a + [] == a
  {
  }
}
