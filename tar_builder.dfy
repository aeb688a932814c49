/** `tar::Builder` as the writer uses it: it appends members to its sink, one
    at a time, and writes the end-of-archive trailer once when finished. */
module TarBuilder {
  import opened Base
  import opened TarHeader
  import opened Output

  class Builder {
    const out: Writer
    var mode: HeaderMode
    var finished: bool

    /** `tar::Builder::new(out)`. */
    constructor (out: Writer)
      ensures this.out == out && mode == Complete && !finished
    {
      this.out := out;
      mode := Complete;
      finished := false;
    }

    /** `Builder::mode`. It only affects headers the builder derives from
        file-system metadata, which the writer never asks for. */
    method SetMode(m: HeaderMode)
      modifies this`mode
      ensures mode == m
    {
      mode := m;
    }

    /** `Builder::append_data`: one member with `data` as its body. */
    method AppendData(header: Header, path: Bytes, data: Bytes) returns (r: Result<(), IoError>)
      modifies out`archive
      ensures old(out.TakesItem()) ==> r == Ok(()) && out.archive == old(out.archive) + [Member(Data(header, path, data))]
      ensures !old(out.TakesItem()) ==> r == Err(WriteFailed) && out.archive == old(out.archive)
    {
      r := out.WriteItem(Member(Data(header, path, data)));
    }

    /** `Builder::append_link`: one member whose link target is `target`, with no body. */
    method AppendLink(header: Header, path: Bytes, target: Bytes) returns (r: Result<(), IoError>)
      modifies out`archive
      ensures old(out.TakesItem()) ==> r == Ok(()) && out.archive == old(out.archive) + [Member(SymlinkTo(header, path, target))]
      ensures !old(out.TakesItem()) ==> r == Err(WriteFailed) && out.archive == old(out.archive)
    {
      r := out.WriteItem(Member(SymlinkTo(header, path, target)));
    }

    /** `Builder::finish`: the first call marks the builder finished and writes
        the trailer; later calls write nothing and succeed. */
    method Finish() returns (r: Result<(), IoError>)
      modifies this`finished, out`archive
      ensures finished
      ensures old(finished) ==> r == Ok(()) && out.archive == old(out.archive)
      ensures !old(finished) && old(out.TakesItem()) ==> r == Ok(()) && out.archive == old(out.archive) + [Trailer]
      ensures !old(finished) && !old(out.TakesItem()) ==> r == Err(WriteFailed) && out.archive == old(out.archive)
    {
      if finished {
        r := Ok(());
        return;
      }
      finished := true;
      r := out.WriteItem(Trailer);
    }
  }
}
