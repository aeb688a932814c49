/** The output sink (`impl std::io::Write`), the reusable scratch buffer
    (`Vec<u8>`) and `std::io::copy` between a reader and either of them. */
module Output {
  import opened Base
  import opened TarHeader

  /** True when a sink that refuses writes past `room` units, and already
      holds `held` of them, takes `n` more. */
  predicate Fits(room: Option<nat>, held: nat, n: nat)
  {
    room.None? || held + n <= room.value
  }

  /** The result of `std::io::copy`: the bytes that reached the destination,
      and the byte count or the error it returned. */
  datatype Copied = Copied(written: Bytes, result: Result<nat, IoError>)

  /** `std::io::copy` from a reader that yields `src` and then ends as
      `ending` says, into a sink holding `held` bytes that refuses writes past
      `room`. Every byte of `src` is written before the reader can report its
      failure, so a refusing sink is noticed first. */
  function CopyOutcome(src: Bytes, ending: Ending, room: Option<nat>, held: nat): (c: Copied)
    ensures c.written <= src
    ensures c.result.Ok? <==> ending == Clean && Fits(room, held, |src|)
    ensures c.result.Ok? ==> c.written == src && c.result.value == |src|
    ensures !Fits(room, held, |src|) ==> c.result == Err(WriteFailed) && held + |c.written| >= room.value
    ensures Fits(room, held, |src|) ==> c.written == src
  {
    if !Fits(room, held, |src|) then
      Copied(src[..if room.value >= held then room.value - held else 0], Err(WriteFailed))
    else if ending.Fails? then
      Copied(src, Err(ReadFailed))
    else
      Copied(src, Ok(|src|))
  }

  /** The caller's output sink. A raw copy appends to `bytes`; a tar builder
      appends to `archive` whole members and the trailer (their byte encoding
      is not modelled). `byteRoom` and `archiveRoom` say when the sink starts
      refusing writes: past that many bytes, or once it holds that many items. */
  class Writer {
    var bytes: Bytes
    var archive: seq<Item>
    const byteRoom: Option<nat>
    const archiveRoom: Option<nat>

    constructor (byteRoom: Option<nat>, archiveRoom: Option<nat>)
      ensures bytes == [] && archive == []
      ensures this.byteRoom == byteRoom && this.archiveRoom == archiveRoom
    {
      bytes := [];
      archive := [];
      this.byteRoom := byteRoom;
      this.archiveRoom := archiveRoom;
    }

    /** True when the sink takes one more archive item. */
    predicate TakesItem()
      reads this
    {
      Fits(archiveRoom, |archive|, 1)
    }

    /** `std::io::copy(reader, self)` for a reader yielding `src` and then ending as `ending`. */
    method CopyFrom(src: Bytes, ending: Ending) returns (r: Result<nat, IoError>)
      modifies this`bytes
      ensures var c := CopyOutcome(src, ending, byteRoom, old(|bytes|));
        bytes == old(bytes) + c.written && r == c.result
    {
      var c := CopyOutcome(src, ending, byteRoom, |bytes|);
      bytes := bytes + c.written;
      r := c.result;
    }

    /** Writes one archive item, unless the sink refuses it. */
    method WriteItem(item: Item) returns (r: Result<(), IoError>)
      modifies this`archive
      ensures old(TakesItem()) ==> r == Ok(()) && archive == old(archive) + [item]
      ensures !old(TakesItem()) ==> r == Err(WriteFailed) && archive == old(archive)
    {
      if TakesItem() {
        archive := archive + [item];
        r := Ok(());
      } else {
        r := Err(WriteFailed);
      }
    }
  }

  /** A growable byte buffer (`Vec<u8>`), reused by clearing it. Writes into it
      never fail. */
  class ScratchBuffer {
    var data: Bytes

    constructor ()
      ensures data == []
    {
      data := [];
    }

    /** `Vec::clear`. */
    method Clear()
      modifies this
      ensures data == []
    {
      data := [];
    }

    /** `std::io::copy(reader, self)`: every byte the reader yields is kept,
        and the reader's failure, if any, is returned after them. */
    method CopyFrom(src: Bytes, ending: Ending) returns (r: Result<nat, IoError>)
      modifies this
      ensures data == old(data) + src
      ensures r == CopyOutcome(src, ending, None, old(|data|)).result
    {
      data := data + src;
      r := if ending == Clean then Ok(|src|) else Err(ReadFailed);
    }
  }
}
