/** The parts of a tar archive the writer decides: the header fields it sets,
    and the members it appends. The byte encoding of headers and the padding of
    bodies belong to the `tar` crate and are not part of this model. */
module TarHeader {
  import opened Base

  /** The `tar::EntryType`s the writer can produce. `Link` is a hard link. */
  datatype EntryType = Regular | Link | Symlink | Directory

  /** `tar::HeaderMode`: `Deterministic` makes the builder canonicalise metadata
      it takes from the file system. */
  datatype HeaderMode = Complete | Deterministic

  /** The header fields the writer sets. `mtime` is `None` while the field is
      still the zero of a fresh header. */
  datatype Header = Header(mtime: Option<nat>, entryType: EntryType, mode: nat, size: nat)

  /** `tar::Header::new_gnu()`: every field zero, which reads back as a regular file. */
  function NewGnu(): (h: Header)
  {
    Header(None, Regular, 0, 0)
  }

  /** One archive member as appended by `append_data` (header, path and body)
      or by `append_link` (header, path and link target, no body). */
  datatype Record =
    | Data(header: Header, path: Bytes, body: Bytes)
    | SymlinkTo(header: Header, path: Bytes, target: Bytes)

  /** What the builder writes to its sink: members, then the end-of-archive trailer. */
  datatype Item = Member(record: Record) | Trailer

  /** The framing invariant of a tar member: a header declares exactly the
      number of body bytes that follow it, and a symlink carries its target in
      the header and no body at all. */
  predicate WellFramed(rec: Record)
  {
    match rec
    case Data(h, _, body) => h.size == |body| && h.entryType != Symlink
    case SymlinkTo(h, _, _) => h.size == 0 && h.entryType == Symlink
  }
}
