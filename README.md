# gix-archive writer, modelled in Dafny

This project models the archive writer of gitoxide's `gix-archive` crate
(`gix-archive/src/write.rs`). `write_stream` takes a worktree entry stream and
an output sink and produces one of two outputs:

- for `Format::InternalTransientNonPersistable`, the stream's raw bytes, copied
  unchanged without ever asking the stream for an entry;
- for `Format::Tar`, a tar archive built one member per entry, in stream order,
  finished with the end-of-archive trailer once the stream reports its end.

Every error (the stream failing, an entry's content failing to read, an append
or the trailer not being accepted) aborts the write at once.

Files and modules:

- `base.dfy` (`Base`): bytes, `Option`, `Result`, the I/O errors, and how a
  reader or stream ends (`Clean` or `Fails`).
- `tar_header.dfy` (`TarHeader`): the tar entry types, the header fields the
  writer sets, the members it appends (`Data` via `append_data`, `SymlinkTo` via
  `append_link`), and the framing invariant `WellFramed`.
- `output.dfy` (`Output`): the caller's sink (class `Writer`), the reused
  scratch buffer (class `ScratchBuffer`), and `std::io::copy` into either.
- `tar_builder.dfy` (`TarBuilder`): `tar::Builder` as a class that appends
  members to its sink and writes the trailer once on `finish`.
- `worktree_stream.dfy` (`WorktreeStream`): entry modes, entries, and the
  stream as a class with a cursor and a `next_entry` method.
- `archive.dfy` (`Archive`): `write.rs` itself. It holds `State`, `State::new`,
  `tar_entry_type` and `add_prefix`, and `write_stream`, split into the dispatch,
  the entry loop and the loop body. It also holds the reference definitions of
  the tar path, which the methods are proved to follow: `Frame` (the member for
  one entry), `AppendAll` (the entry loop) and `TarRun` (the loop, then
  `finish`). What `AppendAll` and `TarRun` guarantee is stated by the lemmas in
  `archive_properties.dfy`.
- `archive_properties.dfy` (`ArchiveProperties`): lemmas about `TarRun` and
  `AddPrefix`. They cover stream order, one member per entry, the trailer only on
  success, the exact success condition, the empty stream, and aborts on stream
  and read errors.

The environment is given as data. A stream is the entries it will yield and how
it then ends. An entry's content reader yields its bytes and then ends cleanly
or fails. The sink has a budget: `byteRoom` for raw bytes, `archiveRoom` for
archive items. Past its budget it refuses writes. `archiveRoom` stands for
every reason an append can be refused. A tar archive is modelled as
the sequence of members and trailer the builder writes, not as 512-byte blocks.
Because `TarRun` is a function of the stream, the options and the sink, two
writes of the same input produce the same archive.

Points where the code may surprise a reader:

- the code gives directories and links the permission bits 0o644 as well,
  not the builder's defaults;
- `tar_entry_type` maps a link to the hard-link type `EntryType::Link`. The
  loop then overrides it to `Symlink` before appending.
- `Error` has only `Io` and `NextStreamEntry` variants. An I/O error does not
  say whether it came from reading content, appending or finishing.

## Model

| member | source | states |
|---|---|---|
| `Archive.MtimeSeconds` | gix-archive/src/write.rs:22-26 | a time at or after the epoch gives its whole seconds (the floor); a time before the epoch gives no mtime |
| `Archive.TarEntryType` | gix-archive/src/write.rs:74-83 | trees and commits map to `Directory`, blobs (executable or not) to `Regular`, links to the hard-link type; each direction holds, and the map never yields `Symlink` |
| `Archive.PermissionBits` | gix-archive/src/write.rs:38-42 | the mode is 0o755 exactly for an executable blob and 0o644 for every other entry, including directories and links; only 0o755 has the owner and other execute bits |
| `Archive.AddPrefix` | gix-archive/src/write.rs:86-97 | no prefix leaves the path unchanged; with a prefix the length is the sum of both lengths, so no separator is added or removed |
| `ArchiveProperties.AddPrefixSplits` | gix-archive/src/write.rs:90-95 | the archived path is exactly the prefix followed by the relative path: cutting it at the prefix length gives both back |
| `ArchiveProperties.FrameMember` | gix-archive/src/write.rs:33-57 | the member for one entry is well framed, with the common mtime, the mode bits and the prefixed path; a link becomes a `Symlink` member with size 0 whose target is the content; any other entry becomes a data member whose declared size is its content length, whose body is the content and whose type is `TarEntryType` |
| `ArchiveProperties.AddPrefixInjective` | gix-archive/src/write.rs:46 | with the same prefix, two different relative paths give two different archived paths |
| `Archive.NewState` | gix-archive/src/write.rs:99-120 | the internal format wraps the sink itself; tar wraps the sink in a fresh builder in deterministic mode, not yet finished, next to an empty scratch buffer |
| `Archive.AppendEntry` | gix-archive/src/write.rs:32-57 | the buffer is cleared and then filled with this entry's content only; a content read error appends nothing; otherwise the sink gets exactly the member `Frame` of the entry, or the refusal is returned and nothing is appended; afterwards the buffer holds exactly the entry's content, whether or not the read failed |
| `Archive.WriteEntries` | gix-archive/src/write.rs:28-60 | the entry loop appends to the sink exactly the members `AppendAll` gives, returns its result, and advances the stream by the entries it took |
| `Archive.WriteStream` | gix-archive/src/write.rs:11-71 | internal format: the sink gets the raw reader's bytes as `std::io::copy` writes them, `next_entry` is never called and no archive item is written; tar: the sink gets exactly `TarRun`'s items (the entry loop, then `finish` only if the loop ended cleanly), the result is `TarRun`'s, and no raw bytes are written |
| `Archive.Frame` | gix-archive/src/write.rs:33-57 | the member for one entry is well framed (declared size equals body length, a symlink has size 0) and is a symlink member exactly when the entry is a link |
| `ArchiveProperties.LoopAppendsInStreamOrder` | gix-archive/src/write.rs:28-60 | about `AppendAll`: the entry loop writes at most one member per entry, the k-th member comes from the k-th entry, and a loop that succeeds has appended and taken every entry |
| `ArchiveProperties.LoopSucceedsIff` | gix-archive/src/write.rs:28-60 | about `AppendAll`: the entry loop succeeds exactly when the stream ends cleanly, every content reads and every append is accepted |
| `ArchiveProperties.RunAppendsInStreamOrder` | gix-archive/src/write.rs:28-68 | about `TarRun`: the k-th member written is framed from the k-th entry taken, one member per entry; a successful run then writes the trailer last, after every entry; a failed run writes only members |
| `ArchiveProperties.TrailerIffSuccess` | gix-archive/src/write.rs:62-67 | the trailer is written exactly when the write succeeds: no `finish` after any error |
| `ArchiveProperties.SuccessIff` | gix-archive/src/write.rs:28-68 | the write succeeds exactly when the stream ends cleanly, every content reads and every append is accepted, the trailer's included |
| `ArchiveProperties.SuccessWritesWholeArchive` | gix-archive/src/write.rs:28-68 | on success the archive is every entry's member in stream order followed by the trailer, and every entry was taken |
| `ArchiveProperties.EmptyStreamIsEmptyArchive` | gix-archive/src/write.rs:28-68 | an empty stream gives an archive with no members, only the trailer |
| `ArchiveProperties.StreamFailureAfterEntries` | gix-archive/src/write.rs:28 | a stream that fails after N entries gives those N members, no trailer, and the stream's error |
| `ArchiveProperties.ReadFailureStopsTheWrite` | gix-archive/src/write.rs:43-44 | a content read error at entry j gives the members of the entries before j and nothing after, with an I/O read error |
| `ArchiveProperties.SinkRefusalStopsTheWrite` | gix-archive/src/write.rs:54-56 | when the append for entry j is refused after every earlier entry's member was taken, the archive holds the members of the entries before j and nothing after, entry j was taken from the stream, and the result is the write error |
| `ArchiveProperties.MembersWellFramed` | gix-archive/src/write.rs:33-57 | every member written declares a size equal to its body length (0 and no body for a symlink) and carries the same mtime |
| `TarBuilder.Builder.constructor` | gix-archive/src/write.rs:112 | a new builder writes to the given sink, is not finished, and uses the complete header mode |
| `TarBuilder.Builder.SetMode` | gix-archive/src/write.rs:113 | the builder's header mode becomes the one given |
| `TarBuilder.Builder.AppendData` | gix-archive/src/write.rs:56 | the sink gets one data member with this header, path and body, or the write is refused and nothing is appended |
| `TarBuilder.Builder.AppendLink` | gix-archive/src/write.rs:54 | the sink gets one symlink member with this header, path and target, or the write is refused and nothing is appended |
| `TarBuilder.Builder.Finish` | gix-archive/src/write.rs:66 | the first call marks the builder finished and writes the trailer, or returns the sink's refusal; later calls write nothing |
| `WorktreeStream.Stream.NextEntry` | gix-archive/src/write.rs:28 | yields the entries in order, then `None` for a stream that ends cleanly or an error for one that fails; every call is counted |
| `Output.CopyOutcome` | gix-archive/src/write.rs:15-16 | a copy succeeds exactly when the reader ends cleanly and the sink has room, and then writes every byte; the bytes written are always a prefix of the source; a full sink refuses with a write error |
| `Output.Writer.CopyFrom` | gix-archive/src/write.rs:16 | the sink's bytes grow by what `CopyOutcome` writes |
| `Output.ScratchBuffer.CopyFrom` | gix-archive/src/write.rs:44 | the buffer grows by every byte of the content; the reader's failure is returned after them |
| `Output.ScratchBuffer.constructor` | gix-archive/src/write.rs:116 | a new scratch buffer is empty |
| `Output.ScratchBuffer.Clear` | gix-archive/src/write.rs:43 | the buffer is empty |

## Left out

- The tar byte encoding is not modelled. This covers GNU header layout, checksums, octal and base-256 numeric fields, long-name extension entries, body padding and the two zero blocks of the trailer. These belong to the `tar` crate, so a member and the trailer are modelled as items.
- `tar::HeaderMode::Deterministic` is recorded on the builder but has no effect. It only changes headers derived from file-system metadata, which this writer never asks for.
- `tar::Builder` also calls `finish` when it is dropped, ignoring any error. After a failed tar write, the real sink can still receive a trailer. The model follows `write.rs`, which calls `finish` only on success.
- TarBuilder.Builder.AppendData: refused exactly when the sink's `archiveRoom` is used up. `archiveRoom` stands for every append refusal, whether the sink's or the `tar` crate's own path checks (an empty path, an absolute path, a `..` component). The builder's path normalisation is not modelled: the path is stored as given.
- TarBuilder.Builder.AppendLink: refused exactly when the sink's `archiveRoom` is used up, which also stands for the `tar` crate's checks on the path and on the link target (an empty target). Path and target normalisation is not modelled.
- A refused member writes nothing in the model. A real sink may keep a partial member; callers discard a failed archive either way.
- Sink refusals are modelled as a byte budget (raw copy) and an item budget (tar). Interrupted writes that `std::io::copy` retries are not modelled.
- The raw reader's bytes are given independently of the entries. How `gix_worktree_stream` serialises entries into that reader is not part of this model.
- `std::time::SystemTime` is an integer count of nanoseconds from the Unix epoch.
- `gix_path::from_bstr` is the identity on bytes.
- The 64 KiB initial capacity of the scratch buffer is left out because it only affects performance. Allocation failure is also left out.
- `#[cfg(feature = "tar")]`: both variants are always present.
- cargo-smart-release/src/command/release/git.rs is not part of this model. It is `git` subprocess and repository orchestration.
- gix/src/clone/mod.rs is not part of this model. It is on-disk repository setup.
