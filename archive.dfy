/** The archive writer of gix-archive (`write.rs`): it turns a worktree entry
    stream into either the stream's raw bytes or a tar archive. */
module Archive {
  import opened Base
  import opened TarHeader
  import opened Output
  import opened TarBuilder
  import opened WorktreeStream

  /** `Format`: the raw, in-process representation or a tar archive. */
  datatype Format = InternalTransientNonPersistable | Tar

  /** `Options`. `modificationTime` is a point in time, in nanoseconds after
      the Unix epoch (negative before it). */
  datatype Options = Options(format: Format, treePrefix: Option<Bytes>, modificationTime: int)

  /** `Error`: an I/O error, or the failure of the entry stream itself. */
  datatype Error = Io(io: IoError) | NextStreamEntry

  /** `State`: the sink itself, or a tar builder writing to it together with
      the scratch buffer reused for every entry's content. */
  datatype State = Internal(out: Writer) | Tar(ar: Builder, buf: ScratchBuffer)

  /** The permission bits of a regular file and of an executable one (0o644 and 0o755). */
  const RegularFileMode: nat := 420
  const ExecutableFileMode: nat := 493

  const NanosPerSecond: nat := 1_000_000_000

  /** `duration_since(UNIX_EPOCH).ok().map(|d| d.as_secs())`: the whole
      seconds since the epoch, or nothing for a time before it. */
  function MtimeSeconds(t: int): (s: Option<nat>)
    ensures s.Some? <==> t >= 0
    ensures s.Some? ==> s.value * NanosPerSecond <= t < (s.value + 1) * NanosPerSecond
  {
    if t >= 0 then Some(t / NanosPerSecond) else None
  }

  /** `tar_entry_type`: trees and submodule commits become directories, blobs
      regular files, and links hard links (the writer later turns them into
      symlinks). */
  function TarEntryType(mode: EntryMode): (t: EntryType)
    ensures t == Directory <==> mode == Tree || mode == Commit
    ensures t == Regular <==> mode == Blob || mode == BlobExecutable
    ensures t == EntryType.Link <==> mode == EntryMode.Link
    ensures t != Symlink
  {
    match mode
    case Tree | Commit => Directory
    case Blob => Regular
    case BlobExecutable => Regular
    case Link => EntryType.Link
  }

  /** The permission bits the writer gives an entry's header: 0o755 for an
      executable blob and 0o644 for everything else, directories and links
      included. Only the former has an execute bit. */
  function PermissionBits(mode: EntryMode): (bits: nat)
    ensures bits == ExecutableFileMode <==> mode == BlobExecutable
    ensures bits == RegularFileMode <==> mode != BlobExecutable
    ensures (bits % 2 == 1) <==> mode == BlobExecutable
    ensures (bits / 64 % 2 == 1) <==> mode == BlobExecutable
  {
    if mode == BlobExecutable then ExecutableFileMode else RegularFileMode
  }

  /** `add_prefix`: the archived path is the prefix immediately followed by
      the relative path; no separator is added or removed. */
  function AddPrefix(relativePath: Bytes, prefix: Option<Bytes>): (p: Bytes)
    ensures prefix.None? ==> p == relativePath
    ensures prefix.Some? ==> |p| == |prefix.value| + |relativePath|
  {
    match prefix
    case None => relativePath
    case Some(x) => x + relativePath
  }

  /** The member the writer appends for entry `e`, once its content has been
      read in full. */
  function Frame(e: Entry, mtime: Option<nat>, prefix: Option<Bytes>): (rec: Record)
    ensures WellFramed(rec)
    ensures rec.SymlinkTo? <==> e.mode == EntryMode.Link
  {
    var h := Header(mtime, TarEntryType(e.mode), PermissionBits(e.mode), |e.content|);
    var path := AddPrefix(e.relativePath, prefix);
    if e.mode == EntryMode.Link then SymlinkTo(h.(entryType := Symlink, size := 0), path, e.content)
    else Data(h, path, e.content)
  }

  /** What the tar path writes to the sink, how many entries it takes from the
      stream and what it returns. */
  datatype Run = Run(items: seq<Item>, consumed: nat, result: Result<(), Error>)

  /** The entry loop of the tar path from stream position `i` on, for a
      stream holding `es` and ending as `ending`, into a sink that holds `held`
      items and refuses items once it holds `room`. Each entry is read, then
      appended; the loop succeeds when the stream reports its end, and the
      first failure ends it. */
  function AppendAll(es: seq<Entry>, i: nat, ending: Ending, mtime: Option<nat>, prefix: Option<Bytes>,
                     room: Option<nat>, held: nat): (r: Run)
    requires i <= |es|
    decreases |es| - i
  {
    if i == |es| then
      if ending.Fails? then Run([], 0, Err(NextStreamEntry)) else Run([], 0, Ok(()))
    else if es[i].contentEnding.Fails? then Run([], 1, Err(Io(ReadFailed)))
    else if !Fits(room, held, 1) then Run([], 1, Err(Io(WriteFailed)))
    else
      var rest := AppendAll(es, i + 1, ending, mtime, prefix, room, held + 1);
      Run([Member(Frame(es[i], mtime, prefix))] + rest.items, rest.consumed + 1, rest.result)
  }

  /** The whole tar path: the entry loop, then, if it succeeded, `finish`,
      which writes the trailer unless the sink refuses it. */
  function TarRun(es: seq<Entry>, i: nat, ending: Ending, mtime: Option<nat>, prefix: Option<Bytes>,
                  room: Option<nat>, held: nat): (r: Run)
    requires i <= |es|
  {
    var loop := AppendAll(es, i, ending, mtime, prefix, room, held);
    if loop.result.Err? then loop
    else if !Fits(room, held + |loop.items|, 1) then Run(loop.items, loop.consumed, Err(Io(WriteFailed)))
    else Run(loop.items + [Trailer], loop.consumed, Ok(()))
  }

  /** The `?` conversion of an I/O result into the writer's result. */
  function FromIo<T>(r: Result<T, IoError>): (w: Result<(), Error>)
  {
    match r
    case Ok(_) => Ok(())
    case Err(e) => Err(Io(e))
  }

  /** `State::new`. */
  method NewState(format: Format, out: Writer) returns (s: State)
    ensures format == Format.InternalTransientNonPersistable ==> s == State.Internal(out)
    ensures format == Format.Tar ==> s.Tar? && fresh(s.ar) && fresh(s.buf)
    ensures format == Format.Tar ==> s.ar.out == out && s.ar.mode == Deterministic && !s.ar.finished && s.buf.data == []
  {
    match format
    case InternalTransientNonPersistable =>
      s := State.Internal(out);
    case Tar =>
      var ar := new Builder(out);
      ar.SetMode(Deterministic);
      var buf := new ScratchBuffer();
      s := State.Tar(ar, buf);
  }

  /** The body of the entry loop of `write_stream` for the tar state: build
      the header, read the entry's content into the cleared scratch buffer and
      append the member, with a symlink's content as its link target. */
  method AppendEntry(ar: Builder, buf: ScratchBuffer, entry: Entry, mtime: Option<nat>, prefix: Option<Bytes>)
    returns (r: Result<(), Error>)
    modifies buf, ar.out`archive
    ensures entry.contentEnding.Fails? ==> r == Err(Io(ReadFailed)) && ar.out.archive == old(ar.out.archive)
    ensures entry.contentEnding.Clean? && !old(ar.out.TakesItem()) ==>
      r == Err(Io(WriteFailed)) && ar.out.archive == old(ar.out.archive)
    ensures entry.contentEnding.Clean? && old(ar.out.TakesItem()) ==>
      r == Ok(()) && ar.out.archive == old(ar.out.archive) + [Member(Frame(entry, mtime, prefix))]
    ensures buf.data == entry.content
  {
    var header := NewGnu();
    if mtime.Some? {
      header := header.(mtime := mtime);
    }
    header := header.(entryType := TarEntryType(entry.mode));
    header := header.(mode := PermissionBits(entry.mode));
    buf.Clear();
    var copied := buf.CopyFrom(entry.content, entry.contentEnding);
    if copied.Err? {
      r := Err(Io(copied.error));
      return;
    }
    var path := AddPrefix(entry.relativePath, prefix);
    header := header.(size := |buf.data|);
    var appended;
    if entry.mode == EntryMode.Link {
      var target := buf.data;
      header := header.(entryType := Symlink, size := 0);
      assert SymlinkTo(header, path, target) == Frame(entry, mtime, prefix);
      appended := ar.AppendLink(header, path, target);
    } else {
      assert Data(header, path, buf.data) == Frame(entry, mtime, prefix);
      appended := ar.AppendData(header, path, buf.data);
    }
    r := FromIo(appended);
  }

  /** `write_stream`: for the internal format, copy the stream's raw bytes to
      `out` without touching its entries; for tar, append one member per entry
      in stream order and finish the archive once the stream ends. */
  method WriteStream(stream: Stream, out: Writer, opts: Options) returns (r: Result<(), Error>)
    requires stream.Valid()
    modifies stream, out
    ensures stream.Valid()
    ensures opts.format == Format.InternalTransientNonPersistable ==>
      var c := CopyOutcome(stream.raw, stream.rawEnding, out.byteRoom, old(|out.bytes|));
      && out.bytes == old(out.bytes) + c.written && r == FromIo(c.result)
      && out.archive == old(out.archive)
      && stream.pos == old(stream.pos) && stream.calls == old(stream.calls)
    ensures opts.format == Format.Tar ==>
      var run := TarRun(stream.entries, old(stream.pos), stream.ending, MtimeSeconds(opts.modificationTime),
                        opts.treePrefix, out.archiveRoom, old(|out.archive|));
      && out.archive == old(out.archive) + run.items && r == run.result
      && out.bytes == old(out.bytes)
      && stream.pos == old(stream.pos) + run.consumed
  {
    var state := NewState(opts.format, out);
    if state.Internal? {
      var copied := state.out.CopyFrom(stream.raw, stream.rawEnding);
      r := FromIo(copied);
      return;
    }

    var ar, buf := state.ar, state.buf;
    var mtime := MtimeSeconds(opts.modificationTime);
    r := WriteEntries(stream, ar, buf, mtime, opts.treePrefix);
    if r.Err? {
      return;
    }
    var finished := ar.Finish();
    r := FromIo(finished);
  }

  /** The entry loop of `write_stream` for the tar state: pull entries until
      the stream reports its end and append each one; stop at the first error. */
  method WriteEntries(stream: Stream, ar: Builder, buf: ScratchBuffer, mtime: Option<nat>, prefix: Option<Bytes>)
    returns (r: Result<(), Error>)
    requires stream.Valid()
    modifies stream, buf, ar.out`archive
    ensures stream.Valid()
    ensures var run := AppendAll(stream.entries, old(stream.pos), stream.ending, mtime, prefix,
                                 ar.out.archiveRoom, old(|ar.out.archive|));
      && ar.out.archive == old(ar.out.archive) + run.items && r == run.result
      && stream.pos == old(stream.pos) + run.consumed
  {
    var out := ar.out;
    ghost var es, ending, room := stream.entries, stream.ending, out.archiveRoom;
    ghost var p0 := stream.pos;
    ghost var spec := AppendAll(es, p0, ending, mtime, prefix, room, |out.archive|);
    ghost var done: seq<Item> := [];
    while true
      invariant stream.Valid() && p0 <= stream.pos
      invariant out.archive == old(out.archive) + done
      invariant var now := AppendAll(es, stream.pos, ending, mtime, prefix, room, |out.archive|);
        && spec.items == done + now.items
        && spec.consumed == stream.pos - p0 + now.consumed
        && spec.result == now.result
      decreases |es| - stream.pos
    {
      ghost var before := AppendAll(es, stream.pos, ending, mtime, prefix, room, |out.archive|);
      var next := stream.NextEntry();
      if next.Err? {
        AppendEmpty(done);
        r := Err(NextStreamEntry);
        return;
      }
      if next.value.None? {
        AppendEmpty(done);
        r := Ok(());
        return;
      }
      var entry := next.value.value;
      ghost var m := Member(Frame(entry, mtime, prefix));
      var appended := AppendEntry(ar, buf, entry, mtime, prefix);
      if appended.Err? {
        AppendEmpty(done);
        r := appended;
        return;
      }
      ghost var now := AppendAll(es, stream.pos, ending, mtime, prefix, room, |out.archive|);
      assert before.items == [m] + now.items;
      AppendAssoc(done, [m], now.items);
      AppendAssoc(old(out.archive), done, [m]);
      done := done + [m];
    }
  }
}
