/** The entry stream the writer consumes (`gix_worktree_stream::Stream`). Its
    producer is not part of this model: a stream is given by the entries it
    will yield and the way it ends. */
module WorktreeStream {
  import opened Base

  /** `gix_object::tree::EntryMode`. */
  datatype EntryMode = Tree | Blob | BlobExecutable | Link | Commit

  /** One worktree entry: its mode, its path relative to the tree root, and
      its content reader, which yields `content` and then ends as
      `contentEnding` says. For a `Link` the content is the link target. */
  datatype Entry = Entry(mode: EntryMode, relativePath: Bytes, content: Bytes, contentEnding: Ending)

  /** The error `next_entry` returns when the stream fails. */
  datatype EntryError = EntryError

  class Stream {
    const entries: seq<Entry>
    const ending: Ending
    /** What the stream's raw reader (`as_read_mut`) yields, and how it ends. */
    const raw: Bytes
    const rawEnding: Ending
    /** How many entries `next_entry` has handed out. */
    var pos: nat
    /** How many times `next_entry` has been called. */
    ghost var calls: nat

    ghost predicate Valid()
      reads this
    {
      pos <= |entries|
    }

    constructor (entries: seq<Entry>, ending: Ending, raw: Bytes, rawEnding: Ending)
      ensures Valid() && pos == 0 && calls == 0
      ensures this.entries == entries && this.ending == ending
      ensures this.raw == raw && this.rawEnding == rawEnding
    {
      this.entries := entries;
      this.ending := ending;
      this.raw := raw;
      this.rawEnding := rawEnding;
      pos := 0;
      calls := 0;
    }

    /** `Stream::next_entry`: the next entry in order; once all are handed out,
        `None` for a stream that ends cleanly and an error for one that fails. */
    method NextEntry() returns (r: Result<Option<Entry>, EntryError>)
      requires Valid()
      modifies this
      ensures Valid() && calls == old(calls) + 1
      ensures old(pos) < |entries| ==> r == Ok(Some(entries[old(pos)])) && pos == old(pos) + 1
      ensures old(pos) == |entries| ==> pos == old(pos)
      ensures old(pos) == |entries| && ending == Clean ==> r == Ok(None)
      ensures old(pos) == |entries| && ending == Fails ==> r == Err(EntryError)
    {
      calls := calls + 1;
      if pos < |entries| {
        r := Ok(Some(entries[pos]));
        pos := pos + 1;
      } else if ending == Clean {
        r := Ok(None);
      } else {
        r := Err(EntryError);
      }
    }
  }
}
