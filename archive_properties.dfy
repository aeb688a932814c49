/** What the tar path of the writer guarantees, proved about its reference
    definition `Archive.TarRun` (which `Archive.WriteStream` is proved to
    follow), and what the path helpers guarantee across calls. */
module ArchiveProperties {
  import opened Base
  import opened TarHeader
  import opened Output
  import opened WorktreeStream
  import opened Archive

  /** The members the writer appends for `es`, in stream order. */
  function FramedItems(es: seq<Entry>, mtime: Option<nat>, prefix: Option<Bytes>): (items: seq<Item>)
  {
    seq(|es|, k requires 0 <= k < |es| => Member(Frame(es[k], mtime, prefix)))
  }

  /** Framing a slice of the stream frames its first entry, then the rest. */
  lemma FramedItemsCons(es: seq<Entry>, i: nat, j: nat, mtime: Option<nat>, prefix: Option<Bytes>)
    requires i < j <= |es|
    ensures FramedItems(es[i..j], mtime, prefix)
         == [Member(Frame(es[i], mtime, prefix))] + FramedItems(es[i + 1..j], mtime, prefix)
  {
    var whole := FramedItems(es[i..j], mtime, prefix);
    var tail := FramedItems(es[i + 1..j], mtime, prefix);
    assert |whole| == |[Member(Frame(es[i], mtime, prefix))] + tail|;
    forall k | 0 <= k < |whole|
      ensures whole[k] == ([Member(Frame(es[i], mtime, prefix))] + tail)[k]
    {
      if k > 0 {
        assert es[i..j][k] == es[i + 1..j][k - 1];
      }
    }
  }

  /** Every entry from position `i` on has content that reads without error. */
  predicate ReadableFrom(es: seq<Entry>, i: nat)
  {
    forall j :: i <= j < |es| ==> es[j].contentEnding.Clean?
  }

  /** How many members a run appended (all its items but the trailer). */
  function MembersOf(r: Run): (n: nat)
  {
    if r.result.Ok? && |r.items| > 0 then |r.items| - 1 else |r.items|
  }

  /** The member framed from one entry: well framed, with the common mtime,
      the entry's permission bits and its prefixed path. A link becomes a
      symlink member of size 0 whose target is the entry's content; any other
      entry becomes a data member whose body is exactly its content and whose
      type is `TarEntryType` of its mode. */
  lemma FrameMember(e: Entry, mtime: Option<nat>, prefix: Option<Bytes>)
    ensures var rec := Frame(e, mtime, prefix);
      && WellFramed(rec)
      && rec.header.mtime == mtime && rec.header.mode == PermissionBits(e.mode)
      && rec.path == AddPrefix(e.relativePath, prefix)
      && (rec.SymlinkTo? <==> e.mode == EntryMode.Link)
      && (rec.SymlinkTo? ==> rec.target == e.content && rec.header.entryType == Symlink && rec.header.size == 0)
      && (rec.Data? ==> rec.body == e.content && rec.header.size == |e.content|
                        && rec.header.entryType == TarEntryType(e.mode))
  {
  }

  /** The entry loop appends one member per entry, in stream order, and on
      success has appended every entry. */
  lemma {:induction false} LoopAppendsInStreamOrder(es: seq<Entry>, i: nat, ending: Ending, mtime: Option<nat>,
                                                    prefix: Option<Bytes>, room: Option<nat>, held: nat)
    requires i <= |es|
    ensures var loop := AppendAll(es, i, ending, mtime, prefix, room, held);
      && |loop.items| <= |es| - i
      && (forall k :: 0 <= k < |loop.items| ==> loop.items[k] == Member(Frame(es[i + k], mtime, prefix)))
      && (loop.result.Ok? ==> |loop.items| == |es| - i && loop.consumed == |es| - i)
    decreases |es| - i
  {
    if i < |es| && es[i].contentEnding.Clean? && Fits(room, held, 1) {
      LoopAppendsInStreamOrder(es, i + 1, ending, mtime, prefix, room, held + 1);
      var loop := AppendAll(es, i, ending, mtime, prefix, room, held);
      var rest := AppendAll(es, i + 1, ending, mtime, prefix, room, held + 1);
      forall k | 0 <= k < |loop.items|
        ensures loop.items[k] == Member(Frame(es[i + k], mtime, prefix))
      {
        if k > 0 {
          assert loop.items[k] == rest.items[k - 1];
        }
      }
    }
  }

  /** Members appear one per entry and in stream order: the k-th item
      written is the member framed from the k-th entry pulled. A run ends with
      the trailer exactly when it succeeds, and then every entry was appended. */
  lemma RunAppendsInStreamOrder(es: seq<Entry>, i: nat, ending: Ending, mtime: Option<nat>,
                                prefix: Option<Bytes>, room: Option<nat>, held: nat)
    requires i <= |es|
    ensures var r := TarRun(es, i, ending, mtime, prefix, room, held);
      && MembersOf(r) <= |es| - i
      && (forall k :: 0 <= k < MembersOf(r) ==> r.items[k] == Member(Frame(es[i + k], mtime, prefix)))
      && (r.result.Ok? ==> MembersOf(r) == |es| - i && |r.items| == MembersOf(r) + 1 && r.items[MembersOf(r)] == Trailer)
      && (r.result.Err? ==> |r.items| == MembersOf(r))
  {
    LoopAppendsInStreamOrder(es, i, ending, mtime, prefix, room, held);
  }

  /** The trailer is written exactly when the write succeeds: a failed write
      never finishes the archive. */
  lemma TrailerIffSuccess(es: seq<Entry>, i: nat, ending: Ending, mtime: Option<nat>,
                          prefix: Option<Bytes>, room: Option<nat>, held: nat)
    requires i <= |es|
    ensures var r := TarRun(es, i, ending, mtime, prefix, room, held);
      Trailer in r.items <==> r.result.Ok?
  {
    RunAppendsInStreamOrder(es, i, ending, mtime, prefix, room, held);
    var r := TarRun(es, i, ending, mtime, prefix, room, held);
    if Trailer in r.items {
      var k :| 0 <= k < |r.items| && r.items[k] == Trailer;
      assert k >= MembersOf(r);
    }
  }

  /** The entry loop succeeds exactly when the stream ends cleanly, every
      entry's content reads and every append is accepted. */
  lemma {:induction false} LoopSucceedsIff(es: seq<Entry>, i: nat, ending: Ending, mtime: Option<nat>,
                                           prefix: Option<Bytes>, room: Option<nat>, held: nat)
    requires i <= |es|
    ensures AppendAll(es, i, ending, mtime, prefix, room, held).result.Ok? <==>
      ending.Clean? && ReadableFrom(es, i) && (i == |es| || Fits(room, held, |es| - i))
    decreases |es| - i
  {
    if i < |es| {
      LoopSucceedsIff(es, i + 1, ending, mtime, prefix, room, held + 1);
      assert ReadableFrom(es, i) <==> es[i].contentEnding.Clean? && ReadableFrom(es, i + 1);
      assert Fits(room, held, |es| - i) <==> Fits(room, held, 1) && (i + 1 == |es| || Fits(room, held + 1, |es| - (i + 1)));
    }
  }

  /** The write succeeds exactly when the stream ends cleanly, every entry's
      content reads without error, and every append is accepted, the
      trailer's included. */
  lemma SuccessIff(es: seq<Entry>, i: nat, ending: Ending, mtime: Option<nat>,
                   prefix: Option<Bytes>, room: Option<nat>, held: nat)
    requires i <= |es|
    ensures TarRun(es, i, ending, mtime, prefix, room, held).result.Ok? <==>
      ending.Clean? && ReadableFrom(es, i) && Fits(room, held, |es| - i + 1)
  {
    LoopSucceedsIff(es, i, ending, mtime, prefix, room, held);
    LoopAppendsInStreamOrder(es, i, ending, mtime, prefix, room, held);
  }

  /** A successful write appends every entry, in order, then the trailer, and
      takes every entry from the stream. */
  lemma SuccessWritesWholeArchive(es: seq<Entry>, i: nat, ending: Ending, mtime: Option<nat>,
                                  prefix: Option<Bytes>, room: Option<nat>, held: nat)
    requires i <= |es|
    requires ending.Clean? && ReadableFrom(es, i) && Fits(room, held, |es| - i + 1)
    ensures var r := TarRun(es, i, ending, mtime, prefix, room, held);
      r.result.Ok? && r.consumed == |es| - i && r.items == FramedItems(es[i..], mtime, prefix) + [Trailer]
  {
    SuccessIff(es, i, ending, mtime, prefix, room, held);
    LoopAppendsInStreamOrder(es, i, ending, mtime, prefix, room, held);
    var loop := AppendAll(es, i, ending, mtime, prefix, room, held);
    var framed := FramedItems(es[i..], mtime, prefix);
    assert |loop.items| == |framed|;
    forall k | 0 <= k < |framed|
      ensures loop.items[k] == framed[k]
    {
      assert es[i..][k] == es[i + k];
    }
    assert loop.items == framed;
  }

  /** An empty stream that ends cleanly yields an archive holding only the trailer. */
  lemma EmptyStreamIsEmptyArchive(ending: Ending, mtime: Option<nat>, prefix: Option<Bytes>,
                                  room: Option<nat>, held: nat)
    requires ending.Clean? && Fits(room, held, 1)
    ensures TarRun([], 0, ending, mtime, prefix, room, held) == Run([Trailer], 0, Ok(()))
  {
  }

  /** A stream that fails after its entries: every entry was appended, the
      error is the stream's, and the archive is never finished. */
  lemma {:induction false} StreamFailureAfterEntries(es: seq<Entry>, i: nat, mtime: Option<nat>,
                                                     prefix: Option<Bytes>, room: Option<nat>, held: nat)
    requires i <= |es|
    requires ReadableFrom(es, i) && Fits(room, held, |es| - i)
    ensures TarRun(es, i, Fails, mtime, prefix, room, held)
         == Run(FramedItems(es[i..], mtime, prefix), |es| - i, Err(NextStreamEntry))
    decreases |es| - i
  {
    if i < |es| {
      StreamFailureAfterEntries(es, i + 1, mtime, prefix, room, held + 1);
      FramedItemsCons(es, i, |es|, mtime, prefix);
      assert es[i..|es|] == es[i..] && es[i + 1..|es|] == es[i + 1..];
    }
  }

  /** An entry whose content fails to read ends the write there: the entries
      before it were appended, it is not, and nothing follows. */
  lemma {:induction false} ReadFailureStopsTheWrite(es: seq<Entry>, i: nat, j: nat, ending: Ending, mtime: Option<nat>,
                                                    prefix: Option<Bytes>, room: Option<nat>, held: nat)
    requires i <= j < |es|
    requires es[j].contentEnding.Fails?
    requires forall m :: i <= m < j ==> es[m].contentEnding.Clean?
    requires Fits(room, held, j - i)
    ensures TarRun(es, i, ending, mtime, prefix, room, held)
         == Run(FramedItems(es[i..j], mtime, prefix), j - i + 1, Err(Io(ReadFailed)))
  {
    ReadFailureStopsTheLoop(es, i, j, ending, mtime, prefix, room, held);
  }

  /** The entry loop's half of `ReadFailureStopsTheWrite`. */
  lemma {:induction false} ReadFailureStopsTheLoop(es: seq<Entry>, i: nat, j: nat, ending: Ending, mtime: Option<nat>,
                                                   prefix: Option<Bytes>, room: Option<nat>, held: nat)
    requires i <= j < |es|
    requires es[j].contentEnding.Fails?
    requires forall m :: i <= m < j ==> es[m].contentEnding.Clean?
    requires Fits(room, held, j - i)
    ensures AppendAll(es, i, ending, mtime, prefix, room, held)
         == Run(FramedItems(es[i..j], mtime, prefix), j - i + 1, Err(Io(ReadFailed)))
    decreases j - i
  {
    if i < j {
      assert Fits(room, held, 1) && Fits(room, held + 1, j - (i + 1));
      ReadFailureStopsTheLoop(es, i + 1, j, ending, mtime, prefix, room, held + 1);
      FramedItemsCons(es, i, j, mtime, prefix);
    } else {
      assert FramedItems(es[i..j], mtime, prefix) == [];
    }
  }

  /** When the sink refuses the member for entry `j` (having taken the members
      of every earlier entry), the write stops there: the earlier members
      stay in the sink, entry `j` is taken from the stream but not written,
      and the sink's refusal is returned. */
  lemma {:induction false} SinkRefusalStopsTheWrite(es: seq<Entry>, i: nat, j: nat, ending: Ending, mtime: Option<nat>,
                                                    prefix: Option<Bytes>, room: Option<nat>, held: nat)
    requires i <= j < |es|
    requires forall m :: i <= m <= j ==> es[m].contentEnding.Clean?
    requires room.Some? && held + (j - i) == room.value
    ensures TarRun(es, i, ending, mtime, prefix, room, held)
         == Run(FramedItems(es[i..j], mtime, prefix), j - i + 1, Err(Io(WriteFailed)))
    decreases j - i
  {
    if i < j {
      SinkRefusalStopsTheWrite(es, i + 1, j, ending, mtime, prefix, room, held + 1);
      FramedItemsCons(es, i, j, mtime, prefix);
    } else {
      assert FramedItems(es[i..j], mtime, prefix) == [];
    }
  }

  /** Every member of every run is well framed (declared size equals body
      length, symlinks carry no body) and carries the same modification time. */
  lemma MembersWellFramed(es: seq<Entry>, i: nat, ending: Ending, mtime: Option<nat>,
                          prefix: Option<Bytes>, room: Option<nat>, held: nat)
    requires i <= |es|
    ensures var r := TarRun(es, i, ending, mtime, prefix, room, held);
      forall k :: 0 <= k < |r.items| && r.items[k].Member? ==>
        WellFramed(r.items[k].record) && r.items[k].record.header.mtime == mtime
  {
    RunAppendsInStreamOrder(es, i, ending, mtime, prefix, room, held);
    var r := TarRun(es, i, ending, mtime, prefix, room, held);
    forall k | 0 <= k < |r.items| && r.items[k].Member?
      ensures WellFramed(r.items[k].record) && r.items[k].record.header.mtime == mtime
    {
      FrameMember(es[i + k], mtime, prefix);
    }
  }

  /** The archived path splits back into the prefix and the relative path:
      the prefix is neither cut nor extended by a separator. */
  lemma AddPrefixSplits(relativePath: Bytes, prefix: Bytes)
    ensures var p := AddPrefix(relativePath, Some(prefix));
      p[..|prefix|] == prefix && p[|prefix|..] == relativePath
  {
  }

  /** With one prefix, distinct relative paths stay distinct archived paths. */
  lemma AddPrefixInjective(a: Bytes, b: Bytes, prefix: Option<Bytes>)
    requires AddPrefix(a, prefix) == AddPrefix(b, prefix)
    ensures a == b
  {
    if prefix.Some? {
      AddPrefixSplits(a, prefix.value);
      AddPrefixSplits(b, prefix.value);
    }
  }
}
