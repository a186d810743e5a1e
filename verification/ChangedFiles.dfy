/** A small file that changes while it is read, and what becomes of the backup. */
module ChangedFiles {
  import opened Base
  import opened Records
  import opened Segments
  import opened Pack
  import opened Manifests
  import opened PutSpec
  import opened Canonical
  import opened Walked
  import opened Scan
  import Chunking
  import Pipeline

  const PATH: Bytes := [0x61]  // "a"

  /** One byte at the first look, changed while it is read, and two bytes at the second reading. */
  function Growing(first: Attrs, again: Attrs): Found {
    Found(PATH, File, 1, first, k => if k == 0 then Changed([7]) else Whole(again, [7, 8]))
  }

  function Grown(first: Attrs, again: Attrs): Item { Item(PATH, File, 1, first, [7, 8], again, true) }

  const OPTIONS := Options(true, 0, 0).Normalized()

  lemma GrowingIsGrown(first: Attrs, again: Attrs)
    ensures Growing(first, again).Ok() && !Fatal(Growing(first, again))
    ensures ItemOf(OPTIONS, Growing(first, again)) == Some(Grown(first, again)) && !Grown(first, again).Settled() && Grown(first, again).path == PATH
    ensures Items(OPTIONS, [Growing(first, again)]) == [Grown(first, again)]
  {
    var f := Growing(first, again);
    FinalStep(f.readings, 0);
    FinalStep(f.readings, 1);
    assert [f][..0] == [];
    assert Items(OPTIONS, []) == [];
  }

  lemma PathIsClean()
    ensures IsClean(PATH)
  {
    assert PATH[1..] == [] && Components([]) == [[]];
    var rest := Components([]);
    assert rest == [[]] && [PATH[0]] + rest[0] == PATH && rest[1..] == [];
    assert Components(PATH) == [PATH] && [PATH][1..] == [];
  }

  lemma GrownPacks(first: Attrs, again: Attrs)
    ensures Small([Grown(first, again)]) == [Grown(first, again)] && Packable([Grown(first, again)]) && EachPathOnce([Grown(first, again)])
    ensures var files := PackFiles([Grown(first, again)]); EncodeSpec(files).Ok? && |EncodeSpec(files).value.0| < 1000
  {
    var g := Grown(first, again);
    var files := PackFiles([g]);
    assert [g][..0] == [] && Small([]) == [];
    assert files == [g.PackFile()] && files[..0] == [] && files[1..] == [];
    PathIsClean();
    assert FileError(files[0]).None? && FirstError([]).None?;
    assert FirstError(files).None?;
    assert HeaderLen([]) == |Pack.MAGIC| + 4;
    assert HeaderLen(files) == HeaderLen(files[..0]) + EntryLen(files[0].path);
    assert Datas(files) == [[7, 8]] && Flatten([[7, 8]]) == [7, 8] + Flatten([[7, 8]][1..]);
    PackLayout(files);
  }

  function PackData(first: Attrs, again: Attrs): Bytes {
    match EncodeSpec(PackFiles([Grown(first, again)]))
    case Ok(encoded) => encoded.0
    case Err(_) => []
  }

  /** The chunks that can come up. */
  ghost function Universe(ch: Chunking.Chunker, first: Attrs, again: Attrs): set<Bytes> {
    ToSet(Chunking.Chunks(ch, [7])) + ToSet(Chunking.Chunks(ch, [7, 8])) + ToSet(Chunking.Chunks(ch, PackData(first, again)))
  }

  lemma ChunkIsNoLonger(ch: Chunking.Chunker, data: Bytes, x: Bytes)
    requires x in Chunking.Chunks(ch, data)
    ensures |x| <= |data|
  {
    hide Chunking.Chunks;
    var pieces := Chunking.Chunks(ch, data);
    var i :| 0 <= i < |pieces| && pieces[i] == x;
    Chunking.ChunksConcatenate(ch, data);
    FlattenAt(pieces, i);
  }

  lemma UniverseIsShort(ch: Chunking.Chunker, first: Attrs, again: Attrs)
    ensures forall x :: x in Universe(ch, first, again) ==> |x| < 1000
  {
    GrownPacks(first, again);
    hide Chunking.Chunks, EncodeSpec;
    forall x | x in Universe(ch, first, again) ensures |x| < 1000 {
      var data :| data in {[7], [7, 8], PackData(first, again)} && x in Chunking.Chunks(ch, data);
      ChunkIsNoLonger(ch, data, x);
    }
  }

  lemma UniverseCovers(ch: Chunking.Chunker, first: Attrs, again: Attrs)
    ensures ReadsIn(Universe(ch, first, again), ch, Growing(first, again).readings)
    ensures Covers(Universe(ch, first, again), ch, [Grown(first, again)])
  {
    hide Chunking.Chunks;
    var g := Grown(first, again);
    GrownPacks(first, again);
    forall i, j | 0 <= i <= j <= 1 ensures PackIn(Universe(ch, first, again), ch, [g][i..j]) {
      assert [g][i..j] == [] || [g][i..j] == [g];
      assert PackFiles([]) == [];
    }
  }

  /** A scan about to begin, with a server that answers properly. */
  method Begin(c: Crypto, ch: Chunking.Chunker, first: Attrs, again: Attrs) returns (b: BackupScanner)
    requires c.Sound() && Injective(c, Universe(ch, first, again))
    ensures fresh(b) && fresh(b.uploader) && b.Valid() && b.Smooth()
    ensures b.manifest == Draft([], []) && b.origins == Origins([], [], []) && b.pendingFiles == [] && b.packing == []
    ensures b.c == c && b.ch == ch && b.opts == OPTIONS && b.universe == Universe(ch, first, again)
  {
    hide Universe, Injective, Pipeline.BooksOk;
    var server := Pipeline.Server((k, batch) => Some(Batching.CheckResponse([], 1, [], [])),
                                  (k, sent) => Some(Batching.UploadResponse([], 1, Pipeline.AcksFor(sent))));
    var options := Pipeline.Options(0, 0, 0, 0, true, true, [], 0, false);
    Pipeline.TruthfulExample(options.Normalized(), server);
    hide Pipeline.Server.Truthful;
    var uploader := new Pipeline.PipelineBatcher(options, c.hash, server, map[], map[]);
    UniverseIsShort(ch, first, again);
    b := new BackupScanner(c, ch, Options(true, 0, 0), uploader, Universe(ch, first, again));
  }

  /** The scan ends well; the manifest lists a file of one byte whose data are two; no server takes it. */
  method RereadAndRefused(c: Crypto, ch: Chunking.Chunker, first: Attrs, again: Attrs) returns (b: BackupScanner, ok: bool)
    requires c.Sound() && Injective(c, Universe(ch, first, again))
    ensures ok && |b.manifest.entries| == 1 && b.manifest.entries[0].path == PATH
    ensures forall segs, index, id, v :: Verdict(c, segs, index, Manifest(id, b.manifest.packs, b.manifest.entries), v) ==> v.Err?
  {
    hide Universe, Verdict, EncodeSpec, Injective, BackupScanner.Smooth, ReadsIn, Covers, Packable, EachPathOnce, Growing, Grown, EntryListOk,
         BackupScanner.UploaderOk, BackupScanner.EntriesUnderWay, PackListOk, BackupScanner.PackingOk, PacksWithin;
    b := Begin(c, ch, first, again);
    GrownPacks(first, again);
    GrowingIsGrown(first, again);
    UniverseCovers(ch, first, again);
    var found := [Growing(first, again)];
    assert Flatten([found]) == found;
    ok := b.Scan([found]);
    OneItem(b.origins.items, Grown(first, again));
    forall segs, index, id, v | Verdict(c, segs, index, Manifest(id, b.manifest.packs, b.manifest.entries), v) ensures v.Err? {
      if v.Ok? { UnsettledIsRefused(c, ch, segs, index, b.manifest, b.origins, id, v.value); }
    }
    ListedPath(c, ch, b.manifest, b.origins, Grown(first, again));
  }

  lemma OneItem(items: seq<Item>, g: Item)
    requires multiset(items) == multiset([g])
    ensures items == [g]
  {
    assert |items| == |multiset(items)| == |multiset([g])| == 1;
    assert items[0] in multiset(items);
  }

  lemma ListedPath(c: Crypto, ch: Chunking.Chunker, m: Draft, o: Origins, g: Item)
    requires EntryListOk(c, ch, m, o) && o.items == [g]
    ensures |m.entries| == 1 && m.entries[0].path == g.path
  {
    assert Says(c, ch, m.packs, o.packs, m.entries[0], o.entries[0], o.items[0]);
  }
}
