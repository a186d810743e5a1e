/** The agent's scan: files are chunked and handed to the uploader, small ones are packed first, and the
    manifest lists an entry once none of its chunks is outstanding. */
module Scan {
  import opened Base
  import opened Records
  import opened Segments
  import opened Pack
  import opened Manifests
  import opened PutSpec
  import opened Batching
  import opened Canonical
  import opened EndToEnd
  import opened Walked
  import Chunking
  import Pipeline

  /** A file whose chunks have all been handed over. */
  datatype PendingFile = PendingFile(id: nat, path: Bytes, attrs: Attrs, size: int64)

  /** The manifest so far. */
  datatype Draft = Draft(packs: seq<PackManifest>, entries: seq<FileEntry>)

  /** Where it came from. */
  datatype Origins = Origins(packs: seq<PackSource>, entries: seq<EntrySource>, items: seq<Item>)

  const PACK_PREFIX: Bytes := [0x70, 0x61, 0x63, 0x6B, 0x2D]  // "pack-"
  const DASH: byte := 0x2D

  /** Two digits a byte. */
  function Hex(data: Bytes): (r: Bytes)
    ensures |r| == 2 * |data|
  {
    if data == [] then [] else [HexDigit(data[0] / 16), HexDigit(data[0] % 16)] + Hex(data[1..])
  }

  function HexDigit(n: nat): byte
    requires n < 16
  {
    if n < 10 then 0x30 + n else 0x61 + n - 10
  }

  /** The pack's number, and the first digits of its digest; the number alone tells packs apart. */
  function PackId(number: nat, digest: Bytes): Bytes { PACK_PREFIX + Decimal(number) + [DASH] + digest }

  function BeforeDash(s: Bytes): Bytes {
    if s == [] || s[0] == DASH then [] else [s[0]] + BeforeDash(s[1..])
  }

  lemma {:induction false} BeforeDashIs(x: Bytes, rest: Bytes)
    requires DASH !in x
    ensures BeforeDash(x + [DASH] + rest) == x
  {
    var s := x + [DASH] + rest;
    if x != [] {
      BeforeDashIs(x[1..], rest);
      assert s[1..] == x[1..] + [DASH] + rest;
    }
  }

  lemma PackIdsDiffer(a: nat, da: Bytes, b: nat, db: Bytes)
    requires PackId(a, da) == PackId(b, db)
    ensures a == b
  {
    hide Decimal;
    var x, y := Decimal(a), Decimal(b);
    var rest := PackId(a, da)[5..];
    assert rest == x + [DASH] + da;
    assert rest == y + [DASH] + db;
    BeforeDashIs(x, da);
    BeforeDashIs(y, db);
    DecimalIsInjective(a, b);
  }

  lemma PackIdNotBlank(number: nat, digest: Bytes)
    ensures !Blank(PackId(number, digest))
  {
    assert PackId(number, digest)[0] == 0x70;
  }

  /** The slots of an entry whose data has been handed over. */
  function SlotsOf(c: Crypto, pieces: seq<Bytes>): (r: seq<Slot>)
    ensures |r| == |pieces|
  {
    seq(|pieces|, i requires 0 <= i < |pieces| => Filled(Ref(c.hash(pieces[i]), |pieces[i]|)))
  }

  /** The refs a manifest entry gets from its slots: a digest and a size, the rest is the server's to fill in. */
  function ChunkRefOf(s: Slot): ChunkRef {
    match s
    case Unfilled => ChunkRef([], 0, 0, 0, 0, 0, 0)
    case Filled(ref) => ChunkRef(ref.hash, 0, 0, 0, ref.size, 0, 0)
  }

  function ChunkRefs(slots: seq<Slot>): (r: seq<ChunkRef>)
    ensures |r| == |slots|
  {
    seq(|slots|, i requires 0 <= i < |slots| => ChunkRefOf(slots[i]))
  }

  lemma RefsNameChunks(c: Crypto, ch: Chunking.Chunker, data: Bytes)
    ensures ChunksOf(c, ch, ChunkRefs(SlotsOf(c, Chunking.Chunks(ch, data))), data)
  {
    hide Chunking.Chunks;
  }

  /** The entry stands for the item. That of a small file is one the server would take only if its size is right. */
  ghost predicate Says(c: Crypto, ch: Chunking.Chunker, packs: seq<PackManifest>, packSources: seq<PackSource>,
                       e: FileEntry, s: EntrySource, item: Item) {
    && e.path == item.path && e.attrs == item.attrs && e.size == item.size
    && (item.Settled() ==> HonestEntry(c, ch, packs, packSources, e, s))
    && match s
       case NoData => e.kind == item.kind && item.data == [] && item.kind != File
       case FileData(data) => item.kind == File && data == item.data && item.Settled()
       case PackedData(k, j) =>
         && item.kind == File && k < |packSources| && j < |packSources[k]| && packSources[k][j].data == item.data
         && e.kind == PackedFile && e.pack.Some? && e.pack.value.length == |item.data|
  }

  /** Every entry stands for its item, and no path is there twice. */
  ghost predicate EntryListOk(c: Crypto, ch: Chunking.Chunker, m: Draft, o: Origins) {
    && |o.packs| == |m.packs| && |o.entries| == |o.items| == |m.entries|
    && (forall i, j :: 0 <= i < j < |m.entries| ==> m.entries[i].path != m.entries[j].path)
    && forall i :: 0 <= i < |m.entries| ==> Says(c, ch, m.packs, o.packs, m.entries[i], o.entries[i], o.items[i])
  }

  ghost predicate PackListOk(c: Crypto, ch: Chunking.Chunker, packs: seq<PackManifest>, sources: seq<PackSource>, next: nat) {
    && |sources| == |packs|
    && (forall i, j :: 0 <= i < j < |packs| ==> packs[i].id != packs[j].id)
    && (forall i :: 0 <= i < |packs| ==> HonestPack(c, ch, packs[i], sources[i]))
    && (forall i :: 0 <= i < |packs| ==> Numbered(packs[i].id, next))
  }

  ghost predicate Numbered(id: Bytes, next: nat) {
    exists n: nat, d: Bytes :: n < next && id == PackId(n, d)
  }

  function IdsOf(packs: seq<PackManifest>): set<Bytes> { set i | 0 <= i < |packs| :: packs[i].id }

  lemma IdsMore(packs: seq<PackManifest>, p: PackManifest)
    ensures IdsOf(packs + [p]) == IdsOf(packs) + {p.id}
  {
    var packs' := packs + [p];
    forall id | id in IdsOf(packs) + {p.id} ensures id in IdsOf(packs') {
      if id == p.id { assert packs'[|packs|].id == id; }
      else {
        var i :| 0 <= i < |packs| && packs[i].id == id;
        assert packs'[i].id == id;
      }
    }
  }

  function PathsOf(entries: seq<FileEntry>): set<Bytes> { set i | 0 <= i < |entries| :: entries[i].path }

  function Extended(m: Draft, e: FileEntry): Draft { m.(entries := m.entries + [e]) }

  ghost function Originating(o: Origins, s: EntrySource, item: Item): Origins {
    o.(entries := o.entries + [s], items := o.items + [item])
  }

  lemma EntriesMore(c: Crypto, ch: Chunking.Chunker, m: Draft, o: Origins, e: FileEntry, s: EntrySource, item: Item)
    requires EntryListOk(c, ch, m, o) && Says(c, ch, m.packs, o.packs, e, s, item) && e.path !in PathsOf(m.entries)
    ensures EntryListOk(c, ch, Extended(m, e), Originating(o, s, item))
    ensures PathsOf(Extended(m, e).entries) == PathsOf(m.entries) + {e.path}
  {
    hide Says;
    var m' := Extended(m, e);
    forall i, j | 0 <= i < j < |m'.entries| ensures m'.entries[i].path != m'.entries[j].path {
      assert m.entries[i].path in PathsOf(m.entries);
    }
    forall p | p in PathsOf(m.entries) + {e.path} ensures p in PathsOf(m'.entries) {
      if p == e.path { assert m'.entries[|m.entries|].path == p; }
      else {
        var i :| 0 <= i < |m.entries| && m.entries[i].path == p;
        assert m'.entries[i].path == p;
      }
    }
  }

  lemma SaysMorePacks(c: Crypto, ch: Chunking.Chunker, m: Draft, o: Origins, p: PackManifest, files: PackSource, i: nat)
    requires EntryListOk(c, ch, m, o) && i < |m.entries|
    ensures Says(c, ch, m.packs + [p], o.packs + [files], m.entries[i], o.entries[i], o.items[i])
  {
    hide ChunksOf, EncodeSpec;
    assert Says(c, ch, m.packs, o.packs, m.entries[i], o.entries[i], o.items[i]);
  }

  lemma EntriesMorePacks(c: Crypto, ch: Chunking.Chunker, m: Draft, o: Origins, p: PackManifest, files: PackSource)
    requires EntryListOk(c, ch, m, o)
    ensures EntryListOk(c, ch, m.(packs := m.packs + [p]), o.(packs := o.packs + [files]))
  {
    hide Says;
    forall i | 0 <= i < |m.entries| ensures Says(c, ch, m.packs + [p], o.packs + [files], m.entries[i], o.entries[i], o.items[i]) {
      SaysMorePacks(c, ch, m, o, p, files, i);
    }
  }

  lemma PacksMore(c: Crypto, ch: Chunking.Chunker, packs: seq<PackManifest>, sources: seq<PackSource>, next: nat,
                  p: PackManifest, files: PackSource, d: Bytes)
    requires PackListOk(c, ch, packs, sources, next) && HonestPack(c, ch, p, files) && p.id == PackId(next, d)
    ensures PackListOk(c, ch, packs + [p], sources + [files], next + 1)
  {
    hide HonestPack, PackId;
    NewId(packs, next, d);
    assert Numbered(p.id, next + 1);
  }

  lemma NumbersGrow(c: Crypto, ch: Chunking.Chunker, packs: seq<PackManifest>, sources: seq<PackSource>, next: nat)
    requires PackListOk(c, ch, packs, sources, next)
    ensures PackListOk(c, ch, packs, sources, next + 1)
  {
    hide HonestPack, PackId;
    NewId(packs, next, []);
  }

  lemma NewId(packs: seq<PackManifest>, next: nat, d: Bytes)
    requires forall i :: 0 <= i < |packs| ==> Numbered(packs[i].id, next)
    ensures forall i :: 0 <= i < |packs| ==> packs[i].id != PackId(next, d) && Numbered(packs[i].id, next + 1)
  {
    hide PackId;
    forall i | 0 <= i < |packs| ensures packs[i].id != PackId(next, d) && Numbered(packs[i].id, next + 1) {
      assert Numbered(packs[i].id, next);
      var n: nat, d': Bytes :| n < next && packs[i].id == PackId(n, d');
      if packs[i].id == PackId(next, d) { PackIdsDiffer(n, d', next, d); }
    }
  }

  /** Each directory, link and file is listed, or waits for its chunks, or waits for its pack. */
  ghost predicate Accounted(walked: seq<Item>, listed: seq<Item>, waiting: seq<Item>, packing: seq<Item>) {
    multiset(walked) == multiset(listed) + multiset(waiting) + multiset(packing)
  }

  lemma AccountedMore(walked: seq<Item>, listed: seq<Item>, waiting: seq<Item>, packing: seq<Item>, more: seq<Item>, listed': seq<Item>, waiting': seq<Item>)
    requires Accounted(walked, listed, waiting, packing) && Accounted(listed + waiting + more, listed', waiting', [])
    ensures Accounted(walked + more, listed', waiting', packing)
  {
    assert multiset(listed') + multiset(waiting') == multiset(listed) + multiset(waiting) + multiset(more) by {
      assert multiset(listed + waiting + more) == multiset(listed) + multiset(waiting) + multiset(more);
    }
    assert multiset(walked + more) == multiset(walked) + multiset(more);
  }

  lemma AccountedSame(listed: seq<Item>, waiting: seq<Item>, packing: seq<Item>)
    ensures Accounted(listed + waiting + packing, listed + waiting + packing, [], [])
    ensures Accounted(listed + waiting + [], listed, waiting, [])
  {
  }

  lemma AccountedListed(listed: seq<Item>, waiting: seq<Item>, item: Item)
    ensures Accounted(listed + waiting + [item], listed + [item], waiting, [])
  {
  }

  ghost predicate EachPathOnce(items: seq<Item>) { forall i, j :: 0 <= i < j < |items| ==> items[i].path != items[j].path }

  /** The same, whatever the order. */
  ghost predicate Once(items: multiset<Item>) {
    && (forall x :: x in items ==> items[x] == 1)
    && (forall x, y :: x in items && y in items && x.path == y.path ==> x == y)
  }

  lemma {:induction false} DistinctIsOnce(items: seq<Item>)
    ensures EachPathOnce(items) <==> Once(multiset(items))
  {
    if items != [] {
      var n := |items| - 1;
      var before, last := items[..n], items[n];
      DistinctIsOnce(before);
      assert items == before + [last];
      assert multiset(items) == multiset(before) + multiset{last};
      assert EachPathOnce(items) <==> EachPathOnce(before) && forall x :: x in before ==> x.path != last.path by {
        assert forall i :: 0 <= i < n ==> before[i] == items[i] && before[i] in before;
      }
      OnceSnoc(multiset(before), last);
    }
  }

  lemma OnceSnoc(before: multiset<Item>, last: Item)
    ensures Once(before + multiset{last}) <==> Once(before) && forall x :: x in before ==> x.path != last.path
  {
    var items := before + multiset{last};
    assert forall x :: items[x] == before[x] + (if x == last then 1 else 0);
    if Once(items) {
      forall x | x in before ensures x.path != last.path {
        assert x in items && last in items && items[last] == before[last] + 1;
      }
      assert forall x :: x in before ==> x in items;
    }
  }

  lemma OnceInPart(part: multiset<Item>, items: multiset<Item>)
    requires Once(items) && part <= items
    ensures Once(part)
  {
    assert forall x :: x in part ==> x in items && part[x] <= items[x];
  }

  /** What is listed has other paths. */
  lemma PathIsNew(c: Crypto, ch: Chunking.Chunker, m: Draft, o: Origins, item: Item)
    requires EntryListOk(c, ch, m, o) && Once(multiset(o.items + [item]))
    ensures item.path !in PathsOf(m.entries)
  {
    hide HonestEntry, Once;
    OnceSnoc(multiset(o.items), item);
    assert multiset(o.items + [item]) == multiset(o.items) + multiset{item};
    forall i | 0 <= i < |m.entries| ensures m.entries[i].path != item.path {
      assert Says(c, ch, m.packs, o.packs, m.entries[i], o.entries[i], o.items[i]);
      assert o.items[i] in o.items;
    }
  }

  /** Part of the walk, so its paths are distinct too. */
  lemma OnceSoFar(all: seq<Item>, walked: seq<Item>, part: seq<Item>)
    requires walked <= all && multiset(part) <= multiset(walked)
    ensures EachPathOnce(all) ==> Once(multiset(part))
  {
    hide Once;
    if EachPathOnce(all) {
      DistinctIsOnce(walked);
      OnceInPart(multiset(part), multiset(walked));
    }
  }

  lemma ListedArePart(walked: seq<Item>, listed: seq<Item>, waiting: seq<Item>, packing: seq<Item>)
    requires Accounted(walked, listed, waiting, packing)
    ensures multiset(listed + waiting + packing) <= multiset(walked)
    ensures multiset(listed + waiting) <= multiset(walked)
    ensures forall more: seq<Item> :: multiset(listed + waiting + more) <= multiset(walked + more)
    ensures forall item :: multiset(listed + [item]) <= multiset(walked + [item])
  {
  }

  /** All small files could be one pack. */
  ghost predicate Packable(items: seq<Item>) {
    Small(items) != [] ==> EncodeSpec(PackFiles(Small(items))).Ok?
  }

  /** The small files among the items, in order. */
  function Small(items: seq<Item>): (r: seq<Item>)
    ensures forall i :: 0 <= i < |r| ==> r[i].small
  {
    if items == [] then []
    else
      var n := |items| - 1;
      Small(items[..n]) + (if items[n].small then [items[n]] else [])
  }

  function PackFiles(items: seq<Item>): (r: seq<PackFile>)
    ensures |r| == |items|
  {
    seq(|items|, i requires 0 <= i < |items| => items[i].PackFile())
  }

  /** The bytes of data that go into a pack. */
  function DataSize(files: seq<PackFile>): nat { |Flatten(Datas(files))| }

  /** Packs of several files keep to the target. */
  ghost predicate PacksWithin(target: int, packs: seq<PackSource>) {
    forall k :: 0 <= k < |packs| && |packs[k]| > 1 ==> DataSize(packs[k]) <= target
  }

  lemma DataSizeSnoc(items: seq<Item>, item: Item)
    ensures DataSize(PackFiles(items + [item])) == DataSize(PackFiles(items)) + |item.data|
  {
    assert PackFiles(items + [item]) == PackFiles(items) + [item.PackFile()];
    assert Datas(PackFiles(items + [item])) == Datas(PackFiles(items)) + [item.data];
    FlattenSnoc(Datas(PackFiles(items)), item.data);
  }

  /** The chunks of every pack that the small files could make are in `universe`. */
  ghost predicate Covers(universe: set<Bytes>, ch: Chunking.Chunker, items: seq<Item>) {
    forall i, j :: 0 <= i <= j <= |Small(items)| ==> PackIn(universe, ch, Small(items)[i..j])
  }

  ghost predicate AllIn(universe: set<Bytes>, pieces: seq<Bytes>) { forall x :: x in pieces ==> x in universe }

  /** The chunks of whatever is read of the file are. */
  ghost predicate ReadsIn(universe: set<Bytes>, ch: Chunking.Chunker, readings: nat -> Reading) {
    forall k :: AllIn(universe, Chunking.Chunks(ch, readings(k).data))
  }

  ghost predicate PackIn(universe: set<Bytes>, ch: Chunking.Chunker, files: seq<Item>) {
    EncodeSpec(PackFiles(files)).Ok? ==> AllIn(universe, Chunking.Chunks(ch, EncodeSpec(PackFiles(files)).value.0))
  }

  /** The digest tells the chunks apart. */
  ghost predicate Injective(c: Crypto, universe: set<Bytes>) {
    forall a, b :: a in universe && b in universe && c.hash(a) == c.hash(b) ==> a == b
  }

  lemma {:induction false} SmallOfPrefix(items: seq<Item>, n: nat)
    requires n <= |items|
    ensures Small(items[..n]) <= Small(items)
    decreases |items|
  {
    if n < |items| {
      SmallOfPrefix(items[..|items| - 1], n);
      assert items[..|items| - 1][..n] == items[..n];
    } else {
      assert items[..n] == items;
    }
  }

  lemma SmallSnoc(items: seq<Item>, item: Item)
    ensures Small(items + [item]) == Small(items) + (if item.small then [item] else [])
  {
    assert (items + [item])[..|items|] == items;
  }

  /** The files waiting for their pack are the last small ones walked. */
  ghost predicate LastSmall(walked: seq<Item>, packing: seq<Item>) {
    |packing| <= |Small(walked)| && packing == Small(walked)[|Small(walked)| - |packing|..]
  }

  lemma LastSmallSame(walked: seq<Item>, packing: seq<Item>, item: Item)
    requires LastSmall(walked, packing) && !item.small
    ensures LastSmall(walked + [item], packing)
  {
    hide Small;
    SmallSnoc(walked, item);
  }

  lemma LastSmallIsCovered(universe: set<Bytes>, ch: Chunking.Chunker, all: seq<Item>, walked: seq<Item>, packing: seq<Item>)
    requires Covers(universe, ch, all) && walked <= all && LastSmall(walked, packing)
    ensures PackIn(universe, ch, packing)
  {
    hide PackIn, AllIn;
    SmallOfPrefix(all, |walked|);
    assert all[..|walked|] == walked;
    var small, some := Small(all), Small(walked);
    assert small[|some| - |packing|..|some|] == packing;
  }

  lemma LastSmallEncodes(all: seq<Item>, walked: seq<Item>, packing: seq<Item>)
    requires Packable(all) && walked <= all && LastSmall(walked, packing) && packing != []
    ensures EncodeSpec(PackFiles(packing)).Ok?
  {
    hide EncodeSpec, Small;
    SmallOfPrefix(all, |walked|);
    assert all[..|walked|] == walked;
    var small, some := Small(all), Small(walked);
    assert small[|some| - |packing|..|some|] == packing;
    PartEncodes(PackFiles(small), |some| - |packing|, |some|);
    PackFilesOfPart(small, |some| - |packing|, |some|);
  }

  lemma PackFilesOfPart(items: seq<Item>, i: nat, j: nat)
    requires i <= j <= |items|
    ensures PackFiles(items)[i..j] == PackFiles(items[i..j])
  {
    hide Item.PackFile;
  }

  /** A file that is empty by the time it is read cannot go into a pack. */
  lemma {:induction false} SmallHasData(all: seq<Item>, item: Item)
    requires Packable(all) && item in all && item.small
    ensures item.data != []
  {
    SmallMember(all, item);
    var i :| 0 <= i < |Small(all)| && Small(all)[i] == item;
    NoFileError(PackFiles(Small(all)));
    assert FileError(PackFiles(Small(all))[i]).None?;
  }

  lemma {:induction false} SmallMember(all: seq<Item>, item: Item)
    requires item in all && item.small
    ensures item in Small(all)
  {
    var n := |all| - 1;
    if item != all[n] {
      assert item in all[..n];
      SmallMember(all[..n], item);
    }
  }

  class BackupScanner {
    const c: Crypto
    const ch: Chunking.Chunker
    const opts: Options
    const uploader: Pipeline.PipelineBatcher
    ghost const universe: set<Bytes>
    var manifest: Draft
    var entryPaths: set<Bytes>
    var packIDs: set<Bytes>
    var pendingFiles: seq<PendingFile>   // files waiting for chunks
    var packing: seq<Item>               // small files waiting for their pack
    var packingBytes: nat
    var nextEntry: nat                   // each entry under way has its own number
    var nextPackIndex: nat
    ghost var origins: Origins
    ghost var waiting: seq<Item>         // the items of pendingFiles

    ghost predicate UploaderOk()
      reads uploader
    {
      && uploader.Valid() && !uploader.orphaned && uploader.digest == c.hash && c.Sound() && Injective(c, universe)
      && (forall h :: h in uploader.track.known ==> uploader.track.known[h] in universe && c.hash(uploader.track.known[h]) == h)
    }

    /** Nothing has failed, the server answers properly, and no chunk is too large to be sent. */
    ghost predicate Smooth()
      reads uploader
    {
      !uploader.failed && uploader.server.Truthful(uploader.opts) && forall x :: x in universe ==> uploader.Fits(x)
    }

    ghost predicate PendingOk(added: Batching.Entries, p: PendingFile, item: Item) {
      && p.path == item.path && p.attrs == item.attrs && p.size == item.size == |item.data| && item.kind == File
      && Slots(added, p.id) == SlotsOf(c, Chunking.Chunks(ch, item.data))
    }

    /** The entries under way have their numbers and slots; numbers to come are not in use. */
    ghost predicate EntriesUnderWay()
      reads this`pendingFiles, this`waiting, this`nextEntry, uploader
    {
      && |waiting| == |pendingFiles|
      && (forall i :: 0 <= i < |pendingFiles| ==> pendingFiles[i].id < nextEntry && PendingOk(uploader.track.added, pendingFiles[i], waiting[i]))
      && (forall e :: e >= nextEntry ==> Slots(uploader.track.added, e) == [])
    }

    ghost predicate ManifestOk()
      reads this`manifest, this`entryPaths, this`packIDs, this`origins, this`nextPackIndex
    {
      && EntryListOk(c, ch, manifest, origins) && entryPaths == PathsOf(manifest.entries)
      && PackListOk(c, ch, manifest.packs, origins.packs, nextPackIndex)
      && packIDs == IdsOf(manifest.packs)
    }

    /** What waits for its pack is counted, and several files keep to the target. */
    ghost predicate PackingOk()
      reads this`packing, this`packingBytes
    {
      packingBytes == DataSize(PackFiles(packing)) && (|packing| > 1 ==> packingBytes <= opts.targetSize)
    }

    ghost predicate Valid()
      reads this, uploader
    {
      && UploaderOk() && EntriesUnderWay() && ManifestOk() && PackingOk() && PacksWithin(opts.targetSize, origins.packs) && opts == opts.Normalized()
      && (forall i :: 0 <= i < |packing| ==> packing[i].Ok() && packing[i].small)
    }

    constructor (c: Crypto, ch: Chunking.Chunker, opts: Options, uploader: Pipeline.PipelineBatcher, ghost universe: set<Bytes>)
      requires c.Sound() && uploader.Valid() && !uploader.orphaned && uploader.digest == c.hash && Injective(c, universe)
      requires uploader.track.known == map[] && forall e :: Slots(uploader.track.added, e) == []
      ensures Valid() && manifest == Draft([], []) && origins == Origins([], [], []) && pendingFiles == [] && packing == []
      ensures this.c == c && this.ch == ch && this.opts == opts.Normalized() && this.uploader == uploader && this.universe == universe
    {
      hide Pipeline.BooksOk, Slots;
      this.c, this.ch, this.opts, this.uploader, this.universe := c, ch, opts.Normalized(), uploader, universe;
      manifest, entryPaths, packIDs, pendingFiles, packing, packingBytes := Draft([], []), {}, {}, [], [], 0;
      nextEntry, nextPackIndex, origins, waiting := 0, 0, Origins([], [], []), [];
    }

    /** Hands the chunks of `data` over, one by one, for the entry `id`. Those of a reading that is broken off
        are the first of them. */
    method AddChunks(data: Bytes, broken: bool, id: nat) returns (ok: bool)
      requires UploaderOk() && Slots(uploader.track.added, id) == [] && AllIn(universe, Chunking.Chunks(ch, data))
      modifies uploader
      ensures ok ==> UploaderOk() && (!broken ==> Slots(uploader.track.added, id) == SlotsOf(c, Chunking.Chunks(ch, data)))
      ensures ok ==> forall e :: e != id ==> Slots(uploader.track.added, e) == old(Slots(uploader.track.added, e))
      ensures old(Smooth()) ==> ok && Smooth()
    {
      hide AllIn, Pipeline.PipelineBatcher.Fits, Pipeline.BooksOk, Chunking.Chunks, Pipeline.Server.Truthful, Slots, Append;
      var pieces := Chunking.Split(ch, [data], broken);
      OneBlock(data);
      FirstAreIn(universe, pieces, Chunking.Chunks(ch, data));
      for i := 0 to |pieces|
        invariant UploaderOk() && Slots(uploader.track.added, id) == SlotsOf(c, pieces[..i])
        invariant forall e :: e != id ==> Slots(uploader.track.added, e) == old(Slots(uploader.track.added, e))
        invariant old(Smooth()) ==> Smooth()
      {
        assert pieces[i] in universe;
        assert pieces[..i + 1] == pieces[..i] + [pieces[i]];
        assert |c.hash(pieces[i])| == 32;
        ghost var added := uploader.track.added;
        var stats, good := uploader.Add(pieces[i], id);
        if !good { return false; }
        AppendedSlots(added, id, Filled(Ref(c.hash(pieces[i]), |pieces[i]|)));
        assert SlotsOf(c, pieces[..i + 1]) == SlotsOf(c, pieces[..i]) + [Filled(Ref(c.hash(pieces[i]), |pieces[i]|))];
      }
      assert pieces[..|pieces|] == pieces;
      ok := true;
    }

    static lemma FirstAreIn(universe: set<Bytes>, pieces: seq<Bytes>, all: seq<Bytes>)
      requires pieces <= all && AllIn(universe, all)
      ensures forall i :: 0 <= i < |pieces| ==> pieces[i] in universe
    {
      forall i | 0 <= i < |pieces| ensures pieces[i] in universe { assert all[i] in all; }
    }

    static lemma OneBlock(data: Bytes)
      ensures Flatten([data]) == data
    {
    }

    static lemma AppendedSlots(added: Batching.Entries, id: nat, slot: Slot)
      ensures Slots(Append(added, id, slot), id) == Slots(added, id) + [slot]
      ensures forall e :: e != id ==> Slots(Append(added, id, slot), e) == Slots(added, e)
    {
    }

    /** Lists an entry, unless its path is there already. */
    method AppendManifestEntry(e: FileEntry, ghost s: EntrySource, ghost item: Item) returns (ok: bool)
      requires EntryListOk(c, ch, manifest, origins) && entryPaths == PathsOf(manifest.entries)
      requires Says(c, ch, manifest.packs, origins.packs, e, s, item)
      modifies this`manifest, this`entryPaths, this`origins
      ensures ok <==> e.path !in PathsOf(old(manifest.entries))
      ensures ok ==> manifest == Extended(old(manifest), e) && origins == Originating(old(origins), s, item)
      ensures ok ==> EntryListOk(c, ch, manifest, origins) && entryPaths == PathsOf(manifest.entries)
    {
      hide EntryListOk, Says, PathsOf;
      if e.path in entryPaths { return false; }
      EntriesMore(c, ch, manifest, origins, e, s, item);
      entryPaths, manifest, origins := entryPaths + {e.path}, Extended(manifest, e), Originating(origins, s, item);
      ok := true;
    }

    /** Lists a file, whose slots are all filled. */
    method FinalizeFileEntry(p: PendingFile, ghost item: Item) returns (ok: bool)
      requires ManifestOk() && PendingOk(uploader.entries, p, item)
      modifies this`manifest, this`entryPaths, this`origins
      ensures ok ==> ManifestOk() && origins.items == old(origins.items) + [item]
      ensures ok ==> manifest.packs == old(manifest.packs) && origins.packs == old(origins.packs)
      ensures Once(multiset(old(origins.items) + [item])) ==> ok
    {
      hide EntryListOk, PackListOk, PathsOf, Slots, Once;
      if Once(multiset(origins.items + [item])) { PathIsNew(c, ch, manifest, origins, item); }
      var e := FileEntry(p.path, File, p.size, p.attrs, ChunkRefs(Slots(uploader.entries, p.id)), None);
      RefsNameChunks(c, ch, item.data);
      ok := AppendManifestEntry(e, FileData(item.data), item);
    }

    /** Asks whether an entry still waits for chunks; results that are there are applied on the way. */
    method Waits(id: nat) returns (waits: bool)
      requires UploaderOk()
      modifies uploader
      ensures UploaderOk() && uploader.track.added == old(uploader.track.added)
      ensures !waits ==> Slots(uploader.entries, id) == Slots(uploader.track.added, id)
      ensures old(uploader.byHash) == map[] ==> uploader.byHash == map[] && !waits
      ensures old(uploader.byHash) == map[] ==> forall x :: Slots(uploader.entries, x) == Slots(uploader.track.added, x)
      ensures old(Smooth()) ==> Smooth()
    {
      hide Pipeline.PipelineBatcher.Fits, Pipeline.Server.Truthful, Pipeline.PipelineBatcher.Valid, Slots;
      var ready: nat := *;
      waits := uploader.EntryPending(id, ready);
    }

    method KeepWaiting(p: PendingFile, ghost item: Item)
      requires EntriesUnderWay() && p.id < nextEntry && PendingOk(uploader.track.added, p, item)
      modifies this`pendingFiles, this`waiting
      ensures EntriesUnderWay() && waiting == old(waiting) + [item]
    {
      hide PendingOk, Slots;
      pendingFiles, waiting := pendingFiles + [p], waiting + [item];
    }

    /** Lists the file, or keeps it until its chunks are there. */
    method QueuePendingManifestFile(p: PendingFile, ghost item: Item) returns (ok: bool)
      requires Valid() && p.id < nextEntry && PendingOk(uploader.track.added, p, item)
      modifies this, uploader
      ensures ok ==> Valid() && Accounted(old(origins.items + waiting) + [item], origins.items, waiting, [])
      ensures packing == old(packing)
      ensures old(Smooth()) && Once(multiset(old(origins.items + waiting) + [item])) ==> ok && Smooth()
    {
      hide EntryListOk, PackListOk, PathsOf, Slots, SlotsOf, Pipeline.PipelineBatcher.Valid, Item.Ok, UploaderOk,
           Smooth, Once, ManifestOk, PackingOk, PacksWithin;
      if Once(multiset(origins.items + waiting + [item])) {
        OnceInPart(multiset(origins.items + [item]), multiset(origins.items + waiting + [item]));
      }
      var waits := Waits(p.id);
      if waits {
        KeepWaiting(p, item);
        return true;
      }
      ok := FinalizeFileEntry(p, item);
    }

    /** Hands a file's chunks over, then lists it or keeps it. */
    method UploadRegularFileOnce(item: Item) returns (ok: bool)
      requires Valid() && item.Ok() && item.kind == File && !item.small && AllIn(universe, Chunking.Chunks(ch, item.data))
      modifies this, uploader
      ensures ok ==> Valid() && Accounted(old(origins.items + waiting) + [item], origins.items, waiting, [])
      ensures packing == old(packing)
      ensures old(Smooth()) && Once(multiset(old(origins.items + waiting) + [item])) ==> ok && Smooth()
    {
      hide EntryListOk, PackListOk, PathsOf, Slots, SlotsOf, Pipeline.BooksOk, Pipeline.Server.Truthful, AllIn, Smooth, Once;
      var id := nextEntry;
      nextEntry := nextEntry + 1;
      ok := AddChunks(item.data, false, id);
      if !ok { return; }
      ok := QueuePendingManifestFile(PendingFile(id, item.path, item.attrs, |item.data|), item);
    }

    /** Hands over what was read of a file that changed or failed before its end; it is never listed. */
    method AbandonReading(read: Bytes) returns (ok: bool)
      requires Valid() && AllIn(universe, Chunking.Chunks(ch, read))
      modifies this`nextEntry, uploader
      ensures ok ==> Valid()
      ensures old(Smooth()) ==> ok && Smooth()
    {
      hide UploaderOk, ManifestOk, PackingOk, PacksWithin, Slots, SlotsOf, AllIn, Smooth, Item.Ok;
      var id := nextEntry;
      nextEntry := nextEntry + 1;
      ok := AddChunks(read, true, id);
    }

    /** Reads and uploads a file. One that changes is read again, a few times, with a fresh size and fresh
        attributes; one that keeps changing is passed over. */
    method UploadRegularFile(f: Found) returns (ok: bool)
      requires Valid() && f.Found? && f.kind == File && f.Ok() && !opts.Eligible(f.size) && ReadsIn(universe, ch, f.readings)
      modifies this, uploader
      ensures packing == old(packing)
      ensures ok ==> Valid() && Accounted(old(origins.items + waiting) + Listed(ItemOf(opts, f)), origins.items, waiting, []) && !Fatal(f)
      ensures old(Smooth()) && !Fatal(f) && Once(multiset(old(origins.items + waiting) + Listed(ItemOf(opts, f)))) ==> ok && Smooth()
    {
      hide Valid, Once, Smooth, AllIn, Accounted, Final;
      AccountedSame(origins.items, waiting, []);
      var attempt: nat := 0;
      while true
        invariant attempt <= MAX_RETRIES && Valid() && Final(f.readings, attempt) == Final(f.readings, 0)
        invariant origins == old(origins) && waiting == old(waiting) && packing == old(packing)
        invariant old(Smooth()) ==> Smooth()
        decreases MAX_RETRIES - attempt
      {
        FinalStep(f.readings, attempt);
        match f.readings(attempt)
        case Whole(attrs, data) =>
          ok := UploadRegularFileOnce(Item(f.path, File, |data|, attrs, data, attrs, false));
          return;
        case Changed(data) =>
          ok := AbandonReading(data);
          if !ok || attempt >= MAX_RETRIES { return; }
          attempt := attempt + 1;
        case Unreadable(data, skipped) =>
          ok := AbandonReading(data);
          ok := ok && skipped;
          return;
      }
    }

    /** Waits for all chunks. */
    method FlushUploader() returns (ok: bool)
      requires UploaderOk()
      modifies uploader
      ensures UploaderOk() && uploader.track.added == old(uploader.track.added)
      ensures ok ==> uploader.byHash == map[] && forall e :: Slots(uploader.entries, e) == Slots(uploader.track.added, e)
      ensures old(Smooth()) ==> ok && Smooth()
    {
      hide Pipeline.PipelineBatcher.Fits, Pipeline.PipelineBatcher.Valid, Pipeline.Server.Truthful, Slots;
      var stats, good := uploader.Flush();
      ok := good;
    }

    /** Lists a file, unless it still waits; with nothing outstanding none does. */
    method ListDone(p: PendingFile, ghost item: Item) returns (waits: bool, ok: bool)
      requires UploaderOk() && ManifestOk() && uploader.byHash == map[] && PendingOk(uploader.track.added, p, item)
      modifies this`manifest, this`entryPaths, this`origins, uploader
      ensures UploaderOk() && uploader.track.added == old(uploader.track.added) && uploader.byHash == map[] && !waits
      ensures forall e :: Slots(uploader.entries, e) == Slots(uploader.track.added, e)
      ensures ok ==> ManifestOk() && origins.items == old(origins.items) + [item]
      ensures ok ==> manifest.packs == old(manifest.packs) && origins.packs == old(origins.packs)
      ensures old(Smooth()) ==> Smooth()
      ensures Once(multiset(old(origins.items) + [item])) ==> ok
    {
      hide Slots, SlotsOf, Once, Smooth, UploaderOk, ManifestOk;
      ok := true;
      waits := Waits(p.id);
      if !waits { ok := FinalizeFileEntry(p, item); }
    }

    /** Lists the files that were waiting. */
    method ListAllDone(files: seq<PendingFile>, ghost items: seq<Item>) returns (remaining: seq<PendingFile>, ok: bool)
      requires UploaderOk() && ManifestOk() && uploader.byHash == map[] && |items| == |files|
      requires forall i :: 0 <= i < |files| ==> PendingOk(uploader.track.added, files[i], items[i])
      modifies this`manifest, this`entryPaths, this`origins, uploader
      ensures UploaderOk() && uploader.track.added == old(uploader.track.added) && remaining == []
      ensures files != [] ==> forall e :: Slots(uploader.entries, e) == Slots(uploader.track.added, e)
      ensures files == [] ==> uploader.entries == old(uploader.entries)
      ensures ok ==> ManifestOk() && origins.items == old(origins.items) + items
      ensures ok ==> manifest.packs == old(manifest.packs) && origins.packs == old(origins.packs)
      ensures old(Smooth()) ==> Smooth()
      ensures Once(multiset(old(origins.items) + items)) ==> ok
    {
      hide Slots, Once, Smooth, UploaderOk, ManifestOk, PendingOk;
      remaining, ok := [], true;
      for i := 0 to |files|
        invariant UploaderOk() && ManifestOk() && uploader.track.added == old(uploader.track.added) && uploader.byHash == map[]
        invariant i > 0 ==> forall e :: Slots(uploader.entries, e) == Slots(uploader.track.added, e)
        invariant i == 0 ==> uploader.entries == old(uploader.entries)
        invariant remaining == [] && ok && origins.items == old(origins.items) + items[..i]
        invariant manifest.packs == old(manifest.packs) && origins.packs == old(origins.packs)
        invariant old(Smooth()) ==> Smooth()
      {
        OnceInList(origins.items, old(origins.items), items, i);
        var p, waits := files[i], false;
        waits, ok := ListDone(p, items[i]);
        if !ok { return; }
        if waits { remaining := remaining + [p]; }
        assert items[..i + 1] == items[..i] + [items[i]];
      }
      assert items[..|files|] == items;
    }

    /** Waits for all chunks, and lists the files that were waiting. */
    method FlushPendingFiles() returns (ok: bool)
      requires Valid()
      modifies this`manifest, this`entryPaths, this`origins, this`pendingFiles, this`waiting, uploader
      ensures ok ==> Valid() && pendingFiles == [] && waiting == [] && origins.items == old(origins.items + waiting)
      ensures ok ==> forall e :: Slots(uploader.entries, e) == old(Slots(uploader.track.added, e))
      ensures ok ==> manifest.packs == old(manifest.packs) && origins.packs == old(origins.packs)
      ensures old(Smooth()) && Once(multiset(old(origins.items + waiting))) ==> ok && Smooth()
    {
      hide Slots, Item.Ok, Once, Smooth, UploaderOk, ManifestOk, PendingOk;
      ok := FlushUploader();
      if !ok { return; }
      var remaining;
      remaining, ok := ListAllDone(pendingFiles, waiting);
      if ok { pendingFiles, waiting := remaining, []; }
    }

    static lemma OnceInList(listed: seq<Item>, before: seq<Item>, more: seq<Item>, i: nat)
      requires i < |more| && listed == before + more[..i]
      ensures Once(multiset(before + more)) ==> Once(multiset(listed + [more[i]]))
    {
      hide Once;
      assert more == more[..i] + [more[i]] + more[i + 1..];
      if Once(multiset(before + more)) { OnceInPart(multiset(listed + [more[i]]), multiset(before + more)); }
    }

    /** Adds a pack to the manifest, unless its id is there. */
    method AppendPackManifest(pack: PackManifest, ghost files: PackSource)
      requires EntryListOk(c, ch, manifest, origins) && packIDs == IdsOf(manifest.packs) && pack.id !in packIDs
      modifies this`manifest, this`packIDs, this`origins
      ensures manifest == old(manifest).(packs := old(manifest).packs + [pack])
      ensures origins == old(origins).(packs := old(origins).packs + [files])
      ensures EntryListOk(c, ch, manifest, origins) && packIDs == IdsOf(manifest.packs)
    {
      hide EntryListOk, IdsOf;
      if pack.id !in packIDs {
        EntriesMorePacks(c, ch, manifest, origins, pack, files);
        IdsMore(manifest.packs, pack);
        packIDs, manifest := packIDs + {pack.id}, manifest.(packs := manifest.packs + [pack]);
        origins := origins.(packs := origins.packs + [files]);
      }
    }

    /** Lists the files of the last pack. */
    method ListPacked(pending: seq<Item>, packID: Bytes, indexes: seq<PackIndex>) returns (ok: bool)
      requires EntryListOk(c, ch, manifest, origins) && entryPaths == PathsOf(manifest.entries)
      requires |manifest.packs| == |origins.packs| > 0 && manifest.packs[|manifest.packs| - 1].id == packID
      requires origins.packs[|manifest.packs| - 1] == PackFiles(pending)
      requires EncodeSpec(PackFiles(pending)).Ok? && EncodeSpec(PackFiles(pending)).value.1 == indexes
      requires forall i :: 0 <= i < |pending| ==> pending[i].Ok() && pending[i].kind == File
      modifies this`manifest, this`entryPaths, this`origins
      ensures ok ==> manifest.packs == old(manifest.packs) && origins.packs == old(origins.packs)
      ensures ok ==> EntryListOk(c, ch, manifest, origins) && entryPaths == PathsOf(manifest.entries)
      ensures ok ==> origins.items == old(origins.items) + pending
      ensures ok ==> forall i, j :: 0 <= i < j < |pending| ==> pending[i].path != pending[j].path
      ensures Once(multiset(old(origins.items) + pending)) ==> ok
    {
      hide EntryListOk, Says, PathsOf, EncodeSpec, Item.PackFile, Once;
      ghost var n := |manifest.entries|;
      ghost var k := |manifest.packs| - 1;
      assert |indexes| == |pending| by { IndexPerFile(PackFiles(pending)); }
      for i := 0 to |pending|
        invariant manifest.packs == old(manifest.packs) && origins.packs == old(origins.packs)
        invariant EntryListOk(c, ch, manifest, origins) && entryPaths == PathsOf(manifest.entries)
        invariant origins.items == old(origins.items) + pending[..i] && |manifest.entries| == n + i
        invariant forall j :: 0 <= j < i ==> manifest.entries[n + j].path == pending[j].path
      {
        var item := pending[i];
        var e := FileEntry(item.path, PackedFile, item.size, item.attrs, [], Some(PackFileRef(packID, indexes[i].offset, indexes[i].length)));
        SaysPacked(c, ch, manifest.packs, origins.packs, pending, i, e);
        OnceInList(origins.items, old(origins.items), pending, i);
        if Once(multiset(origins.items + [item])) { PathIsNew(c, ch, manifest, origins, item); }
        var good := AppendManifestEntry(e, PackedData(k, i), item);
        if !good { return false; }
        assert pending[..i + 1] == pending[..i] + [item];
      }
      assert pending[..|pending|] == pending;
      DistinctListed(c, ch, manifest, origins, n, pending);
      ok := true;
    }

    static lemma IndexPerFile(files: seq<PackFile>)
      requires EncodeSpec(files).Ok?
      ensures |EncodeSpec(files).value.1| == |files|
    {
      hide FirstError, PackLen, PackBytes;
    }

    static lemma SaysPacked(c: Crypto, ch: Chunking.Chunker, packs: seq<PackManifest>, packSources: seq<PackSource>, pending: seq<Item>, i: nat, e: FileEntry)
      requires |packs| == |packSources| > 0 && packSources[|packs| - 1] == PackFiles(pending) && EncodeSpec(PackFiles(pending)).Ok?
      requires |EncodeSpec(PackFiles(pending)).value.1| == |pending| && i < |pending| && pending[i].Ok() && pending[i].kind == File
      requires var index := EncodeSpec(PackFiles(pending)).value.1[i];
        e == FileEntry(pending[i].path, PackedFile, pending[i].size, pending[i].attrs, [], Some(PackFileRef(packs[|packs| - 1].id, index.offset, index.length)))
      ensures Says(c, ch, packs, packSources, e, PackedData(|packs| - 1, i), pending[i])
    {
      IndexHasLength(PackFiles(pending), i);
      hide EncodeSpec;
    }

    static lemma IndexHasLength(files: seq<PackFile>, i: nat)
      requires EncodeSpec(files).Ok? && i < |files| && |EncodeSpec(files).value.1| == |files|
      ensures EncodeSpec(files).value.1[i].length == |files[i].data|
    {
      hide FirstError, PackLen, PackBytes;
    }

    static lemma DistinctListed(c: Crypto, ch: Chunking.Chunker, m: Draft, o: Origins, n: nat, pending: seq<Item>)
      requires EntryListOk(c, ch, m, o) && |m.entries| == n + |pending|
      requires forall j :: 0 <= j < |pending| ==> m.entries[n + j].path == pending[j].path
      ensures forall i, j :: 0 <= i < j < |pending| ==> pending[i].path != pending[j].path
    {
      hide Says;
      forall i, j | 0 <= i < j < |pending| ensures pending[i].path != pending[j].path {
        assert m.entries[n + i].path != m.entries[n + j].path;
      }
    }

    /** Hands the pack's chunks over and waits for them. */
    method UploadPack(packData: Bytes) returns (ok: bool, slots: seq<Slot>)
      requires Valid() && AllIn(universe, Chunking.Chunks(ch, packData))
      modifies this`manifest, this`entryPaths, this`origins, this`pendingFiles, this`waiting, this`nextEntry, uploader
      ensures ok ==> Valid() && pendingFiles == [] && waiting == [] && origins.items == old(origins.items + waiting)
      ensures ok ==> slots == SlotsOf(c, Chunking.Chunks(ch, packData))
      ensures ok ==> manifest.packs == old(manifest.packs) && origins.packs == old(origins.packs)
      ensures old(Smooth()) && Once(multiset(old(origins.items + waiting))) ==> ok && Smooth()
    {
      hide EntryListOk, PackListOk, PathsOf, IdsOf, Slots, SlotsOf, Pipeline.PipelineBatcher.Valid, Item.Ok, AllIn,
           Smooth, Once;
      var id := nextEntry;
      nextEntry := nextEntry + 1;
      ok := AddChunks(packData, false, id);
      if !ok { return ok, []; }
      ok := FlushPendingFiles();
      slots := Slots(uploader.entries, id);
    }

    lemma HashLength(data: Bytes)
      requires UploaderOk()
      ensures |c.hash(data)| == 32
    {
    }

    /** Lists an uploaded pack and its files. */
    method ListPack(pending: seq<Item>, packData: Bytes, indexes: seq<PackIndex>, ghost number: nat, ghost d: Bytes, packID: Bytes, slots: seq<Slot>)
      returns (ok: bool)
      requires ManifestOk() && PackListOk(c, ch, manifest.packs, origins.packs, number) && nextPackIndex == number + 1 && packID == PackId(number, d)
      requires EncodeSpec(PackFiles(pending)) == Ok((packData, indexes)) && slots == SlotsOf(c, Chunking.Chunks(ch, packData))
      requires forall i :: 0 <= i < |pending| ==> pending[i].Ok() && pending[i].kind == File
      modifies this`manifest, this`entryPaths, this`packIDs, this`origins
      ensures ok ==> ManifestOk() && origins.items == old(origins.items) + pending
      ensures ok ==> origins.packs == old(origins.packs) + [PackFiles(pending)]
      ensures Once(multiset(old(origins.items) + pending)) ==> ok
    {
      hide EntryListOk, PackListOk, PathsOf, SlotsOf, EncodeSpec, PackId, HonestPack, Item.Ok, Once;
      ghost var packs, sources := manifest.packs, origins.packs;
      IdIsNew(c, ch, packs, sources, number, d);
      var pack := PackManifest(packID, PACK_FORMAT, ChunkRefs(slots));
      AppendPackManifest(pack, PackFiles(pending));
      ok := ListPacked(pending, packID, indexes);
      if ok {
        ListedPackIsHonest(c, ch, pack, pending, number, d);
        PacksMore(c, ch, packs, sources, number, pack, PackFiles(pending), d);
      }
    }

    static lemma IdIsNew(c: Crypto, ch: Chunking.Chunker, packs: seq<PackManifest>, sources: seq<PackSource>, number: nat, d: Bytes)
      requires PackListOk(c, ch, packs, sources, number)
      ensures PackId(number, d) !in IdsOf(packs) && |packs| == |sources|
    {
      hide HonestPack, PackId;
      NewId(packs, number, d);
    }

    static lemma ListedPackIsHonest(c: Crypto, ch: Chunking.Chunker, pack: PackManifest, pending: seq<Item>, number: nat, d: Bytes)
      requires EncodeSpec(PackFiles(pending)).Ok? && pack.id == PackId(number, d) && pack.format == PACK_FORMAT
      requires pack.chunks == ChunkRefs(SlotsOf(c, Chunking.Chunks(ch, EncodeSpec(PackFiles(pending)).value.0)))
      requires forall i, j :: 0 <= i < j < |pending| ==> pending[i].path != pending[j].path
      ensures HonestPack(c, ch, pack, PackFiles(pending))
    {
      hide EncodeSpec, SlotsOf, ChunksOf, PackId, Chunking.Chunks;
      RefsNameChunks(c, ch, EncodeSpec(PackFiles(pending)).value.0);
      PackIdNotBlank(number, d);
    }

    /** All that is under way may be listed next to what is, and what waits for its pack may be packed. */
    ghost predicate Fitting()
      reads this`origins, this`waiting, this`packing
    {
      Once(multiset(origins.items + waiting + packing)) && (packing != [] ==> EncodeSpec(PackFiles(packing)).Ok?)
    }

    /** The packs a flush makes. */
    static function Flushed(files: seq<Item>): seq<PackSource> { if files == [] then [] else [PackFiles(files)] }

    /** Makes a pack of the small files that wait for one, uploads it, and lists it and them. */
    method FlushPackFiles() returns (ok: bool)
      requires Valid() && PackIn(universe, ch, packing)
      modifies this, uploader
      ensures ok ==> Valid() && packing == [] && Accounted(old(origins.items + waiting + packing), origins.items, waiting, [])
      ensures ok ==> origins.packs == old(origins.packs) + Flushed(old(packing))
      ensures old(Smooth()) && old(Fitting()) ==> ok && Smooth()
    {
      hide EntryListOk, PackListOk, PathsOf, IdsOf, Slots, SlotsOf, Pipeline.PipelineBatcher.Valid, Item.Ok, AllIn, UploaderOk, EncodeSpec,
           EntriesUnderWay, Accounted, PackId, Smooth, Once, Chunking.Chunks;
      AccountedSame(origins.items, waiting, packing);
      OnceInBoth(origins.items + waiting, packing);
      if |packing| == 0 { return true; }
      var pending := packing;
      SmallAreFiles(pending);
      packing, packingBytes := [], 0;
      var encoded := EncodePack(PackFiles(pending));
      if encoded.Err? { return false; }
      var (packData, indexes) := encoded.value;
      HashLength(packData);
      PackHasData(PackFiles(pending));
      var d := Hex(c.hash(packData))[..16];
      ghost var number := nextPackIndex;
      var packID := PackId(nextPackIndex, d);
      NumbersGrow(c, ch, manifest.packs, origins.packs, number);
      nextPackIndex := nextPackIndex + 1;
      var good, slots := UploadPack(packData);
      if !good || |slots| == 0 { return false; }
      ok := ListPack(pending, packData, indexes, number, d, packID, slots);
    }

    static lemma SmallAreFiles(items: seq<Item>)
      requires forall i :: 0 <= i < |items| ==> items[i].Ok() && items[i].small
      ensures forall i :: 0 <= i < |items| ==> items[i].kind == File
    {
    }

    static lemma OnceInBoth(a: seq<Item>, b: seq<Item>)
      ensures Once(multiset(a + b)) ==> Once(multiset(a))
    {
      hide Once;
      if Once(multiset(a + b)) { OnceInPart(multiset(a), multiset(a + b)); }
    }

    static lemma PackHasData(files: seq<PackFile>)
      requires EncodeSpec(files).Ok?
      ensures EncodeSpec(files).value.0 != []
    {
      hide FirstError, PackLen;
    }

    /** What holds while the walk goes on: `walked` are the items so far, of `all`. */
    ghost predicate Walking(walked: seq<Item>, all: seq<Item>)
      reads this, uploader
    {
      && Valid() && Covers(universe, ch, all) && walked <= all
      && Accounted(walked, origins.items, waiting, packing) && LastSmall(walked, packing)
    }

    /** Nothing in the walk stands in the way of listing it all. */
    ghost predicate Listable(all: seq<Item>) { EachPathOnce(all) && Packable(all) }

    /** The pack in the making is flushed before `item` would take it past the target. */
    predicate Outgrown(item: Item)
      reads this`packing, this`packingBytes
    {
      |packing| > 0 && packingBytes + |item.data| > opts.targetSize
    }

    /** Adds a small file to the pack in the making. It is flushed before when it would outgrow the target, and
        after once it has reached it. */
    method AddPackFile(item: Item, ghost walked: seq<Item>, ghost all: seq<Item>) returns (ok: bool)
      requires Walking(walked, all) && walked + [item] <= all && item.Ok() && item.small
      modifies this, uploader
      ensures ok ==> Walking(walked + [item], all) && item.data != []
      ensures ok ==> (
        var before := if old(Outgrown(item)) then old(packing) else [];
        var pack := if old(Outgrown(item)) then [item] else old(packing) + [item];
        var full := DataSize(PackFiles(pack)) >= opts.targetSize;
        && packing == (if full then [] else pack) && packingBytes == DataSize(PackFiles(packing)) < opts.targetSize
        && origins.packs == old(origins.packs) + Flushed(before) + Flushed(if full then pack else []))
      ensures old(Smooth()) && Listable(all) ==> ok && Smooth()
    {
      hide Walking, Item.Ok, Smooth, Listable, DataSize, PackFiles;
      assert [] + [item] == [item];
      EmptyPack();
      if Listable(all) { SmallHasDataHere(walked, all, item); }
      if |item.data| == 0 { return false; }
      if Outgrown(item) {
        ok := FlushPacking(walked, all);
        if !ok { return; }
      }
      TakeSmall(item, walked, all);
      ok := true;
      if packingBytes >= opts.targetSize {
        ok := FlushPacking(walked + [item], all);
      }
    }

    lemma SmallHasDataHere(walked: seq<Item>, all: seq<Item>, item: Item)
      requires Listable(all) && walked + [item] <= all && item.small
      ensures item.data != []
    {
      hide EachPathOnce, Packable;
      assert all[|walked|] == item;
      SmallHasData(all, item);
    }

    method TakeSmall(item: Item, ghost walked: seq<Item>, ghost all: seq<Item>)
      requires Walking(walked, all) && walked + [item] <= all && item.Ok() && item.small && !Outgrown(item)
      modifies this`packing, this`packingBytes
      ensures Walking(walked + [item], all) && packing == old(packing) + [item] && packingBytes == DataSize(PackFiles(packing))
    {
      hide UploaderOk, EntriesUnderWay, ManifestOk, Covers, Item.Ok, Small, DataSize, PackFiles;
      SmallSnoc(walked, item);
      DataSizeSnoc(packing, item);
      packing, packingBytes := packing + [item], packingBytes + |item.data|;
    }

    /** FlushPackFiles in the middle of the walk. */
    method FlushPacking(ghost walked: seq<Item>, ghost all: seq<Item>) returns (ok: bool)
      requires Walking(walked, all)
      modifies this, uploader
      ensures ok ==> Walking(walked, all) && packing == [] && packingBytes == 0 && opts.targetSize > 0
      ensures ok ==> origins.packs == old(origins.packs) + Flushed(old(packing))
      ensures old(Smooth()) && Listable(all) ==> ok && Smooth()
    {
      hide UploaderOk, EntriesUnderWay, ManifestOk, Covers, Item.Ok, PackIn, Smooth, Packable, EncodeSpec, Once, EachPathOnce;
      LastSmallIsCovered(universe, ch, all, walked, packing);
      ListedArePart(walked, origins.items, waiting, packing);
      OnceSoFar(all, walked, origins.items + waiting + packing);
      if Listable(all) && packing != [] { LastSmallEncodes(all, walked, packing); }
      ok := FlushPackFiles();
      if ok { EmptyPack(); }
    }

    static lemma EmptyPack()
      ensures DataSize(PackFiles([])) == 0
    {
    }

    /** Lists a directory or a link. */
    method ListOnly(item: Item, ghost walked: seq<Item>, ghost all: seq<Item>) returns (ok: bool)
      requires Walking(walked, all) && walked + [item] <= all && item.Ok() && item.kind in {Dir, Symlink}
      modifies this`manifest, this`entryPaths, this`origins
      ensures ok ==> Walking(walked + [item], all)
      ensures EachPathOnce(all) ==> ok
    {
      hide UploaderOk, EntriesUnderWay, PackListOk, EntryListOk, PathsOf, IdsOf, Covers, Accounted, LastSmall, Once, EachPathOnce, PackingOk,
           PacksWithin;
      ListedArePart(walked, origins.items, waiting, packing);
      OnceSoFar(all, walked + [item], origins.items + [item]);
      if EachPathOnce(all) { PathIsNew(c, ch, manifest, origins, item); }
      LastSmallSame(walked, packing, item);
      AccountedListed(origins.items, waiting, item);
      AccountedMore(walked, origins.items, waiting, packing, [item], origins.items + [item], waiting);
      ok := AppendManifestEntry(FileEntry(item.path, item.kind, item.size, item.attrs, [], None), NoData, item);
    }

    /** Takes a file that is not for a pack to the uploader. */
    method UploadLarge(f: Found, ghost walked: seq<Item>, ghost all: seq<Item>) returns (ok: bool)
      requires Walking(walked, all) && walked + Listed(ItemOf(opts, f)) <= all && f.Found? && f.kind == File && f.Ok()
      requires !opts.Eligible(f.size) && ReadsIn(universe, ch, f.readings)
      modifies this, uploader
      ensures ok ==> Walking(walked + Listed(ItemOf(opts, f)), all) && !Fatal(f)
      ensures old(Smooth()) && Listable(all) && !Fatal(f) ==> ok && Smooth()
    {
      hide UploaderOk, EntriesUnderWay, ManifestOk, Covers, AllIn, LastSmall, Accounted, Item.Ok, Smooth, Packable, Once, EachPathOnce, Final,
           PackingOk, PacksWithin;
      ghost var more := Listed(ItemOf(opts, f));
      ListedArePart(walked, origins.items, waiting, packing);
      OnceSoFar(all, walked + more, origins.items + waiting + more);
      LastSmallLarge(f, walked);
      ghost var listed, waited := origins.items, waiting;
      ok := UploadRegularFile(f);
      if ok { AccountedMore(walked, listed, waited, packing, more, origins.items, waiting); }
    }

    lemma LastSmallLarge(f: Found, walked: seq<Item>)
      requires f.Found? && f.kind == File && !opts.Eligible(f.size) && LastSmall(walked, packing)
      ensures LastSmall(walked + Listed(ItemOf(opts, f)), packing)
    {
      hide LastSmall, Final;
      if ItemOf(opts, f).None? {
        assert walked + Listed(ItemOf(opts, f)) == walked;
      } else {
        LastSmallSame(walked, packing, ItemOf(opts, f).value);
      }
    }

    /** Reads a small file, again if it changes, a few times. Its entry keeps the size and the attributes of
        the first look. */
    method ReadPackFilePayloadWithRetry(readings: nat -> Reading) returns (r: Reading)
      ensures r == Final(readings, 0)
    {
      var attempt: nat := 0;
      while readings(attempt).Changed? && attempt < MAX_RETRIES
        invariant attempt <= MAX_RETRIES && Final(readings, attempt) == Final(readings, 0)
      {
        attempt := attempt + 1;
      }
      r := readings(attempt);
    }

    method HandlePackFile(f: Found, ghost walked: seq<Item>, ghost all: seq<Item>) returns (ok: bool)
      requires Walking(walked, all) && walked + Listed(ItemOf(opts, f)) <= all && f.Found? && f.kind == File && f.Ok() && opts.Eligible(f.size)
      modifies this, uploader
      ensures ok ==> Walking(walked + Listed(ItemOf(opts, f)), all) && !Fatal(f)
      ensures old(Smooth()) && Listable(all) && !Fatal(f) ==> ok && Smooth()
    {
      hide Walking, Smooth, Listable, Final;
      var r := ReadPackFilePayloadWithRetry(f.readings);
      assert walked + [] == walked;
      match r
      case Whole(attrs, data) =>
        ItemIsOk(opts, f);
        ok := AddPackFile(Item(f.path, File, f.size, f.attrs, data, attrs, true), walked, all);
      case Changed(_) => ok := true;
      case Unreadable(_, skipped) => ok := skipped;
    }

    /** One thing the walk comes across. */
    method WalkPath(f: Found, ghost walked: seq<Item>, ghost all: seq<Item>) returns (ok: bool)
      requires Walking(walked, all) && walked + Listed(ItemOf(opts, f)) <= all && f.Ok() && (f.Found? ==> ReadsIn(universe, ch, f.readings))
      modifies this, uploader
      ensures ok ==> Walking(walked + Listed(ItemOf(opts, f)), all) && !Fatal(f)
      ensures old(Smooth()) && Listable(all) && !Fatal(f) ==> ok && Smooth()
    {
      hide Walking, Smooth, Packable, EachPathOnce, Final, ReadsIn;
      match f
      case Unseen(skipped) =>
        assert walked + [] == walked;
        ok := skipped;
      case Found(path, kind, size, attrs, _) =>
        if kind == Dir || kind == Symlink {
          ok := ListOnly(Item(path, kind, size, attrs, [], attrs, false), walked, all);
        } else if opts.Eligible(size) {
          ok := HandlePackFile(f, walked, all);
        } else {
          ok := UploadLarge(f, walked, all);
        }
    }

    /** All that was found may be walked. */
    ghost predicate FoundOk(found: seq<Found>) {
      forall i :: 0 <= i < |found| ==> found[i].Ok() && (found[i].Found? ==> ReadsIn(universe, ch, found[i].readings))
    }

    /** The walk of one root. */
    method WalkRoot(root: seq<Found>, ghost walked: seq<Item>, ghost all: seq<Item>) returns (ok: bool)
      requires Walking(walked, all) && walked + Items(opts, root) <= all && FoundOk(root)
      modifies this, uploader
      ensures ok ==> Walking(walked + Items(opts, root), all) && packing == [] && pendingFiles == [] && waiting == []
      ensures ok ==> NoneFatal(root)
      ensures old(Smooth()) && Listable(all) && NoneFatal(root) ==> ok && Smooth()
    {
      hide Walking, Smooth, Listable, Fatal, ItemOf, ReadsIn, Items;
      NoItems(opts, root);
      assert walked + [] == walked;
      for i := 0 to |root|
        invariant Walking(walked + Items(opts, root[..i]), all) && NoneFatal(root[..i])
        invariant old(Smooth()) && Listable(all) && NoneFatal(root) ==> Smooth()
      {
        ItemsStep(opts, root, i);
        assert walked + Items(opts, root[..i + 1]) == walked + Items(opts, root[..i]) + Listed(ItemOf(opts, root[i]));
        ok := WalkPath(root[i], walked + Items(opts, root[..i]), all);
        if !ok { return; }
      }
      assert root[..|root|] == root;
      ok := Flush(walked + Items(opts, root), all);
    }

    /** Nothing is left waiting. */
    method Flush(ghost walked: seq<Item>, ghost all: seq<Item>) returns (ok: bool)
      requires Walking(walked, all)
      modifies this, uploader
      ensures ok ==> Walking(walked, all) && packing == [] && pendingFiles == [] && waiting == []
      ensures old(Smooth()) && Listable(all) ==> ok && Smooth()
    {
      hide UploaderOk, EntriesUnderWay, ManifestOk, Covers, Item.Ok, PackIn, Smooth, Packable, EachPathOnce, Once;
      ok := FlushPacking(walked, all);
      if !ok { return; }
      ListedArePart(walked, origins.items, waiting, packing);
      OnceSoFar(all, walked, origins.items + waiting);
      ok := FlushPendingFiles();
    }

    /** A scan of all roots. When it ends without an error, every item walked is listed, once. When nothing
        is wrong with the server and the small files can be packed, that is the case if and only if nothing
        the walk came across is fatal and no path is listed twice. */
    method Scan(roots: seq<seq<Found>>) returns (ok: bool)
      requires Valid() && manifest == Draft([], []) && origins == Origins([], [], []) && pendingFiles == [] && packing == []
      requires Covers(universe, ch, Items(opts, Flatten(roots))) && FoundOk(Flatten(roots))
      modifies this, uploader
      ensures ok ==> (
        var all := Items(opts, Flatten(roots)); Valid() && multiset(origins.items) == multiset(all) && EachPathOnce(all) && NoneFatal(Flatten(roots)))
      ensures old(Smooth()) && Packable(Items(opts, Flatten(roots))) ==> (
        ok <==> EachPathOnce(Items(opts, Flatten(roots))) && NoneFatal(Flatten(roots)))
    {
      hide Walking, Smooth, Packable, EachPathOnce, Fatal, Items, ReadsIn, NoneFatal;
      ghost var found := Flatten(roots);
      ghost var all := Items(opts, found);
      StartOfWalk(all);
      NoItems(opts, found);
      for i := 0 to |roots|
        invariant Walking(Items(opts, Flatten(roots[..i])), all) && NoneFatal(Flatten(roots[..i]))
        invariant old(Smooth()) && Listable(all) && NoneFatal(found) ==> Smooth()
      {
        RootIsPart(roots, i);
        ok := WalkRoot(roots[i], Items(opts, Flatten(roots[..i])), all);
        if !ok { return; }
      }
      assert roots[..|roots|] == roots;
      ok := Flush(all, all);
      if ok { EndOfWalk(all); }
    }

    lemma RootIsPart(roots: seq<seq<Found>>, i: nat)
      requires i < |roots|
      ensures var before := Flatten(roots[..i]); var found := Flatten(roots);
        && Items(opts, before) + Items(opts, roots[i]) == Items(opts, Flatten(roots[..i + 1])) <= Items(opts, found)
        && (FoundOk(found) ==> FoundOk(roots[i])) && (NoneFatal(found) ==> NoneFatal(roots[i]))
        && (NoneFatal(before) && NoneFatal(roots[i]) ==> NoneFatal(Flatten(roots[..i + 1])))
    {
      hide Items, Fatal, ReadsIn, Found.Ok;
      FlattenStep(roots, i);
      var before, rest := Flatten(roots[..i]), Flatten(roots[i + 1..]);
      assert roots == roots[..i + 1] + roots[i + 1..];
      FlattenAppend(roots[..i + 1], roots[i + 1..]);
      assert Flatten(roots) == before + roots[i] + rest;
      ItemsAppend(opts, before, roots[i]);
      ItemsAppend(opts, before + roots[i], rest);
      PartOfFound(before, roots[i], rest);
    }

    lemma PartOfFound(before: seq<Found>, root: seq<Found>, rest: seq<Found>)
      ensures FoundOk(before + root + rest) ==> FoundOk(root)
      ensures NoneFatal(before + root + rest) ==> NoneFatal(root)
      ensures NoneFatal(before) && NoneFatal(root) ==> NoneFatal(before + root)
    {
      hide Fatal, ReadsIn, Found.Ok;
      var all := before + root + rest;
      forall i | 0 <= i < |root| ensures root[i] == all[|before| + i] { }
    }

    lemma StartOfWalk(all: seq<Item>)
      requires Valid() && Covers(universe, ch, all) && origins.items == [] && pendingFiles == [] && packing == []
      ensures Walking([], all)
    {
      hide UploaderOk, ManifestOk, Covers;
    }

    lemma EndOfWalk(all: seq<Item>)
      requires Walking(all, all) && packing == [] && waiting == []
      ensures Valid() && multiset(origins.items) == multiset(all) && EachPathOnce(all)
    {
      hide UploaderOk, EntriesUnderWay, Covers, EachPathOnce, PackListOk;
      ListedDiffer(c, ch, manifest, origins);
      DistinctIsOnce(origins.items);
      DistinctIsOnce(all);
    }
  }

  lemma ListedDiffer(c: Crypto, ch: Chunking.Chunker, m: Draft, o: Origins)
    requires EntryListOk(c, ch, m, o)
    ensures EachPathOnce(o.items)
  {
    hide HonestEntry;
    forall i, j | 0 <= i < j < |o.items| ensures o.items[i].path != o.items[j].path {
      assert m.entries[i].path == o.items[i].path && m.entries[j].path == o.items[j].path;
    }
  }

  ghost predicate AllSettled(items: seq<Item>) { forall i :: 0 <= i < |items| ==> items[i].Settled() }

  /** An error-free scan's manifest, if no listed size is wrong, is one the server accepts once its chunks are stored. */
  lemma ScannedIsHonest(c: Crypto, ch: Chunking.Chunker, m: Draft, o: Origins, next: nat, id: Bytes)
    requires EntryListOk(c, ch, m, o) && PackListOk(c, ch, m.packs, o.packs, next) && m.entries != [] && AllSettled(o.items)
    ensures Honest(c, ch, Manifest(id, m.packs, m.entries), o.packs, o.entries)
  {
    hide HonestPack, HonestEntry;
    forall i | 0 <= i < |m.entries| ensures HonestEntry(c, ch, m.packs, o.packs, m.entries[i], o.entries[i]) {
      assert Says(c, ch, m.packs, o.packs, m.entries[i], o.entries[i], o.items[i]) && o.items[i].Settled();
    }
  }

  /** One listed size that is wrong has the whole manifest refused. */
  lemma UnsettledIsRefused(c: Crypto, ch: Chunking.Chunker, segs: Segs, index: Index, m: Draft, o: Origins, id: Bytes, stored: Manifest)
    requires EntryListOk(c, ch, m, o) && Verdict(c, segs, index, Manifest(id, m.packs, m.entries), Ok(stored))
    ensures AllSettled(o.items)
  {
    hide HonestEntry, PacksOk, PackContent, Canonicalized;
    forall i | 0 <= i < |o.items| ensures o.items[i].Settled() {
      assert Says(c, ch, m.packs, o.packs, m.entries[i], o.entries[i], o.items[i]);
      assert EntryOk(c, segs, index, Manifest(id, m.packs, m.entries), i);
      if o.entries[i].NoData? {
      } else if o.entries[i].PackedData? {
        CompletePart(index, Manifest(id, m.packs, m.entries), i);
      }
    }
  }

  lemma CompletePart(index: Index, m: Manifest, n: nat)
    requires n <= |m.entries| && Complete(index, m, |m.entries|)
    ensures Complete(index, m, n)
  {
  }

  /** With its chunks stored, the manifest of an error-free scan is accepted if and only if every listed size is
      that of the data read. */
  lemma ScannedIsAcceptedExactly(c: Crypto, ch: Chunking.Chunker, segs: Segs, index: Index, m: Draft, o: Origins, next: nat, id: Bytes,
                                 v: Result<Manifest, Rejection>)
    requires c.Sound() && IndexOk(c, segs, index) && AllFresh(c, ch, segs, o.packs, o.entries)
    requires EntryListOk(c, ch, m, o) && PackListOk(c, ch, m.packs, o.packs, next) && m.entries != []
    requires Complete(index, Manifest(id, m.packs, m.entries), |m.entries|)
    requires Verdict(c, segs, index, Manifest(id, m.packs, m.entries), v)
    ensures v.Ok? <==> AllSettled(o.items)
  {
    hide Honest, AllFresh, IndexOk, EntryListOk, PackListOk, Verdict, Complete, AllSettled, Canonicalized;
    var posted := Manifest(id, m.packs, m.entries);
    if AllSettled(o.items) {
      ScannedIsHonest(c, ch, m, o, next, id);
      HonestIsAccepted(c, ch, segs, index, posted, o.packs, o.entries);
      VerdictIsOne(c, segs, index, posted, v, Ok(Canonicalized(index, posted)));
    } else if v.Ok? {
      UnsettledIsRefused(c, ch, segs, index, m, o, id, v.value);
    }
  }

  lemma AcceptedKeepsPaths(c: Crypto, segs: Segs, index: Index, m: Manifest, stored: Manifest)
    requires Verdict(c, segs, index, m, Ok(stored))
    ensures |stored.entries| == |m.entries|
    ensures forall i :: 0 <= i < |m.entries| ==> stored.entries[i].path == m.entries[i].path && stored.entries[i].attrs == m.entries[i].attrs
    ensures m.entries != []
  {
    hide EntryOk, PackContent, AllIndexed;
  }

  /** From the walk to a restore: whatever the server accepted of an error-free scan restores every file
      walked, small ones that went into packs too, to the data it had, under its own path. */
  lemma ScannedRestores(c: Crypto, ch: Chunking.Chunker, segs: Segs, index: Index, m: Draft, o: Origins, next: nat, id: Bytes, stored: Manifest, item: Item)
    requires c.Sound() && IndexOk(c, segs, index) && AllFresh(c, ch, segs, o.packs, o.entries)
    requires EntryListOk(c, ch, m, o) && PackListOk(c, ch, m.packs, o.packs, next)
    requires Verdict(c, segs, index, Manifest(id, m.packs, m.entries), Ok(stored)) && item in o.items && item.kind == File
    ensures exists i :: 0 <= i < |stored.entries| && stored.entries[i].path == item.path && stored.entries[i].attrs == item.attrs
              && Restore(c, segs, stored.packs, stored.entries[i]) == Ok(item.data)
  {
    hide HonestPack, ChunksOf, AllFresh, IndexOk, Restore, EncodeSpec, Honest, Verdict;
    var i :| 0 <= i < |o.items| && o.items[i] == item;
    UnsettledIsRefused(c, ch, segs, index, m, o, id, stored);
    ScannedIsHonest(c, ch, m, o, next, id);
    assert Says(c, ch, m.packs, o.packs, m.entries[i], o.entries[i], item);
    UploadedRestores(c, ch, segs, index, Manifest(id, m.packs, m.entries), stored, o.packs, o.entries, i);
    AcceptedKeepsPaths(c, segs, index, Manifest(id, m.packs, m.entries), stored);
    assert stored.entries[i].path == item.path;
  }
}
