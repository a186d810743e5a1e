/** What the walk comes across, and what a file that changes while it is read comes to. */
module Walked {
  import opened Base
  import opened Manifests
  import opened Pack

  /** Something the walk lists. `size` and `attrs` go into its entry; those of a small file are from the first
      look at it, `read` are from the reading that gave the data. */
  datatype Item = Item(path: Bytes, kind: EntryType, size: int64, attrs: Attrs, data: Bytes, read: Attrs, small: bool) {
    predicate Ok() {
      && kind in {File, Dir, Symlink} && |data| < TWO63
      && (kind != File ==> data == [] && !small) && (kind == File && !small ==> size == |data|)
    }

    function PackFile(): PackFile { Pack.PackFile(path, read.mode, read.mtimeNS, data) }

    /** The size in the entry is that of the data. */
    predicate Settled() { kind == File ==> size == |data| }
  }

  /** One reading of a file: to its end and unchanged; changed before the end; or failed, in a way that makes
      the scan pass over the file or not. */
  datatype Reading = Whole(attrs: Attrs, data: Bytes) | Changed(data: Bytes) | Unreadable(data: Bytes, skipped: bool)

  /** A directory, a link, or a file with what each reading of it would give; or something that could not be
      looked at, or is none of these. */
  datatype Found = Found(path: Bytes, kind: EntryType, size: int64, attrs: Attrs, readings: nat -> Reading) | Unseen(skipped: bool)
  {
    /** A first reading that saw no change saw what the walk had seen. */
    ghost predicate Ok() {
      Found? ==>
        && kind in {File, Dir, Symlink}
        && (readings(0).Whole? ==> readings(0).attrs == attrs && |readings(0).data| == size)
        && forall k :: |readings(k).data| < TWO63
    }
  }

  datatype Options = Options(pack: bool, maxFileSize: int, targetSize: int) {
    function Normalized(): Options {
      this.(maxFileSize := if maxFileSize <= 0 then 64 * 1024 else maxFileSize,
            targetSize := if targetSize <= 0 then 8 * 1024 * 1024 else targetSize)
    }

    /** Small files go into packs. */
    predicate Eligible(size: int64) { pack && 0 < size <= maxFileSize }
  }

  const MAX_RETRIES := 3

  /** The reading that counts: a file that has changed is read again, up to the limit. */
  function Final(readings: nat -> Reading, attempt: nat): Reading
    decreases MAX_RETRIES - attempt
  {
    if readings(attempt).Changed? && attempt < MAX_RETRIES then Final(readings, attempt + 1) else readings(attempt)
  }

  lemma {:induction false} FinalIsOne(readings: nat -> Reading, attempt: nat) returns (k: nat)
    ensures k >= attempt && Final(readings, attempt) == readings(k) && forall j :: attempt <= j < k ==> readings(j).Changed?
    decreases MAX_RETRIES - attempt
  {
    if readings(attempt).Changed? && attempt < MAX_RETRIES { k := FinalIsOne(readings, attempt + 1); } else { k := attempt; }
  }

  lemma FinalStep(readings: nat -> Reading, attempt: nat)
    ensures Final(readings, attempt) == if readings(attempt).Changed? && attempt < MAX_RETRIES then Final(readings, attempt + 1) else readings(attempt)
  {
  }

  /** What is listed of it. A file that keeps changing is passed over. */
  function ItemOf(opts: Options, f: Found): Option<Item> {
    if f.Unseen? then None
    else if f.kind != File then Some(Item(f.path, f.kind, f.size, f.attrs, [], f.attrs, false))
    else
      match Final(f.readings, 0)
      case Whole(attrs, data) =>
        if opts.Eligible(f.size) then Some(Item(f.path, File, f.size, f.attrs, data, attrs, true))
        else if |data| < TWO63 then Some(Item(f.path, File, |data|, attrs, data, attrs, false))
        else None
      case _ => None
  }

  /** What ends the scan. */
  predicate Fatal(f: Found) {
    match f
    case Unseen(skipped) => !skipped
    case Found(_, kind, _, _, readings) => kind == File && Final(readings, 0).Unreadable? && !Final(readings, 0).skipped
  }

  function Listed(item: Option<Item>): seq<Item> { if item.None? then [] else [item.value] }

  function Items(opts: Options, found: seq<Found>): seq<Item> {
    if found == [] then [] else Items(opts, found[..|found| - 1]) + Listed(ItemOf(opts, found[|found| - 1]))
  }

  predicate NoneFatal(found: seq<Found>) { forall i :: 0 <= i < |found| ==> !Fatal(found[i]) }

  lemma NoItems(opts: Options, found: seq<Found>)
    ensures Items(opts, found[..0]) == [] && NoneFatal(found[..0])
  {
  }

  lemma ItemsSnoc(opts: Options, found: seq<Found>, f: Found)
    ensures Items(opts, found + [f]) == Items(opts, found) + Listed(ItemOf(opts, f))
  {
    assert (found + [f])[..|found|] == found;
  }

  lemma {:induction false} ItemsAppend(opts: Options, a: seq<Found>, b: seq<Found>)
    ensures Items(opts, a + b) == Items(opts, a) + Items(opts, b)
    decreases |b|
  {
    hide ItemOf;
    if b == [] {
      assert a + b == a;
    } else {
      ItemsAppend(opts, a, b[..|b| - 1]);
      ItemsSnoc(opts, a + b[..|b| - 1], b[|b| - 1]);
      assert a + b[..|b| - 1] + [b[|b| - 1]] == a + b;
    }
  }

  lemma ItemsStep(opts: Options, found: seq<Found>, i: nat)
    requires i < |found|
    ensures Items(opts, found[..i + 1]) == Items(opts, found[..i]) + Listed(ItemOf(opts, found[i])) <= Items(opts, found)
  {
    hide Items, ItemOf;
    assert found[..i + 1] == found[..i] + [found[i]];
    ItemsSnoc(opts, found[..i], found[i]);
    assert found == found[..i + 1] + found[i + 1..];
    ItemsAppend(opts, found[..i + 1], found[i + 1..]);
  }

  lemma ItemIsOk(opts: Options, f: Found)
    requires f.Ok() && ItemOf(opts, f).Some?
    ensures ItemOf(opts, f).value.Ok() && ItemOf(opts, f).value.path == f.path
  {
    if f.kind == File { var k := FinalIsOne(f.readings, 0); }
  }

  /** The listed size is wrong exactly for a small file that was read again and has another size by then. */
  lemma ReadAgainExactly(opts: Options, f: Found)
    requires f.Ok() && ItemOf(opts, f).Some?
    ensures ItemOf(opts, f).value.Settled() <==> !(f.kind == File && opts.Eligible(f.size) && |Final(f.readings, 0).data| != f.size)
    ensures !ItemOf(opts, f).value.Settled() ==> f.readings(0).Changed? && Final(f.readings, 0).Whole?
  {
    var k := FinalIsOne(f.readings, 0);
  }
}
