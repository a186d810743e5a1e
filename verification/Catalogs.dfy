/** The agent's two chunk catalogs, SQLite and Pebble: both keep the same cache of confirmed digests. */
module Catalogs {
  import opened Base
  import opened CatalogCodec
  import opened Generations

  datatype Update = Update(hash: Hash, originalSize: int64, status: ChunkStatus, generation: int64, uploaded: bool)

  /** Which digests count as confirmed, and at what generation. */
  type Trust = map<Hash, nat>

  function Marked(t: Trust, u: Update): Trust {
    if u.hash == [] then t
    else if u.status == Confirmed then t[u.hash := if u.generation > 0 then u.generation else 0]
    else t - {u.hash}
  }

  function MarkedAll(t: Trust, updates: seq<Update>): Trust {
    if updates == [] then t else Marked(MarkedAll(t, updates[..|updates| - 1]), updates[|updates| - 1])
  }

  function Invalidated(t: Trust, hashes: set<Hash>, generation: nat): Trust {
    map h | h in t && h !in hashes :: generation
  }

  /** The test every reuse of a chunk makes. */
  predicate Confirmable(t: Trust, hash: Hash, base: int) { hash in t && t[hash] >= base }

  /** Hashes are canonical, sizes and generations are not negative. */
  predicate Canonical(updates: seq<Update>) {
    forall i :: 0 <= i < |updates| ==> (updates[i].hash == [] || |updates[i].hash| == 32) && updates[i].originalSize >= 0 && updates[i].generation >= 0
  }

  predicate CanonicalHashes(hashes: seq<Hash>) {
    forall i :: 0 <= i < |hashes| ==> hashes[i] == [] || |hashes[i]| == 32
  }

  // ---- SQLite ----

  datatype Row = Row(originalSize: int64, status: ChunkStatus, generation: Option<int64>, everUploaded: bool)

  function RowTrust(row: Row): Option<nat> {
    if row.status != Confirmed then None
    else if row.generation.None? || row.generation.value < 0 then Some(0)
    else Some(row.generation.value)
  }

  function RowAt(rows: map<Hash, Row>, hash: Hash): Option<nat> {
    if hash in rows then RowTrust(rows[hash]) else None
  }

  /** The UPDATE that moves every confirmed row on. */
  function Advanced(rows: map<Hash, Row>, generation: nat): map<Hash, Row>
    requires generation < TWO63
  {
    map h | h in rows :: if rows[h].status == Confirmed then rows[h].(generation := Some(generation)) else rows[h]
  }

  lemma RowsAdvance(rows: map<Hash, Row>, trust: Trust, hashes: set<Hash>, generation: nat)
    requires generation < TWO63
    requires forall h :: RowAt(rows, h) == if h in trust - hashes then Some((trust - hashes)[h]) else None
    ensures var t := Invalidated(trust, hashes, generation);
      forall h :: RowAt(Advanced(rows, generation), h) == if h in t then Some(t[h]) else None
  {
    var t := Invalidated(trust, hashes, generation);
    forall h ensures RowAt(Advanced(rows, generation), h) == if h in t then Some(t[h]) else None {
      assert RowAt(rows, h) == if h in trust - hashes then Some((trust - hashes)[h]) else None;
    }
  }

  class SqliteChunkCatalog {
    var rows: map<Hash, Row>
    ghost var trust: Trust

    ghost predicate Valid()
      reads this
    {
      && (forall h :: h in rows ==> rows[h].generation.None? || rows[h].generation.value >= 0)
      && [] !in rows
      && forall h :: RowAt(rows, h) == if h in trust then Some(trust[h]) else None
    }

    constructor ()
      ensures Valid() && trust == map[]
    {
      rows, trust := map[], map[];
    }

    /** The row's status and generation, NULL read as 0. */
    method ChunkStatusOf(hash: Hash) returns (status: ChunkStatus, generation: int64, ok: bool)
      requires Valid()
      ensures forall base: int :: ok && status == Confirmed && generation >= base <==> Confirmable(trust, hash, base)
    {
      if hash !in rows { return Unknown, 0, false; }
      status, ok := rows[hash].status, true;
      generation := if rows[hash].generation.Some? then rows[hash].generation.value else 0;
      assert RowAt(rows, hash) == if hash in trust then Some(trust[hash]) else None;
    }

    method MarkChunks(updates: seq<Update>)
      requires Valid()
      modifies this
      ensures Valid() && trust == MarkedAll(old(trust), updates)
    {
      for i := 0 to |updates|
        invariant Valid() && trust == MarkedAll(old(trust), updates[..i])
      {
        assert updates[..i + 1][..i] == updates[..i];
        var u := updates[i];
        if u.hash != [] {
          var generation := if u.generation > 0 then Some(u.generation) else None;
          var row := if u.hash in rows then rows[u.hash] else Row(0, Unknown, None, false);
          rows := rows[u.hash := Row(if u.originalSize > 0 || u.hash !in rows then u.originalSize else row.originalSize,
                                     u.status, generation, u.uploaded || row.everUploaded)];
          trust := Marked(trust, u);
        }
      }
      assert updates[..|updates|] == updates;
    }

    /** One row: a digest that was named. */
    method Forget(hash: Hash)
      requires Valid()
      modifies this
      ensures Valid() && trust == old(trust) - {hash}
    {
      if hash != [] {
        rows := rows[hash := if hash in rows then rows[hash].(status := Unknown, generation := None) else Row(0, Unknown, None, false)];
      } else {
        assert RowAt(rows, []) == None;
      }
      trust := trust - {hash};
    }

    method ApplyInvalidations(hashes: seq<Hash>, generation: nat)
      requires Valid() && generation < TWO63
      modifies this
      ensures Valid() && trust == Invalidated(old(trust), ToSet(hashes), generation)
    {
      assert trust - ToSet(hashes[..0]) == trust;
      for i := 0 to |hashes|
        invariant Valid() && trust == old(trust) - ToSet(hashes[..i])
      {
        assert hashes[..i + 1] == hashes[..i] + [hashes[i]];
        assert ToSet(hashes[..i + 1]) == ToSet(hashes[..i]) + {hashes[i]};
        Forget(hashes[i]);
      }
      assert hashes[..|hashes|] == hashes;
      RowsAdvance(rows, old(trust), ToSet(hashes), generation);
      rows := Advanced(rows, generation);
      trust := Invalidated(old(trust), ToSet(hashes), generation);
    }

    method ResetServerChunks()
      requires Valid()
      modifies this
      ensures Valid() && trust == map[]
    {
      rows := map h | h in rows :: rows[h].(status := Unknown, generation := None);
      trust := map[];
    }
  }

  // ---- Pebble ----

  function RecordTrust(value: Bytes): Option<nat> {
    match DecodeStatus(value)
    case None => None
    case Some(r) => if r.status == Confirmed && r.generation >= 0 then Some(r.generation) else None
  }

  function RecordAt(db: map<Bytes, Bytes>, hash: Hash): Option<nat> {
    if |hash| == 32 && StatusKey(hash) in db then RecordTrust(db[StatusKey(hash)]) else None
  }

  /** A status value this agent could have written, or one it cannot read and will drop. */
  predicate WellWritten(value: Bytes) {
    DecodeStatus(value).None? || EncodeStatus(DecodeStatus(value).value).Some?
  }

  /** Everything in the store but the status records. */
  function Files(db: map<Bytes, Bytes>): map<Bytes, Bytes> {
    map key | key in db && !InStatusRange(key) :: db[key]
  }

  lemma StatusKeyInRange(hash: Hash)
    ensures InStatusRange(StatusKey(hash)) && StatusKey(hash)[1..] == hash
  {
    StatusRangeIsTagged(StatusKey(hash));
  }

  /** Writing a status record changes what is known of that digest, and no file record. */
  lemma SetStatus(db: map<Bytes, Bytes>, hash: Hash, r: StatusRecord)
    requires |hash| == 32 && EncodeStatus(r).Some?
    ensures var db' := db[StatusKey(hash) := EncodeStatus(r).value];
      && Files(db') == Files(db)
      && RecordAt(db', hash) == (if r.status == Confirmed then Some(r.generation as nat) else None)
      && WellWritten(EncodeStatus(r).value)
      && forall h :: h != hash ==> RecordAt(db', h) == RecordAt(db, h)
  {
    hide EncodeStatus, DecodeStatus, InStatusRange;
    StatusRoundTrip(r);
    StatusKeyInRange(hash);
    var db' := db[StatusKey(hash) := EncodeStatus(r).value];
    forall h | h != hash ensures RecordAt(db', h) == RecordAt(db, h) {
      assert StatusKey(h)[1..] == h && StatusKey(hash)[1..] == hash;
    }
  }

  class PebbleChunkCatalog {
    var db: map<Bytes, Bytes>
    ghost var trust: Trust

    ghost predicate Valid()
      reads this
    {
      && (forall key :: key in db && InStatusRange(key) ==> WellWritten(db[key]))
      && forall h :: RecordAt(db, h) == if h in trust then Some(trust[h]) else None
    }

    constructor (files: map<Bytes, Bytes>)
      requires forall key :: key in files ==> !InStatusRange(key)
      ensures Valid() && trust == map[] && Files(db) == files
    {
      db, trust := files, map[];
      new;
      forall h ensures RecordAt(db, h) == None { StatusKeyInRange(h); }
    }

    method ChunkStatusOf(hash: Hash) returns (status: ChunkStatus, generation: int64, ok: bool)
      requires Valid()
      modifies this`db
      ensures Valid() && trust == old(trust) && Files(db) == Files(old(db))
      ensures forall base: nat :: ok && status == Confirmed && generation >= base <==> Confirmable(trust, hash, base)
    {
      hide DecodeStatus, EncodeStatus, InStatusRange;
      assert RecordAt(db, hash) == if hash in trust then Some(trust[hash]) else None;
      if |hash| != 32 { return Unknown, 0, false; }
      var record := GetRecord(hash);
      if record.None? { return Unknown, 0, false; }
      return record.value.status, record.value.generation, true;
    }

    /** Reads a record; one that cannot be read is dropped on the spot. */
    method GetRecord(hash: Hash) returns (record: Option<StatusRecord>)
      requires Valid() && |hash| == 32
      modifies this`db
      ensures Valid() && trust == old(trust) && Files(db) == Files(old(db))
      ensures record == if StatusKey(hash) in old(db) then DecodeStatus(old(db)[StatusKey(hash)]) else None
      ensures record.Some? ==> db == old(db) && EncodeStatus(record.value).Some?
    {
      hide DecodeStatus, EncodeStatus, InStatusRange;
      StatusKeyInRange(hash);
      if StatusKey(hash) !in db { return None; }
      record := DecodeStatus(db[StatusKey(hash)]);
      if record.None? {
        ghost var before := db;
        db := db - {StatusKey(hash)};
        forall h ensures RecordAt(db, h) == RecordAt(before, h) { assert StatusKey(h)[1..] == h; }
      } else {
        assert WellWritten(db[StatusKey(hash)]);
      }
    }

    /** The batch is committed whole, or not at all when an update cannot be encoded. */
    method MarkChunks(updates: seq<Update>) returns (ok: bool)
      requires Valid()
      modifies this
      ensures Valid() && Files(db) == Files(old(db))
      ensures Canonical(updates) ==> ok
      ensures trust == if ok then MarkedAll(old(trust), updates) else old(trust)
    {
      hide EncodeStatus, DecodeStatus, InStatusRange, WellWritten;
      var staged := db;
      ghost var t := trust;
      for i := 0 to |updates|
        invariant db == old(db) && trust == old(trust) && Valid()
        invariant t == MarkedAll(old(trust), updates[..i]) && Files(staged) == Files(db)
        invariant forall key :: key in staged && InStatusRange(key) ==> WellWritten(staged[key])
        invariant forall h :: RecordAt(staged, h) == if h in t then Some(t[h]) else None
      {
        assert updates[..i + 1][..i] == updates[..i];
        var u := updates[i];
        if u.hash != [] {
          if |u.hash| != 32 || u.originalSize < 0 { return false; }
          var record := if u.status == Unknown
            then StatusRecord(Unknown, u.originalSize, 0, 0, if u.uploaded then 1 else 0)
            else StatusRecord(u.status, u.originalSize, u.generation, 1, if u.uploaded then 1 else 0);
          var value := EncodeStatus(record);
          if value.None? { return false; }
          SetStatus(staged, u.hash, record);
          staged := staged[StatusKey(u.hash) := value.value];
          t := Marked(t, u);
        }
      }
      assert updates[..|updates|] == updates;
      db, trust, ok := staged, t, true;
    }

    /** The first loop sets every named digest to unknown; the second moves every other confirmed
        digest on to `generation` and drops what it cannot read. Both go into one batch. */
    method ApplyInvalidations(hashes: seq<Hash>, generation: nat) returns (ok: bool)
      requires Valid() && generation < TWO63
      modifies this
      ensures Valid() && Files(db) == Files(old(db))
      ensures ok <==> CanonicalHashes(hashes)
      ensures trust == if ok then Invalidated(old(trust), ToSet(hashes), generation) else old(trust)
    {
      hide EncodeStatus, DecodeStatus, InStatusRange, WellWritten, RecordTrust;
      ghost var files := Files(db);
      var sets: map<Bytes, Bytes> := map[];
      for i := 0 to |hashes|
        invariant trust == old(trust) && Valid() && Files(db) == files && CanonicalHashes(hashes[..i])
        invariant forall key :: key in sets ==> InStatusRange(key) && WellWritten(sets[key]) && RecordTrust(sets[key]) == None
        invariant forall h :: StatusKey(h) in sets <==> h != [] && h in hashes[..i]
      {
        var hash := hashes[i];
        assert hashes[..i + 1] == hashes[..i] + [hash];
        if hash != [] {
          if |hash| != 32 { return false; }
          var record := GetRecord(hash);
          var r := if record.Some? then record.value.(status := Unknown, generation := 0) else StatusRecord(Unknown, 0, 0, 0, 0);
          StillEncodable(record, r);
          SetStatus(map[], hash, r);
          StatusKeyInRange(hash);
          NothingElse(hash, EncodeStatus(r).value);
          sets := sets[StatusKey(hash) := EncodeStatus(r).value];
          forall h ensures StatusKey(h) in sets <==> h != [] && h in hashes[..i + 1] { assert StatusKey(h)[1..] == h; assert StatusKey(hash)[1..] == hash; }
        }
      }
      assert hashes[..|hashes|] == hashes;
      var advanced, deletes := Advance(sets, generation);
      Committed(db, trust, ToSet(hashes), generation, sets, advanced, deletes);
      db := (db - deletes) + (sets + advanced);
      trust := Invalidated(trust, ToSet(hashes), generation);
      ok := true;
    }

    /** The loop over the status records that no invalidation named. */
    method Advance(invalidated: map<Bytes, Bytes>, generation: nat) returns (sets: map<Bytes, Bytes>, deletes: set<Bytes>)
      requires Valid() && generation < TWO63
      ensures forall key :: key in sets || key in deletes ==> key in db && InStatusRange(key) && key !in invalidated
      ensures forall key :: key in db && InStatusRange(key) && key !in invalidated ==> AdvancedAt(db, generation, sets, deletes, key)
    {
      hide EncodeStatus, DecodeStatus, InStatusRange, WellWritten, RecordTrust;
      sets, deletes := map[], {};
      var todo := set key | key in db && InStatusRange(key);
      while todo != {}
        invariant todo <= db.Keys
        invariant forall key :: key in todo ==> InStatusRange(key) && key !in sets && key !in deletes
        invariant forall key :: key in sets || key in deletes ==> key in db && InStatusRange(key) && key !in invalidated
        invariant forall key :: key in db && InStatusRange(key) && key !in invalidated && key !in todo ==>
          AdvancedAt(db, generation, sets, deletes, key)
      {
        var key := Pick(todo);
        todo := todo - {key};
        if key !in invalidated {
          var record := DecodeStatus(db[key]);
          assert WellWritten(db[key]);
          if record.None? {
            deletes := deletes + {key};
            AdvancedDeleted(db, generation, sets, deletes, key);
          } else if record.value.status == Confirmed {
            AdvancedSet(db, generation, sets, deletes, key, record.value);
            sets := sets[key := EncodeStatus(record.value.(generation := generation, lastChecked := 1)).value];
          } else {
            AdvancedKept(db, generation, sets, deletes, key);
          }
        }
      }
    }

    /** The range deletion: every status record goes, and nothing else. */
    method ResetServerChunks()
      requires Valid()
      modifies this
      ensures Valid() && trust == map[] && Files(db) == Files(old(db)) == db
    {
      hide InStatusRange;
      db := Files(db);
      trust := map[];
      forall h ensures RecordAt(db, h) == None { StatusKeyInRange(h); }
    }
  }

  lemma StillEncodable(record: Option<StatusRecord>, r: StatusRecord)
    requires record.Some? ==> EncodeStatus(record.value).Some?
    requires r == if record.Some? then record.value.(status := Unknown, generation := 0) else StatusRecord(Unknown, 0, 0, 0, 0)
    ensures EncodeStatus(r).Some?
  {
  }

  lemma NothingElse(hash: Hash, value: Bytes)
    requires |hash| == 32
    ensures RecordAt(map[StatusKey(hash) := value], hash) == RecordTrust(value)
  {
    hide RecordTrust;
  }

  /** What the second loop does with the record at one key. */
  ghost predicate AdvancedAt(db: map<Bytes, Bytes>, generation: nat, sets: map<Bytes, Bytes>, deletes: set<Bytes>, key: Bytes)
    requires key in db
  {
    if RecordTrust(db[key]).Some? then key in sets && key !in deletes && RecordTrust(sets[key]) == Some(generation) && WellWritten(sets[key])
    else key !in sets && (key in deletes || WellWritten(db[key]))
  }

  lemma AdvancedDeleted(db: map<Bytes, Bytes>, generation: nat, sets: map<Bytes, Bytes>, deletes: set<Bytes>, key: Bytes)
    requires key in db && key !in sets && key in deletes && DecodeStatus(db[key]).None?
    ensures AdvancedAt(db, generation, sets, deletes, key)
  {
    hide DecodeStatus;
  }

  lemma AdvancedSet(db: map<Bytes, Bytes>, generation: nat, sets: map<Bytes, Bytes>, deletes: set<Bytes>, key: Bytes, r: StatusRecord)
    requires key in db && key !in deletes && generation < TWO63 && WellWritten(db[key])
    requires DecodeStatus(db[key]) == Some(r) && r.status == Confirmed
    ensures var value := EncodeStatus(r.(generation := generation, lastChecked := 1));
      value.Some? && AdvancedAt(db, generation, sets[key := value.value], deletes, key)
  {
    var r' := r.(generation := generation, lastChecked := 1);
    StatusRoundTrip(r');
    hide DecodeStatus;
  }

  lemma AdvancedKept(db: map<Bytes, Bytes>, generation: nat, sets: map<Bytes, Bytes>, deletes: set<Bytes>, key: Bytes)
    requires key in db && key !in sets && DecodeStatus(db[key]).Some? && DecodeStatus(db[key]).value.status != Confirmed && WellWritten(db[key])
    ensures AdvancedAt(db, generation, sets, deletes, key)
  {
    hide DecodeStatus;
  }

  /** The two loops' batch, once committed. */
  lemma Committed(db: map<Bytes, Bytes>, trust: Trust, hashes: set<Hash>, generation: nat,
                  sets: map<Bytes, Bytes>, advanced: map<Bytes, Bytes>, deletes: set<Bytes>)
    requires forall h :: RecordAt(db, h) == if h in trust then Some(trust[h]) else None
    requires forall key :: key in sets ==> InStatusRange(key) && WellWritten(sets[key]) && RecordTrust(sets[key]) == None
    requires forall h :: StatusKey(h) in sets <==> h != [] && h in hashes
    requires forall key :: key in advanced || key in deletes ==> key in db && InStatusRange(key) && key !in sets
    requires forall key :: key in db && InStatusRange(key) && key !in sets ==> AdvancedAt(db, generation, advanced, deletes, key)
    ensures var db' := (db - deletes) + (sets + advanced);
      && Files(db') == Files(db)
      && (forall key :: key in db' && InStatusRange(key) ==> WellWritten(db'[key]))
      && forall h :: RecordAt(db', h) == if h in Invalidated(trust, hashes, generation) then Some(Invalidated(trust, hashes, generation)[h]) else None
  {
    hide InStatusRange, WellWritten, RecordTrust, DecodeStatus;
    var db' := (db - deletes) + (sets + advanced);
    forall key | key in db' && InStatusRange(key) ensures WellWritten(db'[key]) {
      if key !in sets { assert AdvancedAt(db, generation, advanced, deletes, key); }
    }
    forall h ensures RecordAt(db', h) == if h in Invalidated(trust, hashes, generation) then Some(Invalidated(trust, hashes, generation)[h]) else None {
      StatusKeyInRange(h);
      var key := StatusKey(h);
      if |h| == 32 && key in db && key !in sets { assert AdvancedAt(db, generation, advanced, deletes, key); }
    }
  }

  // ---- the two agree ----

  datatype CatalogOp = Mark(updates: seq<Update>) | Invalidate(hashes: seq<Hash>, generation: nat) | Reset

  predicate CanonicalOp(op: CatalogOp) {
    match op
    case Mark(updates) => Canonical(updates)
    case Invalidate(hashes, generation) => CanonicalHashes(hashes) && generation < TWO63
    case Reset => true
  }

  /** After any sequence of canonical operations the two catalogs trust the same digests at the same
      generations, and the file records are as they were. */
  method RunBoth(ops: seq<CatalogOp>, files: map<Bytes, Bytes>) returns (sqlite: SqliteChunkCatalog, pebble: PebbleChunkCatalog)
    requires forall i :: 0 <= i < |ops| ==> CanonicalOp(ops[i])
    requires forall key :: key in files ==> !InStatusRange(key)
    ensures sqlite.Valid() && pebble.Valid() && fresh(sqlite) && fresh(pebble)
    ensures forall hash, base: nat :: Confirmable(sqlite.trust, hash, base) <==> Confirmable(pebble.trust, hash, base)
    ensures Files(pebble.db) == files
  {
    hide Files, MarkedAll, Invalidated;
    sqlite := new SqliteChunkCatalog();
    pebble := new PebbleChunkCatalog(files);
    for i := 0 to |ops|
      invariant sqlite.Valid() && pebble.Valid() && fresh(sqlite) && fresh(pebble)
      invariant sqlite.trust == pebble.trust && Files(pebble.db) == files
    {
      assert CanonicalOp(ops[i]);
      match ops[i]
      case Mark(updates) =>
        sqlite.MarkChunks(updates);
        var ok := pebble.MarkChunks(updates);
      case Invalidate(hashes, generation) =>
        sqlite.ApplyInvalidations(hashes, generation);
        var ok := pebble.ApplyInvalidations(hashes, generation);
      case Reset =>
        sqlite.ResetServerChunks();
        pebble.ResetServerChunks();
    }
  }

  // ---- catching up with the server ----

  datatype Heartbeat = Heartbeat(repositoryId: Bytes, generation: nat, availableFrom: nat)

  datatype ServerState = ServerState(repositoryId: Bytes, lastInvalidation: nat)

  method Listing(s: set<Hash>) returns (l: seq<Hash>)
    ensures ToSet(l) == s
  {
    l := [];
    var todo := s;
    while todo != {}
      invariant todo <= s && ToSet(l) == s - todo
    {
      var h := Pick(todo);
      ghost var before := l;
      todo, l := todo - {h}, l + [h];
      assert ToSet(l) == ToSet(before) + {h};
    }
  }

  /** Whether a sync asks the server what was deleted: it names the same repository, is ahead, and its journal
      goes back far enough. */
  predicate Asks(state: Option<ServerState>, beat: Heartbeat) {
    && beat.repositoryId != [] && state.Some? && state.value.repositoryId in {[], beat.repositoryId}
    && beat.generation > state.value.lastInvalidation >= beat.availableFrom
  }

  /** Brings the catalog up to date. `state` is the row for this server; None as a result is an error, which
      leaves the row as it was: the server was asked and did not answer (`answered`), or the catalog could not be
      written. `maxHashes` is how many digests the server is set to name in one answer. */
  method SyncCatalogWithServer(server: StateStore, catalog: PebbleChunkCatalog, state: Option<ServerState>, beat: Heartbeat, answered: bool, maxHashes: int)
    returns (r: Option<Option<ServerState>>)
    requires server.Valid() && catalog.Valid() && beat.generation <= server.generation < TWO63
    modifies catalog
    ensures catalog.Valid() && Files(catalog.db) == Files(old(catalog.db))
    ensures r.None? || beat.repositoryId == [] ==> catalog.trust == old(catalog.trust)
    ensures r.None? ==> Asks(state, beat)
    ensures !answered ==> (r.None? <==> Asks(state, beat))
    ensures beat.repositoryId == [] ==> r == Some(state)
    ensures r.Some? && beat.repositoryId != [] ==> r.value.Some? && r.value.value.repositoryId == beat.repositoryId
    ensures r.Some? && beat.repositoryId != [] && state.None? ==>
      r.value.value.lastInvalidation == beat.generation && catalog.trust == old(catalog.trust)
    ensures r.Some? && beat.repositoryId != [] && state.Some? && state.value.repositoryId !in {[], beat.repositoryId} ==>
      r.value.value.lastInvalidation == beat.generation && catalog.trust == map[]
    ensures r.Some? && beat.repositoryId != [] && state.Some? && state.value.repositoryId in {[], beat.repositoryId} ==> (
      var last, next := state.value.lastInvalidation, r.value.value.lastInvalidation;
      if beat.generation > last && last >= beat.availableFrom && last >= server.availableFrom
         && |Since(server.rows, last, server.generation)| <= (if maxHashes <= 0 then DEFAULT_MAX_HASHES else maxHashes)
      then next == server.generation
        && catalog.trust == Invalidated(old(catalog.trust), Hashes(Since(server.history, last, next)), next)
      else next == last && catalog.trust == old(catalog.trust))
  {
    if beat.repositoryId == [] { return Some(state); }
    if state.None? { return Some(Some(ServerState(beat.repositoryId, beat.generation))); }
    var last := state.value.lastInvalidation;
    if state.value.repositoryId != [] && state.value.repositoryId != beat.repositoryId {
      catalog.ResetServerChunks();
      return Some(Some(ServerState(beat.repositoryId, beat.generation)));
    }
    if beat.generation > last && last >= beat.availableFrom {
      if !answered { return None; }
      var answer := server.ChunkInvalidationsSince(last, maxHashes);
      if answer.complete {
        var hashes := Listing(answer.hashes);
        var ok := catalog.ApplyInvalidations(hashes, answer.to);
        if !ok { return None; }
        return Some(Some(ServerState(beat.repositoryId, answer.to)));
      }
    }
    return Some(Some(ServerState(beat.repositoryId, last)));
  }
}
