/** The repair loop: a manifest that names missing chunks makes the agent forget them and try again. */
module Repair {
  import opened Base
  import opened Records
  import opened Segments
  import opened Manifests
  import opened PutSpec
  import opened Canonical

  /** What the server answers to a manifest. */
  datatype Answer = Accepted | Missing(chunks: set<Hash>) | Refused

  function AnswerOf(v: Result<Manifest, Rejection>): Answer {
    match v
    case Ok(_) => Accepted
    case Err(MissingChunks(missing)) => Missing(missing.Keys)
    case Err(_) => Refused
  }

  /** The digests that packs and plain files of the manifest use. */
  function Named(m: Manifest): set<Hash> {
    (set p, ref | p in m.packs && ref in p.chunks :: ref.hash)
    + (set e, ref | e in m.entries && e.kind == File && ref in e.chunks :: ref.hash)
  }

  /** A manifest is only accepted if all it names is stored, and what is called missing is what is not. */
  ghost predicate Answers(a: Answer, named: set<Hash>, index: set<Hash>) {
    && (a.Accepted? ==> named <= index)
    && (a.Missing? ==> a.chunks == named - index && a.chunks != {})
  }

  lemma NamedIsUsed(m: Manifest, h: Hash)
    ensures h in Named(m) <==> exists who :: Uses(m, h, who)
  {
    if p, ref :| p in m.packs && ref in p.chunks && ref.hash == h { assert Uses(m, h, FromPack(p.id)); }
    if e, ref :| e in m.entries && e.kind == File && ref in e.chunks && ref.hash == h { assert Uses(m, h, FromEntry(e.path)); }
  }

  /** The server's verdict on a manifest is such an answer. */
  lemma VerdictAnswers(c: Crypto, segs: Segs, index: Index, m: Manifest, v: Result<Manifest, Rejection>)
    requires Verdict(c, segs, index, m, v)
    ensures Answers(AnswerOf(v), Named(m), index.Keys)
  {
    hide PacksOk, EntryOk, Named, Uses;
    forall h ensures h in Named(m) <==> exists who :: Uses(m, h, who) { NamedIsUsed(m, h); }
    if v.Ok? {
      forall h | h in Named(m) ensures h in index {
        var who :| Uses(m, h, who);
        CompleteUses(index, m, h, who);
      }
    } else if v.error.MissingChunks? {
      var missing := v.error.missing;
      MissingIsExact(c, segs, index, m, missing);
      forall h ensures h in missing.Keys <==> h in Named(m) - index.Keys {
        if h in missing { var who :| Uses(m, h, who); }
      }
    }
  }

  /** Confirmed in the agent's catalog recently enough to be reused unasked, yet not on the server. */
  function Stale(confirmed: map<Hash, nat>, index: set<Hash>, base: nat): set<Hash> {
    set h | h in confirmed && confirmed[h] >= base && h !in index
  }

  class BackupRun {
    var confirmed: map<Hash, nat>   // the agent's catalog
    var index: set<Hash>            // the server's index
    const base: nat                 // the generation the run started from

    ghost function StaleNow(): set<Hash>
      reads this
    {
      Stale(confirmed, index, base)
    }

    constructor (confirmed: map<Hash, nat>, index: set<Hash>, base: nat)
      ensures this.confirmed == confirmed && this.index == index && this.base == base
    {
      this.confirmed, this.index, this.base := confirmed, index, base;
    }

    /** One pass over the files: a chunk confirmed since the base generation is taken as stored, any
        other one is checked, uploaded if need be, and confirmed. */
    method ScanAndUpload(wanted: seq<Hash>, stamp: nat)
      modifies this
      ensures old(index) <= index <= old(index) + ToSet(wanted)
      ensures StaleNow() == Stale(old(confirmed), index, base) <= old(StaleNow())
      ensures ToSet(wanted) - index == ToSet(wanted) * old(StaleNow()) == ToSet(wanted) * StaleNow()
      ensures forall h :: h in confirmed <==> h in old(confirmed) || h in wanted
      ensures forall h :: h in confirmed ==> (
        confirmed[h] == if h in wanted && !(h in old(confirmed) && old(confirmed)[h] >= base) then stamp else old(confirmed)[h])
    {
      for i := 0 to |wanted|
        invariant old(index) <= index <= old(index) + ToSet(wanted)
        invariant forall h :: h in confirmed && h !in index <==> h in old(confirmed) && h !in index
        invariant forall h :: h in confirmed && h !in index ==> confirmed[h] == old(confirmed)[h]
        invariant forall h :: h in old(StaleNow()) ==> h !in index
        invariant forall k :: 0 <= k < i ==> wanted[k] in index || wanted[k] in old(StaleNow())
        invariant forall h :: h in confirmed <==> h in old(confirmed) || h in wanted[..i]
        invariant forall h :: h in confirmed ==> (
          confirmed[h] == if h in wanted[..i] && !(h in old(confirmed) && old(confirmed)[h] >= base) then stamp else old(confirmed)[h])
      {
        var hash := wanted[i];
        if !(hash in confirmed && confirmed[hash] >= base) {
          index := index + {hash};
          confirmed := confirmed[hash := stamp];
        }
      }
      assert wanted[..|wanted|] == wanted;
    }

    /** What the server says is missing is marked missing in the catalog. */
    method MarkMissing(missing: set<Hash>)
      modifies this`confirmed
      ensures confirmed == old(confirmed) - missing && StaleNow() == old(StaleNow()) - missing
    {
      var todo := missing;
      while todo != {}
        invariant todo <= missing && confirmed == old(confirmed) - (missing - todo)
      {
        var hash := Pick(todo);
        assert missing - (todo - {hash}) == (missing - todo) + {hash};
        todo := todo - {hash};
        confirmed := confirmed - {hash};
      }
      assert missing - todo == missing;
    }

    /** One attempt, and the server's answer to its manifest. */
    method Attempt(wanted: seq<Hash>, arrivals: set<Hash>, stamp: nat, server: set<Hash> -> Answer) returns (answer: Answer)
      requires forall stored :: Answers(server(stored), ToSet(wanted), stored)
      modifies this
      ensures answer == server(index)
      ensures answer.Accepted? ==> ToSet(wanted) <= index
      ensures answer.Missing? ==> answer.chunks == ToSet(wanted) - index == ToSet(wanted) * StaleNow() != {}
      ensures old(index) <= index && StaleNow() <= old(StaleNow())
      ensures ToSet(wanted) * old(StaleNow()) == {} ==> !answer.Missing?
    {
      index := index + arrivals;
      assert StaleNow() <= old(StaleNow());
      ScanAndUpload(wanted, stamp);
      answer := server(index);
    }

    /** The attempts of a backup. `scans` are the digests each attempt's manifest names, `arrivals` what
        others upload before each attempt, `server` the answer to each manifest, given what is stored;
        nothing is deleted meanwhile. An attempt is sent back for missing chunks only when it names a
        digest that is not stored; each one sent back leaves fewer stale confirmations; so running out of
        attempts takes more stale ones than attempts. */
    method RunWithRepairs(scans: nat -> seq<Hash>, arrivals: nat -> set<Hash>, stamp: nat, server: (nat, set<Hash>) -> Answer,
                          maxRepairAttempts: nat) returns (answer: Answer, attempt: nat)
      requires forall k, stored :: Answers(server(k, stored), ToSet(scans(k)), stored)
      modifies this
      ensures attempt <= maxRepairAttempts
      ensures answer.Accepted? ==> ToSet(scans(attempt)) <= index
      ensures answer.Missing? ==> attempt == maxRepairAttempts < |old(StaleNow())|
      ensures answer == server(attempt, index)
      ensures (forall k :: scans(k) == scans(0)) && maxRepairAttempts >= 1 ==> !answer.Missing? && attempt <= 1
      ensures old(StaleNow()) == {} ==> !answer.Missing? && attempt == 0
      ensures old(index) <= index && |StaleNow()| + attempt <= |old(StaleNow())|
    {
      hide Stale;
      answer, attempt := Refused, 0;
      while true
        invariant attempt <= maxRepairAttempts && old(index) <= index
        invariant |StaleNow()| + attempt <= |old(StaleNow())|
        invariant (forall k :: scans(k) == scans(0)) ==> attempt == 0 || (attempt == 1 && ToSet(scans(0)) * StaleNow() == {})
        decreases maxRepairAttempts - attempt
      {
        ghost var before := StaleNow();
        answer := Attempt(scans(attempt), arrivals(attempt), stamp, stored => server(attempt, stored));
        ghost var stale := StaleNow();
        SubsetSize(stale, before);
        if !answer.Missing? { return; }
        SubsetSize({}, stale);
        if attempt >= maxRepairAttempts { return; }
        MarkMissing(answer.chunks);
        SubsetSize(StaleNow(), stale);
        attempt := attempt + 1;
      }
    }
  }
}
