/**
  Appending to the audit chains of many organizations from many concurrent writers.
  A writer first reads the head (or, on a legacy chain without one, the tail and the
  count) and later tries to insert; the table's unique constraint on
  (organization, previous hash) and the head's primary key arbitrate.
 */
module AuditProtocol {
  import opened Common
  import opened AuditChain

  const MAX_APPEND_RETRIES: nat := 4

  /** The two tables; `records` holds every organization's rows in sequence order. */
  datatype Db = Db(records: seq<Record>, heads: map<string, Head>)

  /** What an append wants to store. */
  datatype Request = Request(entry: Entry, incidentId: Option<string>, createdAt: int)

  /** What a writer remembers between its read and its insert. */
  datatype Snapshot = Snapshot(request: Request, prevHash: string, baseCount: nat, sawHead: bool)

  function OfOrg(records: seq<Record>, org: string): seq<Record> {
    if records == [] then []
    else
      var rest, last := OfOrg(records[..|records| - 1], org), records[|records| - 1];
      if last.entry.organizationId == org then rest + [last] else rest
  }

  function Read(db: Db, req: Request): Snapshot {
    var org := req.entry.organizationId;
    if org in db.heads then Snapshot(req, db.heads[org].lastHash, db.heads[org].count, true)
    else
      var chain := OfOrg(db.records, org);
      Snapshot(req, PrevAt(chain, |chain|), |chain|, false)
  }

  function NextSeq(db: Db): nat {
    if db.records == [] then 1 else db.records[|db.records| - 1].seqNo + 1
  }

  function NewRecord(sha: Sha, db: Db, snap: Snapshot): Record {
    var req := snap.request;
    Record(NextSeq(db), req.entry, snap.prevHash, sha(Preimage(snap.prevHash, req.entry)),
           req.incidentId, req.createdAt)
  }

  /** Whether a row of the organization already claims this chain position. */
  predicate PositionTaken(db: Db, org: string, prevHash: string) {
    exists i :: 0 <= i < |db.records| && db.records[i].entry.organizationId == org && db.records[i].prevHash == prevHash
  }

  /** Whether the insert, with its head insert or update, meets both unique constraints. */
  predicate CanWrite(db: Db, snap: Snapshot) {
    var org := snap.request.entry.organizationId;
    && !PositionTaken(db, org, snap.prevHash)
    && (snap.sawHead || org !in db.heads)
  }

  /** Inserts the row and writes the head from the snapshot, or rolls both back. */
  function TryWrite(sha: Sha, db: Db, snap: Snapshot): Db {
    if CanWrite(db, snap) then
      var rec := NewRecord(sha, db, snap);
      Db(db.records + [rec],
         db.heads[snap.request.entry.organizationId := Head(rec.seqNo, rec.hash, snap.baseCount + 1)])
    else db
  }

  // ---------------------------------------------------------------- writers interleaved

  datatype Step = ReadStep(writer: nat, request: Request) | WriteStep(writer: nat)

  datatype System = System(db: Db, pending: map<nat, Snapshot>)

  function Apply(sha: Sha, s: System, step: Step): System {
    match step
    case ReadStep(w, req) => s.(pending := s.pending[w := Read(s.db, req)])
    case WriteStep(w) =>
      if w in s.pending then System(TryWrite(sha, s.db, s.pending[w]), s.pending - {w}) else s
  }

  function Run(sha: Sha, s: System, steps: seq<Step>): System {
    if steps == [] then s
    else Apply(sha, Run(sha, s, steps[..|steps| - 1]), steps[|steps| - 1])
  }

  function Chain(db: Db, org: string): seq<Record> {
    OfOrg(db.records, org)
  }

  /** Each organization has one good chain; its head, if it has one, is the true tail and count. */
  ghost predicate GoodDb(sha: Sha, db: Db) {
    && (forall org :: Chained(sha, Chain(db, org)))
    && (forall org :: org in db.heads ==> Chain(db, org) != [] && db.heads[org] == HeadOf(Chain(db, org)))
  }

  /** A snapshot describes a prefix of the chain as it is now. */
  ghost predicate GoodSnapshot(db: Db, snap: Snapshot) {
    var org := snap.request.entry.organizationId;
    var chain := Chain(db, org);
    && snap.baseCount <= |chain| && snap.prevHash == PrevAt(chain, snap.baseCount)
    && (snap.sawHead ==> org in db.heads)
    && (!snap.sawHead && snap.baseCount == |chain| ==> org !in db.heads)
  }

  ghost predicate Good(sha: Sha, s: System) {
    GoodDb(sha, s.db) && forall w :: w in s.pending ==> GoodSnapshot(s.db, s.pending[w])
  }

  lemma ChainSnoc(records: seq<Record>, rec: Record, org: string)
    ensures OfOrg(records + [rec], org) ==
      if rec.entry.organizationId == org then OfOrg(records, org) + [rec] else OfOrg(records, org)
  {
    assert (records + [rec])[..|records|] == records;
  }

  lemma {:induction false} ChainMembers(records: seq<Record>, org: string)
    ensures forall r :: r in OfOrg(records, org) <==> r in records && r.entry.organizationId == org
  {
    if records != [] {
      var init := records[..|records| - 1];
      ChainMembers(init, org);
      assert records == init + [records[|records| - 1]];
    }
  }

  lemma ReadIsGood(sha: Sha, db: Db, req: Request)
    requires GoodDb(sha, db)
    ensures GoodSnapshot(db, Read(db, req))
    ensures Read(db, req).baseCount == |Chain(db, req.entry.organizationId)|
  {}

  /** An insert meets the constraints exactly when nothing was appended to the chain since the read. */
  lemma WriteSucceedsExactly(sha: Sha, db: Db, snap: Snapshot)
    requires HexDigests(sha) && GoodDb(sha, db) && GoodSnapshot(db, snap)
    requires CollisionFree(sha, Inputs(db.records))
    ensures CanWrite(db, snap) <==> snap.baseCount == |Chain(db, snap.request.entry.organizationId)|
  {
    var org := snap.request.entry.organizationId;
    var chain := Chain(db, org);
    ChainMembers(db.records, org);
    assert Inputs(chain) <= Inputs(db.records);
    if snap.baseCount < |chain| {
      assert LinkOk(sha, chain, snap.baseCount);
      var r := chain[snap.baseCount];
      assert r in chain;
      var i :| 0 <= i < |db.records| && db.records[i] == r;
      assert PositionTaken(db, org, snap.prevHash);
    } else if PositionTaken(db, org, snap.prevHash) {
      var i :| 0 <= i < |db.records| && db.records[i].entry.organizationId == org
        && db.records[i].prevHash == snap.prevHash;
      assert db.records[i] in chain;
      var j :| 0 <= j < |chain| && chain[j] == db.records[i];
      assert LinkOk(sha, chain, j);
      HashesDistinct(sha, chain, j, |chain|);
    }
  }

  lemma ChainedSnoc(sha: Sha, chain: seq<Record>, rec: Record)
    requires Chained(sha, chain)
    requires rec.prevHash == PrevAt(chain, |chain|) && rec.hash == sha(Preimage(rec.prevHash, rec.entry))
    ensures Chained(sha, chain + [rec])
  {
    var all := chain + [rec];
    forall i | 0 <= i < |all| ensures LinkOk(sha, all, i) {
      assert PrevAt(all, i) == PrevAt(chain, i);
      assert i < |chain| ==> LinkOk(sha, chain, i);
    }
  }

  /** A write keeps every chain and head good, whoever else is still holding an older snapshot. */
  lemma WriteKeepsDb(sha: Sha, db: Db, snap: Snapshot)
    requires HexDigests(sha) && GoodDb(sha, db) && GoodSnapshot(db, snap)
    requires CollisionFree(sha, Inputs(db.records))
    ensures GoodDb(sha, TryWrite(sha, db, snap))
    ensures forall org :: Chain(TryWrite(sha, db, snap), org) == ChainAfter(sha, db, snap, org)
  {
    WriteSucceedsExactly(sha, db, snap);
    var db' := TryWrite(sha, db, snap);
    if CanWrite(db, snap) {
      var mine, rec := snap.request.entry.organizationId, NewRecord(sha, db, snap);
      forall org ensures Chain(db', org) == ChainAfter(sha, db, snap, org) {
        ChainSnoc(db.records, rec, org);
      }
      ChainedSnoc(sha, Chain(db, mine), rec);
      assert db'.heads[mine] == HeadOf(Chain(db', mine));
    }
  }

  function ChainAfter(sha: Sha, db: Db, snap: Snapshot, org: string): seq<Record> {
    if CanWrite(db, snap) && org == snap.request.entry.organizationId
    then Chain(db, org) + [NewRecord(sha, db, snap)] else Chain(db, org)
  }

  lemma WriteKeepsSnapshot(sha: Sha, db: Db, snap: Snapshot, other: Snapshot)
    requires HexDigests(sha) && GoodDb(sha, db) && GoodSnapshot(db, snap) && GoodSnapshot(db, other)
    requires CollisionFree(sha, Inputs(db.records))
    ensures GoodSnapshot(TryWrite(sha, db, snap), other)
  {
    WriteKeepsDb(sha, db, snap);
    WriteSucceedsExactly(sha, db, snap);
    var org := other.request.entry.organizationId;
    var before, after := Chain(db, org), Chain(TryWrite(sha, db, snap), org);
    assert PrevAt(after, other.baseCount) == PrevAt(before, other.baseCount);
  }

  lemma StepKeepsGood(sha: Sha, s: System, step: Step)
    requires HexDigests(sha) && Good(sha, s) && CollisionFree(sha, Inputs(s.db.records))
    ensures Good(sha, Apply(sha, s, step))
    ensures s.db.records <= Apply(sha, s, step).db.records
  {
    match step
    case ReadStep(w, req) => ReadIsGood(sha, s.db, req);
    case WriteStep(w) =>
      if w in s.pending {
        WriteKeepsDb(sha, s.db, s.pending[w]);
        forall v | v in s.pending ensures GoodSnapshot(TryWrite(sha, s.db, s.pending[w]), s.pending[v]) {
          WriteKeepsSnapshot(sha, s.db, s.pending[w], s.pending[v]);
        }
      }
  }

  lemma InputsMonotone(a: seq<Record>, b: seq<Record>)
    requires a <= b
    ensures Inputs(a) <= Inputs(b)
  {
    assert forall r :: r in a ==> r in b;
  }

  /**
    Under every interleaving of any number of writers, legacy chains included, every
    organization keeps one chain that verifies against its head, which is the true tail.
   */
  lemma {:induction false} AuditSafety(sha: Sha, s: System, steps: seq<Step>)
    requires HexDigests(sha) && Good(sha, s)
    requires CollisionFree(sha, Inputs(Run(sha, s, steps).db.records))
    ensures Good(sha, Run(sha, s, steps))
    ensures forall org :: var db := Run(sha, s, steps).db;
      Verifies(sha, Chain(db, org), if org in db.heads then Some(db.heads[org]) else None)
  {
    if steps != [] {
      var init, last := steps[..|steps| - 1], steps[|steps| - 1];
      var mid := Run(sha, s, init);
      assert mid.db.records <= Apply(sha, mid, last).db.records;
      InputsMonotone(mid.db.records, Run(sha, s, steps).db.records);
      AuditSafety(sha, s, init);
      StepKeepsGood(sha, mid, last);
    }
  }

  /**
    Whatever the table of an organization is later found to hold, it verifies against the
    head that the run left if and only if its hashed fields are those the run committed.
   */
  lemma CommittedChainIsEvident(sha: Sha, s: System, steps: seq<Step>, org: string, stored: seq<Record>)
    requires HexDigests(sha) && Good(sha, s) && org in Run(sha, s, steps).db.heads
    requires CollisionFree(sha, Inputs(Run(sha, s, steps).db.records) + Inputs(stored))
    ensures var db := Run(sha, s, steps).db;
      Verifies(sha, stored, Some(db.heads[org])) <==> SameHashedParts(Chain(db, org), stored)
  {
    var db := Run(sha, s, steps).db;
    AuditSafety(sha, s, steps);
    ChainMembers(db.records, org);
    assert Inputs(Chain(db, org)) <= Inputs(db.records);
    TamperEvidence(sha, Chain(db, org), stored);
  }

  /** In such a run a writer's insert fails exactly when its organization got another record since its read. */
  lemma FailsOnlyOnContention(sha: Sha, s: System, w: nat, req: Request, between: seq<Step>)
    requires HexDigests(sha) && Good(sha, s)
    requires forall i :: 0 <= i < |between| ==> between[i].writer != w
    requires CollisionFree(sha, Inputs(Run(sha, Apply(sha, s, ReadStep(w, req)), between).db.records))
    ensures var org, s1 := req.entry.organizationId, Run(sha, Apply(sha, s, ReadStep(w, req)), between);
      && w in s1.pending
      && (CanWrite(s1.db, s1.pending[w]) <==> |Chain(s1.db, org)| == |Chain(s.db, org)|)
  {
    var s0 := Apply(sha, s, ReadStep(w, req));
    ReadIsGood(sha, s.db, req);
    AuditSafety(sha, s0, between);
    SnapshotStays(sha, s0, between, w);
    var s1 := Run(sha, s0, between);
    WriteSucceedsExactly(sha, s1.db, s1.pending[w]);
  }

  lemma {:induction false} SnapshotStays(sha: Sha, s: System, steps: seq<Step>, w: nat)
    requires w in s.pending && forall i :: 0 <= i < |steps| ==> steps[i].writer != w
    ensures w in Run(sha, s, steps).pending && Run(sha, s, steps).pending[w] == s.pending[w]
  {
    if steps != [] {
      SnapshotStays(sha, s, steps[..|steps| - 1], w);
    }
  }

  // ---------------------------------------------------------------- the retry loop

  /** One append by another writer that meets no contention. */
  function Commit(sha: Sha, db: Db, req: Request): Db {
    TryWrite(sha, db, Read(db, req))
  }

  function CommitAll(sha: Sha, db: Db, reqs: seq<Request>): Db {
    if reqs == [] then db else Commit(sha, CommitAll(sha, db, reqs[..|reqs| - 1]), reqs[|reqs| - 1])
  }

  /**
    An append whose `i`-th attempt is interrupted, between its read and its insert, by
    the appends `windows[i]` of other writers.
   */
  function Append(sha: Sha, db: Db, req: Request, windows: seq<seq<Request>>): (Db, Option<Record>)
    decreases |windows|
  {
    if windows == [] then (db, None)
    else
      var snap := Read(db, req);
      var db1 := CommitAll(sha, db, windows[0]);
      if CanWrite(db1, snap) then (TryWrite(sha, db1, snap), Some(NewRecord(sha, db1, snap)))
      else Append(sha, db1, req, windows[1..])
  }

  function Hit(req: Request, org: string): nat {
    if req.entry.organizationId == org then 1 else 0
  }

  /** How many of the requests append to the organization's chain. */
  function Hits(reqs: seq<Request>, org: string): nat {
    if reqs == [] then 0 else Hits(reqs[..|reqs| - 1], org) + Hit(reqs[|reqs| - 1], org)
  }

  lemma {:induction false} CommitAllGrows(sha: Sha, db: Db, reqs: seq<Request>)
    ensures db.records <= CommitAll(sha, db, reqs).records
  {
    if reqs != [] {
      CommitAllGrows(sha, db, reqs[..|reqs| - 1]);
    }
  }

  lemma {:induction false} AppendGrows(sha: Sha, db: Db, req: Request, windows: seq<seq<Request>>)
    ensures db.records <= Append(sha, db, req, windows).0.records
    decreases |windows|
  {
    if windows != [] {
      CommitAllGrows(sha, db, windows[0]);
      AppendGrows(sha, CommitAll(sha, db, windows[0]), req, windows[1..]);
    }
  }

  lemma CommitKeeps(sha: Sha, db: Db, req: Request, snap: Snapshot)
    requires HexDigests(sha) && GoodDb(sha, db) && GoodSnapshot(db, snap) && CollisionFree(sha, Inputs(db.records))
    ensures GoodDb(sha, Commit(sha, db, req)) && GoodSnapshot(Commit(sha, db, req), snap)
    ensures var org := snap.request.entry.organizationId;
      |Chain(Commit(sha, db, req), org)| == |Chain(db, org)| + Hit(req, org)
  {
    ReadIsGood(sha, db, req);
    WriteKeepsDb(sha, db, Read(db, req));
    WriteKeepsSnapshot(sha, db, Read(db, req), snap);
    WriteSucceedsExactly(sha, db, Read(db, req));
  }

  lemma {:induction false} CommitAllKeeps(sha: Sha, db: Db, reqs: seq<Request>, snap: Snapshot)
    requires HexDigests(sha) && GoodDb(sha, db) && GoodSnapshot(db, snap)
    requires CollisionFree(sha, Inputs(CommitAll(sha, db, reqs).records))
    ensures GoodDb(sha, CommitAll(sha, db, reqs)) && GoodSnapshot(CommitAll(sha, db, reqs), snap)
    ensures var org := snap.request.entry.organizationId;
      |Chain(CommitAll(sha, db, reqs), org)| == |Chain(db, org)| + Hits(reqs, org)
  {
    if reqs != [] {
      var init, req := reqs[..|reqs| - 1], reqs[|reqs| - 1];
      var mid := CommitAll(sha, db, init);
      assert mid.records <= CommitAll(sha, db, reqs).records;
      InputsMonotone(mid.records, CommitAll(sha, db, reqs).records);
      CommitAllKeeps(sha, db, init, snap);
      CommitKeeps(sha, mid, req, snap);
    }
  }

  /** The newest record of the organization's chain is this one, and it carries the request. */
  ghost predicate Landed(db: Db, req: Request, rec: Record) {
    var chain := Chain(db, req.entry.organizationId);
    chain != [] && chain[|chain| - 1] == rec && rec.entry == req.entry
  }

  lemma AttemptOutcome(sha: Sha, db: Db, req: Request, window: seq<Request>)
    requires HexDigests(sha) && GoodDb(sha, db)
    requires CollisionFree(sha, Inputs(CommitAll(sha, db, window).records))
    ensures var snap, db1 := Read(db, req), CommitAll(sha, db, window);
      && GoodDb(sha, db1)
      && (CanWrite(db1, snap) <==> Hits(window, req.entry.organizationId) == 0)
      && GoodDb(sha, TryWrite(sha, db1, snap))
      && (CanWrite(db1, snap) ==> Landed(TryWrite(sha, db1, snap), req, NewRecord(sha, db1, snap)))
  {
    var snap, db1 := Read(db, req), CommitAll(sha, db, window);
    ReadIsGood(sha, db, req);
    CommitAllKeeps(sha, db, window, snap);
    WriteSucceedsExactly(sha, db1, snap);
    WriteKeepsDb(sha, db1, snap);
  }

  /**
    The append lands exactly when one of its attempts runs free of appends to the same
    organization, and then as the newest record of a chain that still verifies.
   */
  lemma {:induction false} AppendOutcome(sha: Sha, db: Db, req: Request, windows: seq<seq<Request>>)
    requires HexDigests(sha) && GoodDb(sha, db)
    requires CollisionFree(sha, Inputs(Append(sha, db, req, windows).0.records))
    ensures var (db', rec) := Append(sha, db, req, windows);
      && GoodDb(sha, db')
      && (rec.Some? <==> exists i :: 0 <= i < |windows| && Hits(windows[i], req.entry.organizationId) == 0)
      && (rec.Some? ==> Landed(db', req, rec.value))
    decreases |windows|
  {
    if windows != [] {
      var org, db1 := req.entry.organizationId, CommitAll(sha, db, windows[0]);
      AppendGrows(sha, db1, req, windows[1..]);
      assert db1.records <= Append(sha, db, req, windows).0.records;
      InputsMonotone(db1.records, Append(sha, db, req, windows).0.records);
      AttemptOutcome(sha, db, req, windows[0]);
      if !CanWrite(db1, Read(db, req)) {
        AppendOutcome(sha, db1, req, windows[1..]);
        if i :| 0 <= i < |windows| && Hits(windows[i], org) == 0 {
          assert Hits(windows[1..][i - 1], org) == 0;
        }
      }
    }
  }

  // ---------------------------------------------------------------- the tables

  class AuditTables {
    var records: seq<Record>
    var heads: map<string, Head>

    ghost function Model(): Db
      reads this
    {
      Db(records, heads)
    }

    constructor (records: seq<Record>)
      ensures Model() == Db(records, map[])
    {
      this.records, heads := records, map[];
    }

    method ReadHead(req: Request) returns (snap: Snapshot)
      ensures snap == Read(Model(), req)
    {
      var org := req.entry.organizationId;
      if org in heads {
        return Snapshot(req, heads[org].lastHash, heads[org].count, true);
      }
      // Legacy chain without a checkpoint yet: adopt the existing tail.
      var lastHash, count := "", 0;
      for i := 0 to |records|
        invariant var chain := OfOrg(records[..i], org); count == |chain| && lastHash == PrevAt(chain, |chain|)
      {
        assert records[..i + 1] == records[..i] + [records[i]];
        ChainSnoc(records[..i], records[i], org);
        if records[i].entry.organizationId == org {
          lastHash, count := records[i].hash, count + 1;
        }
      }
      assert records[..|records|] == records;
      return Snapshot(req, lastHash, count, false);
    }

    /** The savepoint: both inserts, or neither. */
    method Insert(sha: Sha, snap: Snapshot) returns (rec: Option<Record>)
      modifies this
      ensures Model() == TryWrite(sha, old(Model()), snap)
      ensures rec == if CanWrite(old(Model()), snap) then Some(NewRecord(sha, old(Model()), snap)) else None
    {
      var org := snap.request.entry.organizationId;
      var row := NewRecord(sha, Db(records, heads), snap);
      for i := 0 to |records|
        invariant forall k :: 0 <= k < i ==>
          !(records[k].entry.organizationId == org && records[k].prevHash == snap.prevHash)
      {
        if records[i].entry.organizationId == org && records[i].prevHash == snap.prevHash {
          return None;
        }
      }
      if !snap.sawHead && org in heads {
        return None;
      }
      records := records + [row];
      heads := heads[org := Head(row.seqNo, row.hash, snap.baseCount + 1)];
      return Some(row);
    }

    /** What other writers commit while an append is between its read and its insert. */
    method Interfere(sha: Sha, reqs: seq<Request>)
      modifies this
      ensures Model() == CommitAll(sha, old(Model()), reqs)
    {
      for i := 0 to |reqs|
        invariant Model() == CommitAll(sha, old(Model()), reqs[..i])
      {
        var snap := ReadHead(reqs[i]);
        var _ := Insert(sha, snap);
        assert reqs[..i + 1][..i] == reqs[..i];
      }
      assert reqs[..|reqs|] == reqs;
    }

    /** `None` is the contention error after the last retry. */
    method AppendAudit(sha: Sha, req: Request, windows: seq<seq<Request>>) returns (rec: Option<Record>)
      requires |windows| == MAX_APPEND_RETRIES
      modifies this
      ensures (Model(), rec) == Append(sha, old(Model()), req, windows)
    {
      for attempt := 0 to MAX_APPEND_RETRIES
        invariant Append(sha, old(Model()), req, windows) == Append(sha, Model(), req, windows[attempt..])
      {
        var snap := ReadHead(req);
        Interfere(sha, windows[attempt]);
        assert windows[attempt..][0] == windows[attempt] && windows[attempt..][1..] == windows[attempt + 1..];
        rec := Insert(sha, snap);
        if rec.Some? {
          return;
        }
      }
      return None;
    }
  }
}
