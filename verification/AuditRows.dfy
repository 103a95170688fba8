/**
  The rows the audit writers leave: what a write stores, in the request's own fields, and
  how the rows of all organizations are numbered.
 */
module AuditRows {
  import opened AuditChain
  import opened AuditProtocol

  /** The row stores what was asked for, linked to the organization's last row. */
  ghost predicate Stores(sha: Sha, r: Record, chain: seq<Record>, req: Request) {
    && r.entry == req.entry && r.incidentId == req.incidentId && r.createdAt == req.createdAt
    && r.prevHash == (if chain == [] then "" else chain[|chain| - 1].hash)
    && r.hash == sha(Preimage(r.prevHash, req.entry))
  }

  /** A write adds one row and moves its own head, exactly if its organization has grown no rows since the read. */
  lemma WriteStores(sha: Sha, s: System, w: nat)
    requires HexDigests(sha) && Good(sha, s) && CollisionFree(sha, Inputs(s.db.records)) && w in s.pending
    ensures var snap, db, u := s.pending[w], s.db, Apply(sha, s, WriteStep(w));
      var org := snap.request.entry.organizationId;
      && u.pending == s.pending - {w}
      && if |Chain(db, org)| > snap.baseCount then u.db == db
         else
           && |u.db.records| == |db.records| + 1 && u.db.records[..|db.records|] == db.records
           && var r := u.db.records[|db.records|];
              && Stores(sha, r, Chain(db, org), snap.request)
              && u.db.heads == db.heads[org := Head(r.seqNo, r.hash, |Chain(db, org)| + 1)]
  {
    WriteSucceedsExactly(sha, s.db, s.pending[w]);
  }

  ghost predicate Ascending(records: seq<Record>) {
    forall i, j :: 0 <= i < j < |records| ==> records[i].seqNo < records[j].seqNo
  }

  ghost predicate Counted(records: seq<Record>) {
    forall i :: 0 <= i < |records| ==> records[i].seqNo == i + 1
  }

  /** Sequence numbers rise through every run, and count the rows of a table that began empty. */
  lemma {:induction false} RowsNumbered(sha: Sha, s: System, steps: seq<Step>)
    requires Ascending(s.db.records)
    ensures Ascending(Run(sha, s, steps).db.records)
    ensures Counted(s.db.records) ==> Counted(Run(sha, s, steps).db.records)
  {
    if steps != [] {
      var init, last := steps[..|steps| - 1], steps[|steps| - 1];
      RowsNumbered(sha, s, init);
      StepNumbered(sha, Run(sha, s, init), last);
    }
  }

  lemma StepNumbered(sha: Sha, s: System, step: Step)
    requires Ascending(s.db.records)
    ensures Ascending(Apply(sha, s, step).db.records)
    ensures Counted(s.db.records) ==> Counted(Apply(sha, s, step).db.records)
  {
    var before, after := s.db.records, Apply(sha, s, step).db.records;
    if after != before {
      assert after == before + [after[|before|]] && after[|before|].seqNo == NextSeq(s.db);
      forall i | 0 <= i < |before| ensures after[i].seqNo < after[|before|].seqNo {
        assert i < |before| - 1 ==> before[i].seqNo < before[|before| - 1].seqNo;
      }
    }
  }
}
