/**
  The per-organization audit chain and its verifier. Every record hashes its own fields
  together with the previous record's hash; a head row keeps the tail hash and the count.

  The hash is any function to hexadecimal digests. It is never assumed injective:
  `TamperEvidence` needs only that no two of the texts hashed here collide.
 */
module AuditChain {
  import opened Common
  import opened CanonicalJson

  /** The hashed fields of a record. `details` is the dictionary `details or {}`. */
  datatype Entry = Entry(
    organizationId: string, actor: string, actorRole: string, actionType: string,
    objectType: string, objectId: string, summary: string, details: seq<Field>,
    policyVersion: Option<string>)

  /** A stored row; `incidentId` and `createdAt` are not hashed. */
  datatype Record = Record(
    seqNo: nat, entry: Entry, prevHash: string, hash: string,
    incidentId: Option<string>, createdAt: int)

  datatype Head = Head(lastSeq: nat, lastHash: string, count: nat)

  type Sha = string -> string

  predicate Digest(d: string) {
    |d| == 64 && forall c :: c in d ==> '0' <= c <= '9' || 'a' <= c <= 'f'
  }

  ghost predicate HexDigests(sha: Sha) {
    forall s :: Digest(sha(s))
  }

  function PayloadOf(e: Entry): Json {
    Object([
      Field("action_type", Text(e.actionType)), Field("actor", Text(e.actor)),
      Field("actor_role", Text(e.actorRole)), Field("details", Object(e.details)),
      Field("object_id", Text(e.objectId)), Field("object_type", Text(e.objectType)),
      Field("organization_id", Text(e.organizationId)),
      Field("policy_version", match e.policyVersion case None => Null case Some(v) => Text(v)),
      Field("summary", Text(e.summary))])
  }

  /** The text that is hashed: the previous hash, then the canonical payload. */
  function Preimage(prev: string, e: Entry): string {
    prev + Canonical(PayloadOf(e))
  }

  lemma PayloadInjective(d: Entry, e: Entry)
    requires PayloadOf(d) == PayloadOf(e)
    ensures d == e
  {
    var f, g := PayloadOf(d).fields, PayloadOf(e).fields;
    assert f[0] == g[0] && f[1] == g[1] && f[2] == g[2] && f[3] == g[3] && f[4] == g[4];
    assert f[5] == g[5] && f[6] == g[6] && f[7] == g[7] && f[8] == g[8];
  }

  /** A previous hash: empty for the first record, a digest for the others. */
  predicate Link(prev: string) {
    prev == "" || Digest(prev)
  }

  /** Neither the previous hash nor the payload can be shifted into the other. */
  lemma PreimageInjective(p: string, d: Entry, q: string, e: Entry)
    requires Link(p) && Link(q) && Preimage(p, d) == Preimage(q, e)
    ensures p == q && d == e
  {
    var x, y := Canonical(PayloadOf(d)), Canonical(PayloadOf(e));
    assert x[0] == '{' && y[0] == '{';
    assert p != "" ==> (p + x)[0] == p[0] && p[0] in p;
    assert q != "" ==> (q + y)[0] == q[0] && q[0] in q;
    assert p == "" ==> (p + x)[0] == x[0];
    assert q == "" ==> (q + y)[0] == y[0];
    SplitSame(p, q, x, y);
    CanonicalInjective(PayloadOf(d), PayloadOf(e));
    PayloadInjective(d, e);
  }

  // ---------------------------------------------------------------- chains

  function PrevAt(records: seq<Record>, i: nat): string
    requires i <= |records|
  {
    if i == 0 then "" else records[i - 1].hash
  }

  predicate LinkOk(sha: Sha, records: seq<Record>, i: nat)
    requires i < |records|
  {
    var r := records[i];
    r.prevHash == PrevAt(records, i) && r.hash == sha(Preimage(r.prevHash, r.entry))
  }

  ghost predicate Chained(sha: Sha, records: seq<Record>) {
    forall i :: 0 <= i < |records| ==> LinkOk(sha, records, i)
  }

  /** The checkpoint agrees with the records; an absent or empty checkpoint says nothing. */
  predicate HeadAgrees(records: seq<Record>, head: Option<Head>) {
    head.Some? && head.value.count > 0 ==>
      && |records| == head.value.count
      && records[|records| - 1].hash == head.value.lastHash
  }

  ghost predicate Verifies(sha: Sha, records: seq<Record>, head: Option<Head>) {
    Chained(sha, records) && HeadAgrees(records, head)
  }

  /** The first record whose link or hash is wrong. */
  ghost predicate FirstBad(sha: Sha, records: seq<Record>, i: nat) {
    i < |records| && !LinkOk(sha, records, i) && forall k :: 0 <= k < i ==> LinkOk(sha, records, k)
  }

  /** Walks the records of one organization in sequence order, then consults the head. */
  method VerifyChain(sha: Sha, records: seq<Record>, head: Option<Head>) returns (ok: bool, badSeq: Option<nat>)
    ensures ok <==> Verifies(sha, records, head)
    ensures ok <==> badSeq == None
    ensures !Chained(sha, records) ==> exists i: nat :: FirstBad(sha, records, i) && badSeq == Some(records[i].seqNo)
    ensures !ok && Chained(sha, records) ==> head.Some? && badSeq == Some(head.value.lastSeq)
  {
    var prev := "";
    var count := 0;
    var last: Option<Record> := None;
    for i := 0 to |records|
      invariant prev == PrevAt(records, i) && count == i
      invariant last == if i == 0 then None else Some(records[i - 1])
      invariant forall k :: 0 <= k < i ==> LinkOk(sha, records, k)
    {
      var rec := records[i];
      var expected := sha(Preimage(rec.prevHash, rec.entry));
      if rec.prevHash != prev || rec.hash != expected {
        assert FirstBad(sha, records, i);
        return false, Some(rec.seqNo);
      }
      prev := rec.hash;
      count := count + 1;
      last := Some(rec);
    }
    if head.Some? && head.value.count > 0 {
      if count != head.value.count || last == None || last.value.hash != head.value.lastHash {
        return false, Some(head.value.lastSeq);
      }
    }
    return true, None;
  }

  // ---------------------------------------------------------------- tamper evidence

  ghost function Inputs(records: seq<Record>): set<string> {
    set r | r in records :: Preimage(r.prevHash, r.entry)
  }

  ghost predicate CollisionFree(sha: Sha, inputs: set<string>) {
    forall a, b :: a in inputs && b in inputs && sha(a) == sha(b) ==> a == b
  }

  datatype Hashed = Hashed(entry: Entry, prevHash: string, hash: string)

  /** What the chain protects of a row. */
  function HashedPart(r: Record): Hashed {
    Hashed(r.entry, r.prevHash, r.hash)
  }

  ghost predicate SameHashedParts(a: seq<Record>, b: seq<Record>) {
    |a| == |b| && forall i :: 0 <= i < |a| ==> HashedPart(a[i]) == HashedPart(b[i])
  }

  lemma PrevIsLink(sha: Sha, records: seq<Record>, i: nat)
    requires HexDigests(sha) && Chained(sha, records) && i <= |records|
    ensures Link(PrevAt(records, i))
  {
    if i > 0 {
      assert LinkOk(sha, records, i - 1);
    }
  }

  lemma ChainedPrefix(sha: Sha, records: seq<Record>, n: nat)
    requires Chained(sha, records) && n <= |records|
    ensures Chained(sha, records[..n])
  {
    forall i | 0 <= i < n ensures LinkOk(sha, records[..n], i) {
      assert LinkOk(sha, records, i);
    }
  }

  /** Equal hashes come from equal links, unless the hash collides. */
  lemma HashDeterminesRecord(sha: Sha, a: seq<Record>, b: seq<Record>, i: nat, j: nat)
    requires HexDigests(sha) && CollisionFree(sha, Inputs(a) + Inputs(b))
    requires Chained(sha, a) && Chained(sha, b) && i < |a| && j < |b|
    requires a[i].hash == b[j].hash
    ensures HashedPart(a[i]) == HashedPart(b[j]) && PrevAt(a, i) == PrevAt(b, j)
  {
    assert LinkOk(sha, a, i) && LinkOk(sha, b, j);
    assert Preimage(a[i].prevHash, a[i].entry) in Inputs(a) && Preimage(b[j].prevHash, b[j].entry) in Inputs(b);
    PrevIsLink(sha, a, i);
    PrevIsLink(sha, b, j);
    PreimageInjective(a[i].prevHash, a[i].entry, b[j].prevHash, b[j].entry);
  }

  lemma SamePartsSnoc(a: seq<Record>, b: seq<Record>)
    requires |a| == |b| > 0 && SameHashedParts(a[..|a| - 1], b[..|b| - 1])
    requires HashedPart(a[|a| - 1]) == HashedPart(b[|b| - 1])
    ensures SameHashedParts(a, b)
  {
    var n := |a| - 1;
    forall i | 0 <= i <= n ensures HashedPart(a[i]) == HashedPart(b[i]) {
      assert i < n ==> a[..n][i] == a[i] && b[..n][i] == b[i];
    }
  }

  lemma PrefixInputs(a: seq<Record>, b: seq<Record>, n: nat)
    requires n <= |a| && n <= |b|
    ensures Inputs(a[..n]) + Inputs(b[..n]) <= Inputs(a) + Inputs(b)
  {}

  /** Chains of one length with one tail hash agree in every hashed field. */
  lemma {:induction false} TailDeterminesChain(sha: Sha, a: seq<Record>, b: seq<Record>)
    requires HexDigests(sha) && CollisionFree(sha, Inputs(a) + Inputs(b))
    requires Chained(sha, a) && Chained(sha, b) && |a| == |b|
    requires PrevAt(a, |a|) == PrevAt(b, |b|)
    ensures SameHashedParts(a, b)
  {
    if a != [] {
      var n := |a| - 1;
      HashDeterminesRecord(sha, a, b, n, n);
      ChainedPrefix(sha, a, n);
      ChainedPrefix(sha, b, n);
      PrefixInputs(a, b, n);
      assert PrevAt(a[..n], n) == PrevAt(a, n) && PrevAt(b[..n], n) == PrevAt(b, n);
      TailDeterminesChain(sha, a[..n], b[..n]);
      SamePartsSnoc(a, b);
    }
  }

  function HeadOf(records: seq<Record>): Head
    requires records != []
  {
    var last := records[|records| - 1];
    Head(last.seqNo, last.hash, |records|)
  }

  lemma SamePartsVerify(sha: Sha, a: seq<Record>, b: seq<Record>)
    requires Chained(sha, a) && SameHashedParts(a, b)
    ensures Chained(sha, b)
  {
    forall i | 0 <= i < |b| ensures LinkOk(sha, b, i) {
      assert LinkOk(sha, a, i) && HashedPart(a[i]) == HashedPart(b[i]);
      assert i > 0 ==> HashedPart(a[i - 1]) == HashedPart(b[i - 1]);
    }
  }

  /**
    Against an untouched head, whatever rows the table is found to hold - edited,
    deleted, inserted, reordered, with hashes recomputed at will - they verify if and
    only if their hashed fields are exactly those that were appended.
   */
  lemma TamperEvidence(sha: Sha, appended: seq<Record>, stored: seq<Record>)
    requires HexDigests(sha) && CollisionFree(sha, Inputs(appended) + Inputs(stored))
    requires Chained(sha, appended) && appended != []
    ensures Verifies(sha, stored, Some(HeadOf(appended))) <==> SameHashedParts(appended, stored)
  {
    if Verifies(sha, stored, Some(HeadOf(appended))) {
      TailDeterminesChain(sha, appended, stored);
    }
    if SameHashedParts(appended, stored) {
      SamePartsVerify(sha, appended, stored);
      assert HashedPart(appended[|appended| - 1]) == HashedPart(stored[|stored| - 1]);
    }
  }

  /** Without the head row - or with a head of count zero - any truncation of a good chain verifies. */
  lemma TruncationNeedsHead(sha: Sha, appended: seq<Record>, n: nat, head: Option<Head>)
    requires Chained(sha, appended) && n <= |appended|
    requires appended != []
    requires head == None || head == Some(HeadOf(appended)) || (head.Some? && head.value.count == 0)
    ensures Verifies(sha, appended[..n], head) <==> n == |appended| || head == None || head.value.count == 0
  {
    ChainedPrefix(sha, appended, n);
    if n == |appended| {
      assert appended[..n] == appended;
    }
  }

  // ---------------------------------------------------------------- distinct positions

  /** Rows after different links have different hashes. */
  lemma DifferentHashes(sha: Sha, records: seq<Record>, i: nat, j: nat)
    requires HexDigests(sha) && CollisionFree(sha, Inputs(records)) && Chained(sha, records)
    requires i < |records| && j < |records| && PrevAt(records, i) != PrevAt(records, j)
    ensures records[i].hash != records[j].hash
  {
    if records[i].hash == records[j].hash {
      HashDeterminesRecord(sha, records, records, i, j);
    }
  }

  /** Hashes along a chain never repeat, and none is the empty first link. */
  lemma {:induction false} HashesDistinct(sha: Sha, records: seq<Record>, i: nat, j: nat)
    requires HexDigests(sha) && CollisionFree(sha, Inputs(records)) && Chained(sha, records)
    requires i < j <= |records|
    ensures PrevAt(records, i) != PrevAt(records, j)
  {
    if i == 0 {
      assert LinkOk(sha, records, j - 1);
    } else {
      HashesDistinct(sha, records, i - 1, j - 1);
      DifferentHashes(sha, records, i - 1, j - 1);
    }
  }
}
