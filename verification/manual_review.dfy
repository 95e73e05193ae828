/**
  Manual review of conformance evidence: snapshots of an instance's evidence, the
  append-only log of decisions, and the state a later reader derives from it.
 */
module ManualReview {
  import opened Options
  import opened Text

  // ---------- Ordering of strings ----------

  predicate Leq(a: string, b: string) {
    if a == "" then true
    else if b == "" then false
    else if a[0] == b[0] then Leq(a[1..], b[1..])
    else a[0] < b[0]
  }

  lemma {:induction false} LeqTotal(a: string, b: string)
    ensures Leq(a, b) || Leq(b, a)
    ensures Leq(a, b) && Leq(b, a) ==> a == b
    decreases |a|
  {
    if a != "" && b != "" && a[0] == b[0] {
      LeqTotal(a[1..], b[1..]);
      assert a == [a[0]] + a[1..] && b == [b[0]] + b[1..];
    }
  }

  lemma {:induction false} LeqTransitive(a: string, b: string, c: string)
    requires Leq(a, b) && Leq(b, c)
    ensures Leq(a, c)
    decreases |a|
  {
    if a != "" && a[0] == b[0] && b[0] == c[0] { LeqTransitive(a[1..], b[1..], c[1..]); }
  }

  // ---------- Evidence ----------

  /** An image entry of the suite's log; empty strings stand for absent fields. */
  datatype Entry = Entry(id: string, upload: string, img: string)

  datatype Info = Info(testName: string, planId: string, status: string, result: string)

  datatype Evidence = Evidence(entry: string, sha256: string)

  datatype Snapshot = Snapshot(name: string, planId: string, status: string, result: string,
                               pending: seq<Evidence>, images: seq<Evidence>)

  /** The digest of an image's bytes, None where image_bytes raises. */
  type Digest = string -> Option<string>

  predicate Readable(images: seq<Entry>, digest: Digest) {
    forall i :: 0 <= i < |images| ==> images[i].img != "" ==> digest(images[i].img).Some?
  }

  /** What one entry adds to the pending placeholders. */
  function PendingOf(e: Entry): seq<Evidence> {
    if e.upload != "" then [Evidence(e.upload, "")] else []
  }

  /** What one entry adds to the uploaded evidence. */
  function ImagesOf(e: Entry, digest: Digest): seq<Evidence> {
    if e.img != "" && digest(e.img).Some? then [Evidence(e.id, digest(e.img).value)] else []
  }

  /** What all entries add, in order. */
  function Collect(images: seq<Entry>, f: Entry -> seq<Evidence>): seq<Evidence> {
    if |images| == 0 then [] else Collect(images[..|images| - 1], f) + f(images[|images| - 1])
  }

  function AllPending(images: seq<Entry>): seq<Evidence> {
    Collect(images, PendingOf)
  }

  function AllImages(images: seq<Entry>, digest: Digest): seq<Evidence> {
    Collect(images, (e: Entry) => ImagesOf(e, digest))
  }

  // ---------- Sorting by entry ----------

  /** Inserts after equal keys, so that sorting is stable. */
  function Insert(s: seq<Evidence>, e: Evidence): seq<Evidence> {
    if |s| == 0 then [e]
    else if Leq(s[|s| - 1].entry, e.entry) then s + [e]
    else Insert(s[..|s| - 1], e) + [s[|s| - 1]]
  }

  /** sorted(..., key=entry). */
  function Sort(s: seq<Evidence>): seq<Evidence> {
    if |s| == 0 then [] else Insert(Sort(s[..|s| - 1]), s[|s| - 1])
  }

  predicate Sorted(s: seq<Evidence>) {
    forall i, j :: 0 <= i < j < |s| ==> Leq(s[i].entry, s[j].entry)
  }

  lemma {:induction false} InsertSorted(s: seq<Evidence>, e: Evidence)
    requires Sorted(s)
    ensures Sorted(Insert(s, e)) && multiset(Insert(s, e)) == multiset(s) + multiset{e}
    decreases |s|
  {
    if |s| > 0 {
      var n := |s| - 1;
      assert s == s[..n] + [s[n]];
      if Leq(s[n].entry, e.entry) {
        forall i | 0 <= i < |s| ensures Leq(s[i].entry, e.entry) {
          if i < n { LeqTransitive(s[i].entry, s[n].entry, e.entry); }
        }
      } else {
        LeqTotal(s[n].entry, e.entry);
        InsertSorted(s[..n], e);
        var t := Insert(s[..n], e);
        forall x | x in t ensures Leq(x.entry, s[n].entry) {
          assert x in multiset(t);
          if x != e { assert x in s[..n]; }
        }
      }
    }
  }

  lemma {:induction false} SortSorted(s: seq<Evidence>)
    ensures Sorted(Sort(s)) && multiset(Sort(s)) == multiset(s)
    decreases |s|
  {
    if |s| > 0 {
      var n := |s| - 1;
      assert s == s[..n] + [s[n]];
      SortSorted(s[..n]);
      InsertSorted(Sort(s[..n]), s[n]);
    }
  }

  /** Entries with one key are one entry. */
  ghost predicate Keyed(s: seq<Evidence>) {
    forall a, b :: a in s && b in s && a.entry == b.entry ==> a == b
  }

  /** A keyed collection has one sorted arrangement. */
  lemma {:induction false} LastIsGreatest(s: seq<Evidence>, x: Evidence)
    requires Sorted(s) && x in multiset(s)
    ensures |s| > 0 && Leq(x.entry, s[|s| - 1].entry)
  {
    var i :| 0 <= i < |s| && s[i] == x;
    if i == |s| - 1 { LeqTotal(x.entry, x.entry); }
  }

  lemma {:induction false} DropLast(s: seq<Evidence>)
    requires |s| > 0
    ensures multiset(s[..|s| - 1]) == multiset(s) - multiset{s[|s| - 1]}
    ensures s == s[..|s| - 1] + [s[|s| - 1]]
  {
    assert s == s[..|s| - 1] + [s[|s| - 1]];
  }

  lemma {:induction false} SameLength<T>(a: seq<T>, b: seq<T>)
    requires multiset(a) == multiset(b)
    ensures |a| == |b|
  {
    assert |multiset(a)| == |a| && |multiset(b)| == |b|;
  }

  lemma {:induction false} SameLast(a: seq<Evidence>, b: seq<Evidence>)
    requires Sorted(a) && Sorted(b) && multiset(a) == multiset(b) && Keyed(a) && |a| == |b| > 0
    ensures a[|a| - 1] == b[|b| - 1]
  {
    var m, n := a[|a| - 1], b[|b| - 1];
    assert m in multiset(a) && n in multiset(b);
    LastIsGreatest(b, m);
    LastIsGreatest(a, n);
    LeqTotal(m.entry, n.entry);
    assert m in a && n in a;
  }

  lemma {:induction false} SortedUnique(a: seq<Evidence>, b: seq<Evidence>)
    requires Sorted(a) && Sorted(b) && multiset(a) == multiset(b) && Keyed(a)
    ensures a == b
    decreases |a|
  {
    SameLength(a, b);
    if |a| > 0 {
      SameLast(a, b);
      DropLast(a);
      DropLast(b);
      SortedUnique(a[..|a| - 1], b[..|b| - 1]);
    }
  }

  // ---------- Snapshots ----------

  function SnapshotOf(info: Info, images: seq<Entry>, digest: Digest): Snapshot {
    Snapshot(info.testName, info.planId, info.status, info.result,
             Sort(AllPending(images)), Sort(AllImages(images, digest)))
  }

  /** evidence_snapshot: None where an image is not readable. */
  method EvidenceSnapshot(info: Info, images: seq<Entry>, digest: Digest) returns (r: Option<Snapshot>)
    ensures r == if Readable(images, digest) then Some(SnapshotOf(info, images, digest)) else None
  {
    var evidence, pending := [], [];
    for i := 0 to |images|
      invariant Readable(images[..i], digest)
      invariant pending == AllPending(images[..i]) && evidence == AllImages(images[..i], digest)
    {
      var e := images[i];
      assert images[..i + 1][..i] == images[..i];
      if e.upload != "" {
        pending := pending + [Evidence(e.upload, "")];
      }
      if e.img != "" {
        var sha := digest(e.img);
        if sha.None? {
          return None;
        }
        evidence := evidence + [Evidence(e.id, sha.value)];
      }
    }
    assert images[..|images|] == images;
    r := Some(Snapshot(info.testName, info.planId, info.status, info.result, Sort(pending), Sort(evidence)));
  }

  function Without(images: seq<Entry>, k: nat): seq<Entry>
    requires k < |images|
  {
    images[..k] + images[k + 1..]
  }

  lemma {:induction false} MultisetWithout(images: seq<Entry>, k: nat)
    requires k < |images|
    ensures multiset(Without(images, k)) == multiset(images) - multiset{images[k]}
  {
    assert images == images[..k] + [images[k]] + images[k + 1..];
  }

  lemma {:induction false} CollectWithout(images: seq<Entry>, k: nat, f: Entry -> seq<Evidence>)
    requires k < |images|
    ensures multiset(Collect(images, f)) == multiset(Collect(Without(images, k), f)) + multiset(f(images[k]))
    decreases |images|
  {
    var n := |images| - 1;
    var rest := Without(images, k);
    assert Collect(images, f) == Collect(images[..n], f) + f(images[n]);
    if k == n {
      assert rest == images[..n];
    } else {
      CollectWithout(images[..n], k, f);
      assert rest[..n - 1] == Without(images[..n], k) && rest[n - 1] == images[n];
      assert Collect(rest, f) == Collect(rest[..n - 1], f) + f(images[n]);
      Swap(multiset(Collect(rest[..n - 1], f)), multiset(f(images[k])), multiset(f(images[n])));
    }
  }

  lemma {:induction false} Swap(a: multiset<Evidence>, b: multiset<Evidence>, c: multiset<Evidence>)
    ensures (a + b) + c == (a + c) + b
  {
  }

  /** What is collected does not depend on the order of the entries. */
  lemma {:induction false} CollectPermutes(a: seq<Entry>, b: seq<Entry>, f: Entry -> seq<Evidence>)
    requires multiset(a) == multiset(b)
    ensures multiset(Collect(a, f)) == multiset(Collect(b, f))
    decreases |a|
  {
    SameLength(a, b);
    if |a| > 0 {
      var k := PlaceOf(a, b);
      CollectWithout(a, 0, f);
      CollectWithout(b, k, f);
      MultisetWithout(a, 0);
      MultisetWithout(b, k);
      CollectPermutes(Without(a, 0), Without(b, k), f);
    }
  }

  lemma {:induction false} PlaceOf(a: seq<Entry>, b: seq<Entry>) returns (k: nat)
    requires multiset(a) == multiset(b) && |a| > 0
    ensures k < |b| && b[k] == a[0]
  {
    assert a[0] in multiset(b);
    k :| 0 <= k < |b| && b[k] == a[0];
  }

  lemma {:induction false} PendingKeyed(images: seq<Entry>)
    ensures forall e :: e in AllPending(images) ==> e.sha256 == ""
    decreases |images|
  {
    if |images| > 0 { PendingKeyed(images[..|images| - 1]); }
  }

  /** Reordering images with distinct IDs leaves the snapshot as it is. */
  lemma {:induction false} SnapshotOrderIndependent(info: Info, a: seq<Entry>, b: seq<Entry>, digest: Digest)
    requires multiset(a) == multiset(b) && Keyed(AllImages(a, digest))
    ensures SnapshotOf(info, a, digest) == SnapshotOf(info, b, digest)
    ensures Readable(a, digest) <==> Readable(b, digest)
  {
    CollectPermutes(a, b, PendingOf);
    CollectPermutes(a, b, (e: Entry) => ImagesOf(e, digest));
    SortSame(AllImages(a, digest), AllImages(b, digest));
    PendingKeyed(a);
    SortSame(AllPending(a), AllPending(b));
    assert forall e :: e in a <==> e in multiset(a);
    assert forall e :: e in b <==> e in multiset(b);
    ReadableMembers(a, digest);
    ReadableMembers(b, digest);
  }

  lemma {:induction false} ReadableMembers(images: seq<Entry>, digest: Digest)
    ensures Readable(images, digest) <==> forall e :: e in images ==> e.img != "" ==> digest(e.img).Some?
  {
  }

  lemma {:induction false} SortSame(a: seq<Evidence>, b: seq<Evidence>)
    requires multiset(a) == multiset(b) && Keyed(a)
    ensures Sort(a) == Sort(b)
  {
    SortSorted(a);
    SortSorted(b);
    forall x | x in Sort(a) ensures x in a { assert x in multiset(Sort(a)); assert x in multiset(a); }
    SortedUnique(Sort(a), Sort(b));
  }

  // ---------- The log ----------

  datatype Decision = Approved | Rejected

  datatype Record = Record(suite: string, instance: string, decision: Decision, reviewer: string, note: string, snapshot: Snapshot)

  /** What review_state returns; Unverified where it raises, as collect_reviews reports it. */
  datatype State = Unreviewed | Decided(decision: Decision) | Stale | Unverified

  datatype Request = Request(suite: string, instance: string, decision: Decision, reviewer: string, note: string,
                             info: Info, images: seq<Entry>)

  predicate InstanceChar(c: char) {
    'A' <= c <= 'Z' || 'a' <= c <= 'z' || '0' <= c <= '9' || c == '_' || c == '-'
  }

  predicate InstancePath(s: string) {
    s != "" && forall i :: 0 <= i < |s| ==> InstanceChar(s[i])
  }

  /** A screenshot module that waits with all its images uploaded. */
  predicate WaitingReview(s: Snapshot) {
    s.status == "WAITING" && s.result == "REVIEW" && s.images != [] && s.pending == []
  }

  predicate Reviewable(s: Snapshot) {
    s.status in {"FINISHED", "INTERRUPTED", "SKIPPED"} || WaitingReview(s)
  }

  predicate Approvable(s: Snapshot) {
    s.pending == [] && s.images != [] && s.result !in {"FAILED", "SKIPPED"} && s.status != "SKIPPED"
  }

  /** record_review: None where it raises, otherwise the record it appends. */
  function RecordReview(req: Request, digest: Digest): Option<Record> {
    var reviewer, note := Trim(req.reviewer, White), Trim(req.note, White);
    if reviewer == "" || note == "" || !InstancePath(req.instance) || !Readable(req.images, digest) then None
    else
      var s := SnapshotOf(req.info, req.images, digest);
      if s.name == "" || s.planId == "" || !Reviewable(s) || (req.decision == Approved && !Approvable(s)) then None
      else Some(Record(TrimSlash(req.suite), req.instance, req.decision, reviewer, note, s))
  }

  /** The registry after a series of review attempts. */
  function Registry(reqs: seq<Request>, digest: Digest): seq<Record> {
    if |reqs| == 0 then []
    else
      var before := Registry(reqs[..|reqs| - 1], digest);
      match RecordReview(reqs[|reqs| - 1], digest)
      case None => before
      case Some(r) => before + [r]
  }

  /** The latest record for the instance, searching from the end. */
  function Latest(records: seq<Record>, suite: string, instance: string): Option<Record> {
    if |records| == 0 then None
    else
      var r := records[|records| - 1];
      if r.suite == TrimSlash(suite) && r.instance == instance then Some(r)
      else Latest(records[..|records| - 1], suite, instance)
  }

  /** review_state: the evidence is looked at only for an instance with a decision. */
  function ReviewState(records: seq<Record>, suite: string, instance: string, info: Info, images: seq<Entry>, digest: Digest): State {
    match Latest(records, suite, instance)
    case None => Unreviewed
    case Some(r) =>
      if !Readable(images, digest) then Unverified
      else if r.snapshot == SnapshotOf(info, images, digest) then Decided(r.decision)
      else Stale
  }

  predicate Matches(r: Record, suite: string, instance: string) {
    r.suite == TrimSlash(suite) && r.instance == instance
  }

  /** Latest finds the matching record that no matching record follows. */
  lemma {:induction false} LatestIsLast(records: seq<Record>, suite: string, instance: string)
    returns (k: int)
    ensures -1 <= k < |records|
    ensures Latest(records, suite, instance) == if k < 0 then None else Some(records[k])
    ensures k >= 0 ==> Matches(records[k], suite, instance)
    ensures forall j :: k < j < |records| ==> !Matches(records[j], suite, instance)
    decreases |records|
  {
    var n := |records| - 1;
    if n < 0 || Matches(records[n], suite, instance) {
      k := n;
    } else {
      k := LatestIsLast(records[..n], suite, instance);
    }
  }

  lemma {:induction false} RegistryApprovable(reqs: seq<Request>, digest: Digest, i: nat)
    requires i < |Registry(reqs, digest)|
    ensures Recordable(Registry(reqs, digest)[i])
    decreases |reqs|
  {
    var n := |reqs| - 1;
    if i < |Registry(reqs[..n], digest)| {
      RegistryApprovable(reqs[..n], digest, i);
    } else {
      ReviewRecordable(reqs[n], digest);
    }
  }

  predicate Recordable(r: Record) {
    && r.snapshot.name != "" && r.snapshot.planId != "" && Reviewable(r.snapshot)
    && (r.decision == Approved ==> Approvable(r.snapshot))
  }

  lemma {:induction false} ReviewRecordable(req: Request, digest: Digest)
    ensures RecordReview(req, digest).Some? ==> Recordable(RecordReview(req, digest).value)
  {
  }

  /**
    Approval stays tied to evidence: over every registry built by reviews, an instance reads
    as approved exactly when all its images are readable and its latest decision is an
    approval of the very evidence it has now, and then that evidence has an image, no empty
    placeholder and no FAILED or SKIPPED verdict.
   */
  lemma {:induction false} ApprovalTiedToEvidence(reqs: seq<Request>, suite: string, instance: string, info: Info, images: seq<Entry>, digest: Digest)
    ensures var records, now := Registry(reqs, digest), SnapshotOf(info, images, digest);
            ReviewState(records, suite, instance, info, images, digest) == Decided(Approved) <==>
              && Readable(images, digest)
              && exists k :: && 0 <= k < |records| && Matches(records[k], suite, instance)
                             && records[k].decision == Approved && records[k].snapshot == now
                             && forall j :: k < j < |records| ==> !Matches(records[j], suite, instance)
    ensures ReviewState(Registry(reqs, digest), suite, instance, info, images, digest) == Decided(Approved) ==>
              && info.testName != "" && info.planId != ""
              && info.result != "FAILED" && info.result != "SKIPPED" && info.status != "SKIPPED"
              && (info.status in {"FINISHED", "INTERRUPTED"} || (info.status == "WAITING" && info.result == "REVIEW"))
              && (exists i :: 0 <= i < |images| && images[i].img != "")
              && (forall i :: 0 <= i < |images| ==> images[i].upload == "")
  {
    var records, now := Registry(reqs, digest), SnapshotOf(info, images, digest);
    if ReviewState(records, suite, instance, info, images, digest) == Decided(Approved) {
      var k := LatestIsLast(records, suite, instance);
      assert Readable(images, digest) && records[k].snapshot == now;
      RegistryApprovable(reqs, digest, k);
      EvidenceMeaning(images, digest);
    }
    forall k | && 0 <= k < |records| && Matches(records[k], suite, instance)
               && forall j :: k < j < |records| ==> !Matches(records[j], suite, instance)
      ensures Latest(records, suite, instance) == Some(records[k])
    {
      var i := LatestIsLast(records, suite, instance);
      assert i == k;
    }
  }

  // ---------- A snapshot identifies its evidence ----------

  /** How many uploaded images have this ID and this digest. */
  ghost function ImageCount(images: seq<Entry>, digest: Digest, id: string, sha: string): nat {
    if |images| == 0 then 0
    else
      var e := images[|images| - 1];
      ImageCount(images[..|images| - 1], digest, id, sha) +
      (if e.img != "" && e.id == id && digest(e.img) == Some(sha) then 1 else 0)
  }

  /** How many entries wait for an upload under this name. */
  ghost function PlaceholderCount(images: seq<Entry>, name: string): nat {
    if |images| == 0 then 0
    else PlaceholderCount(images[..|images| - 1], name) + (if name != "" && images[|images| - 1].upload == name then 1 else 0)
  }

  ghost predicate SameImages(a: seq<Entry>, b: seq<Entry>, digest: Digest) {
    forall id, sha {:trigger ImageCount(a, digest, id, sha)} :: ImageCount(a, digest, id, sha) == ImageCount(b, digest, id, sha)
  }

  ghost predicate SamePlaceholders(a: seq<Entry>, b: seq<Entry>) {
    forall name {:trigger PlaceholderCount(a, name)} :: PlaceholderCount(a, name) == PlaceholderCount(b, name)
  }

  lemma {:induction false} CountsCollected(images: seq<Entry>, digest: Digest, id: string, sha: string)
    ensures multiset(AllImages(images, digest))[Evidence(id, sha)] == ImageCount(images, digest, id, sha)
    ensures multiset(AllPending(images))[Evidence(id, "")] == PlaceholderCount(images, id)
    decreases |images|
  {
    if |images| > 0 {
      var n := |images| - 1;
      CountsCollected(images[..n], digest, id, sha);
      var f := (e: Entry) => ImagesOf(e, digest);
      assert Collect(images, f) == Collect(images[..n], f) + f(images[n]);
      assert Collect(images, PendingOf) == Collect(images[..n], PendingOf) + PendingOf(images[n]);
    }
  }

  /**
    Two snapshots agree only if the module, plan and verdicts do, and the same images, by ID
    and digest, and the same placeholders are there; if no ID is used for two images, also
    if they do.
   */
  lemma {:induction false} SnapshotIdentifies(i: Info, a: seq<Entry>, j: Info, b: seq<Entry>, digest: Digest)
    ensures SnapshotOf(i, a, digest) == SnapshotOf(j, b, digest) ==> i == j && SameImages(a, b, digest) && SamePlaceholders(a, b)
    ensures Keyed(AllImages(a, digest)) && i == j && SameImages(a, b, digest) && SamePlaceholders(a, b) ==>
              SnapshotOf(i, a, digest) == SnapshotOf(j, b, digest)
  {
    if SnapshotOf(i, a, digest) == SnapshotOf(j, b, digest) {
      SortSorted(AllImages(a, digest));
      SortSorted(AllImages(b, digest));
      SortSorted(AllPending(a));
      SortSorted(AllPending(b));
      forall id, sha ensures ImageCount(a, digest, id, sha) == ImageCount(b, digest, id, sha) {
        CountsCollected(a, digest, id, sha);
        CountsCollected(b, digest, id, sha);
      }
      forall name ensures PlaceholderCount(a, name) == PlaceholderCount(b, name) {
        CountsCollected(a, digest, name, "");
        CountsCollected(b, digest, name, "");
      }
    }
    if Keyed(AllImages(a, digest)) && SameImages(a, b, digest) && SamePlaceholders(a, b) {
      SameCollected(a, b, digest);
      SortSame(AllImages(a, digest), AllImages(b, digest));
      PendingKeyed(a);
      SortSame(AllPending(a), AllPending(b));
    }
  }

  lemma {:induction false} SameCollected(a: seq<Entry>, b: seq<Entry>, digest: Digest)
    requires SameImages(a, b, digest) && SamePlaceholders(a, b)
    ensures multiset(AllImages(a, digest)) == multiset(AllImages(b, digest))
    ensures multiset(AllPending(a)) == multiset(AllPending(b))
  {
    PendingKeyed(a);
    PendingKeyed(b);
    forall x: Evidence
      ensures multiset(AllImages(a, digest))[x] == multiset(AllImages(b, digest))[x]
      ensures multiset(AllPending(a))[x] == multiset(AllPending(b))[x]
    {
      CountsCollected(a, digest, x.entry, x.sha256);
      CountsCollected(b, digest, x.entry, x.sha256);
      assert ImageCount(a, digest, x.entry, x.sha256) == ImageCount(b, digest, x.entry, x.sha256);
      assert PlaceholderCount(a, x.entry) == PlaceholderCount(b, x.entry);
      assert x == Evidence(x.entry, x.sha256);
      assert x.sha256 != "" ==> x !in AllPending(a) && x !in AllPending(b);
    }
  }

  /** What a review must be about, and an approval in particular, on the suite's own answers. */
  ghost predicate MayReview(req: Request) {
    && req.info.testName != "" && req.info.planId != ""
    && (req.info.status in {"FINISHED", "INTERRUPTED", "SKIPPED"} ||
        (req.info.status == "WAITING" && req.info.result == "REVIEW" && Complete(req.images)))
    && (req.decision == Approved ==>
          Complete(req.images) && req.info.result !in {"FAILED", "SKIPPED"} && req.info.status != "SKIPPED")
  }

  /** Some image is uploaded and no placeholder is left. */
  ghost predicate Complete(images: seq<Entry>) {
    (exists i :: 0 <= i < |images| && images[i].img != "") && forall i :: 0 <= i < |images| ==> images[i].upload == ""
  }

  lemma {:induction false} CompleteIff(images: seq<Entry>, digest: Digest)
    requires Readable(images, digest)
    ensures Complete(images) <==> Sort(AllPending(images)) == [] && Sort(AllImages(images, digest)) != []
  {
    EvidenceMeaning(images, digest);
    if Complete(images) {
      var i :| 0 <= i < |images| && images[i].img != "";
      SomeImage(images, digest, i);
      SortSorted(AllImages(images, digest));
      NonePending(images);
      assert multiset(Sort(AllImages(images, digest))) == multiset(AllImages(images, digest));
    }
  }

  lemma {:induction false} SomeImage(images: seq<Entry>, digest: Digest, i: nat)
    requires Readable(images, digest) && i < |images| && images[i].img != ""
    ensures AllImages(images, digest) != []
    decreases |images|
  {
    if i < |images| - 1 { SomeImage(images[..|images| - 1], digest, i); }
  }

  lemma {:induction false} NonePending(images: seq<Entry>)
    requires forall i :: 0 <= i < |images| ==> images[i].upload == ""
    ensures AllPending(images) == []
    decreases |images|
  {
    if |images| > 0 { NonePending(images[..|images| - 1]); }
  }

  /** Letters, digits, underscores and hyphens, at least one. */
  ghost predicate WellNamed(instance: string) {
    && instance != ""
    && forall i :: 0 <= i < |instance| ==>
         var c := instance[i];
         'A' <= c <= 'Z' || 'a' <= c <= 'z' || '0' <= c <= '9' || c in "_-"
  }

  /** A review is recorded, as it was made, exactly if it is signed, its images are readable and it may be made. */
  lemma {:induction false} RecordedIff(req: Request, digest: Digest)
    ensures RecordReview(req, digest).Some? <==>
              && Trim(req.reviewer, White) != "" && Trim(req.note, White) != "" && WellNamed(req.instance)
              && Readable(req.images, digest) && MayReview(req)
    ensures RecordReview(req, digest).Some? ==>
              var r := RecordReview(req, digest).value;
              && r.suite == TrimSlash(req.suite) && r.instance == req.instance && r.decision == req.decision
              && r.reviewer == Trim(req.reviewer, White) && r.note == Trim(req.note, White)
  {
    if Readable(req.images, digest) { CompleteIff(req.images, digest); }
    WellNamedIff(req.instance);
  }

  lemma {:induction false} WellNamedIff(instance: string)
    ensures WellNamed(instance) <==> InstancePath(instance)
  {
    assert forall c: char :: c in "_-" <==> c == '_' || c == '-';
  }

  /** A record is what some review attempt left. */
  lemma {:induction false} RecordFrom(reqs: seq<Request>, digest: Digest, k: nat) returns (i: nat)
    requires k < |Registry(reqs, digest)|
    ensures i < |reqs| && RecordReview(reqs[i], digest) == Some(Registry(reqs, digest)[k])
    decreases |reqs|
  {
    var n := |reqs| - 1;
    if k < |Registry(reqs[..n], digest)| {
      i := RecordFrom(reqs[..n], digest, k);
    } else {
      i := n;
    }
  }

  /**
    So an instance reads as approved only after a review that approved it, with a reviewer
    and a note, on the verdicts, images and placeholders it has now: whatever has changed
    since makes it stale.
   */
  lemma {:induction false} ApprovedAsReviewed(reqs: seq<Request>, suite: string, instance: string, info: Info,
                                              images: seq<Entry>, digest: Digest) returns (i: nat)
    requires ReviewState(Registry(reqs, digest), suite, instance, info, images, digest) == Decided(Approved)
    ensures i < |reqs| && reqs[i].decision == Approved
    ensures TrimSlash(reqs[i].suite) == TrimSlash(suite) && reqs[i].instance == instance
    ensures Trim(reqs[i].reviewer, White) != "" && Trim(reqs[i].note, White) != ""
    ensures reqs[i].info == info && SameImages(reqs[i].images, images, digest) && SamePlaceholders(reqs[i].images, images)
  {
    var records := Registry(reqs, digest);
    var k := LatestIsLast(records, suite, instance);
    i := RecordFrom(reqs, digest, k);
    SnapshotIdentifies(reqs[i].info, reqs[i].images, info, images, digest);
  }

  /** An empty pending list means no placeholder; a non-empty image list an uploaded image. */
  lemma {:induction false} EvidenceMeaning(images: seq<Entry>, digest: Digest)
    ensures Sort(AllPending(images)) == [] ==> forall i :: 0 <= i < |images| ==> images[i].upload == ""
    ensures Sort(AllImages(images, digest)) != [] ==> exists i :: 0 <= i < |images| && images[i].img != ""
  {
    SortSorted(AllPending(images));
    SortSorted(AllImages(images, digest));
    assert |multiset(AllPending(images))| == |multiset(Sort(AllPending(images)))|;
    assert |multiset(AllImages(images, digest))| == |multiset(Sort(AllImages(images, digest)))|;
    NoPending(images);
    NoImages(images, digest);
  }

  lemma {:induction false} NoPending(images: seq<Entry>)
    ensures AllPending(images) == [] ==> forall i :: 0 <= i < |images| ==> images[i].upload == ""
    decreases |images|
  {
    if |images| > 0 { NoPending(images[..|images| - 1]); }
  }

  lemma {:induction false} NoImages(images: seq<Entry>, digest: Digest)
    ensures (forall i :: 0 <= i < |images| ==> images[i].img == "") ==> AllImages(images, digest) == []
    decreases |images|
  {
    if |images| > 0 { NoImages(images[..|images| - 1], digest); }
  }

  /** An unreadable image makes every reviewed instance unverified, whatever else it holds. */
  lemma {:induction false} UnreadableUnverified(records: seq<Record>, suite: string, instance: string, info: Info, images: seq<Entry>,
                             digest: Digest)
    ensures ReviewState(records, suite, instance, info, images, digest) == Unverified <==>
              !Readable(images, digest) && exists k :: 0 <= k < |records| && Matches(records[k], suite, instance)
  {
    var k := LatestIsLast(records, suite, instance);
  }

  /** Reordering images with distinct IDs never changes the review state. */
  lemma {:induction false} StateOrderIndependent(records: seq<Record>, suite: string, instance: string, info: Info,
                              a: seq<Entry>, b: seq<Entry>, digest: Digest)
    requires multiset(a) == multiset(b) && Keyed(AllImages(a, digest))
    ensures ReviewState(records, suite, instance, info, a, digest) == ReviewState(records, suite, instance, info, b, digest)
  {
    SnapshotOrderIndependent(info, a, b, digest);
  }
}
