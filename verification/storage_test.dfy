/** `GET` of `src/app/api/storage-test/route.ts`: list the buckets, create
    `documents` and `signatures` when absent, count each bucket's entries,
    and report `{ exists, created, fileCount }` per bucket. */
module StorageTest {
  import opened Common
  import opened Backend
  import opened Buckets

  /** The replies of the five backend calls the handler may make. */
  datatype Replies = Replies(
    listBuckets: Reply, createDocuments: Reply, createSignatures: Reply,
    listDocuments: Reply, listSignatures: Reply)

  datatype BucketReport = BucketReport(bucketExists: bool, created: bool, fileCount: nat)

  datatype Response =
    | Json(message: string, documents: BucketReport, signatures: BucketReport)
    | JsonError(status: nat, error: string)

  const Unchecked := BucketReport(false, false, 0)

  /** Creating one bucket unless it was listed: the buckets afterwards and the
      report, or no report when `createBucket` threw. */
  function CreateStage(m: map<string, Bucket>, rep: BucketReport, name: string, reply: Reply)
    : (out: (map<string, Bucket>, Option<BucketReport>))
    ensures out.1.Some? ==> out.1.value.bucketExists == rep.bucketExists && out.1.value.fileCount == rep.fileCount
    ensures out.1.Some? && out.1.value.created ==> rep.created || (!rep.bucketExists && name !in m)
    ensures out.1.Some? && out.1.value.created && !rep.created ==> out.0 == m[name := NewBucket(name)]
    ensures out.0 == m || (name !in m && out.0 == m[name := NewBucket(name)])
    ensures rep.bucketExists ==> out == (m, Some(rep))
    ensures !rep.bucketExists && name !in m && reply in {Ok, NullData} ==>
            out == (m[name := NewBucket(name)], Some(rep.(created := true)))
    ensures !rep.bucketExists && reply == Throws ==> out == (m, None)
    ensures !rep.bucketExists && (reply == ErrorResult || (name in m && reply != Throws)) ==> out == (m, Some(rep))
  {
    if rep.bucketExists then (m, Some(rep))
    else match Resolve(reply, name !in m)
      case Threw => (m, None)
      case Done => (m[name := NewBucket(name)], Some(rep.(created := true)))
      case Failed => (m, Some(rep))
  }

  /** Counting the entries of a bucket that existed or was just created; no report when `list` threw. */
  function CountStage(m: map<string, Bucket>, rep: BucketReport, name: string, reply: Reply)
    : (out: Option<BucketReport>)
    ensures out.Some? ==> out.value.bucketExists == rep.bucketExists && out.value.created == rep.created
    ensures out.Some? && out.value.fileCount != rep.fileCount ==>
            (rep.bucketExists || rep.created) && reply == Ok && name in m
    ensures !(rep.bucketExists || rep.created) ==> out == Some(rep)
    ensures (rep.bucketExists || rep.created) && name in m && reply == Ok ==>
            out == Some(rep.(fileCount := |m[name].objects|))
    ensures (rep.bucketExists || rep.created) && reply == Throws ==> out.None?
    ensures (rep.bucketExists || rep.created) && reply != Throws && (reply != Ok || name !in m) ==> out == Some(rep)
  {
    if !(rep.bucketExists || rep.created) then Some(rep)
    else match Resolve(reply, name in m)
      case Threw => None
      case Done => Some(if reply == Ok then rep.(fileCount := |m[name].objects|) else rep)
      case Failed => Some(rep)
  }

  /** The buckets afterwards and the response, for the bucket map `m` found on entry. */
  function StorageCheck(m: map<string, Bucket>, r: Replies): (out: (map<string, Bucket>, Response))
    ensures out.1.JsonError? ==> out.1.status == 500
    ensures out.1 == JsonError(500, "Failed to list buckets") <==> r.listBuckets == ErrorResult
    ensures out.1.Json? ==> out.1.message == "Storage configuration check completed" && r.listBuckets in {Ok, NullData}
    ensures r.listBuckets in {ErrorResult, Throws} ==> out.0 == m
  {
    if r.listBuckets == Throws then (m, JsonError(500, "Storage test failed"))
    else if r.listBuckets == ErrorResult then (m, JsonError(500, "Failed to list buckets"))
    else
      var d0 := Unchecked.(bucketExists := r.listBuckets == Ok && "documents" in m);
      var s0 := Unchecked.(bucketExists := r.listBuckets == Ok && "signatures" in m);
      var c1 := CreateStage(m, d0, "documents", r.createDocuments);
      if c1.1.None? then (c1.0, JsonError(500, "Storage test failed"))
      else
        var c2 := CreateStage(c1.0, s0, "signatures", r.createSignatures);
        if c2.1.None? then (c2.0, JsonError(500, "Storage test failed"))
        else
          var d2 := CountStage(c2.0, c1.1.value, "documents", r.listDocuments);
          var s2 := CountStage(c2.0, c2.1.value, "signatures", r.listSignatures);
          if d2.None? || s2.None? then (c2.0, JsonError(500, "Storage test failed"))
          else (c2.0, Json("Storage configuration check completed", d2.value, s2.value))
  }

  /** A listing error answers 500 and creates nothing. */
  lemma ListErrorCreatesNothing(m: map<string, Bucket>, r: Replies)
    requires r.listBuckets in {ErrorResult, Throws}
    ensures StorageCheck(m, r) == (m, JsonError(500, if r.listBuckets == Throws then "Storage test failed" else "Failed to list buckets"))
  {
  }

  /** Whatever the replies, existing buckets stay as they were, and the only
      new buckets are `documents` and `signatures`, private and with their cap. */
  lemma StorageCheckOnlyAddsNamedBuckets(m: map<string, Bucket>, r: Replies)
    ensures forall b :: b in m ==> b in StorageCheck(m, r).0 && StorageCheck(m, r).0[b] == m[b]
    ensures forall b :: b in StorageCheck(m, r).0 && b !in m ==> b in BucketNames && StorageCheck(m, r).0[b] == NewBucket(b)
  {
    var m' := StorageCheck(m, r).0;
    if r.listBuckets in {Ok, NullData} {
      var d0 := Unchecked.(bucketExists := r.listBuckets == Ok && "documents" in m);
      var s0 := Unchecked.(bucketExists := r.listBuckets == Ok && "signatures" in m);
      var c1 := CreateStage(m, d0, "documents", r.createDocuments);
      var c2 := CreateStage(c1.0, s0, "signatures", r.createSignatures);
      assert m' == if c1.1.None? then c1.0 else c2.0;
      assert OnlyAddsNamed(m, c1.0) by {
        CreateStageOnlyAddsNamed(m, d0, "documents", r.createDocuments);
      }
      assert OnlyAddsNamed(c1.0, c2.0) by {
        CreateStageOnlyAddsNamed(c1.0, s0, "signatures", r.createSignatures);
      }
      assert OnlyAddsNamed(m, m');
    }
  }

  /** `m'` keeps every bucket of `m`, and each bucket it adds is `documents` or `signatures` as first created. */
  predicate OnlyAddsNamed(m: map<string, Bucket>, m': map<string, Bucket>)
  {
    && (forall b :: b in m ==> b in m' && m'[b] == m[b])
    && (forall b :: b in m' && b !in m ==> b in BucketNames && m'[b] == NewBucket(b))
  }

  lemma CreateStageOnlyAddsNamed(m: map<string, Bucket>, rep: BucketReport, name: string, reply: Reply)
    requires name in BucketNames
    ensures OnlyAddsNamed(m, CreateStage(m, rep, name, reply).0)
  {
  }

  /** What a successful run reports about one bucket: `exists` mirrors the
      listing, `created` only for a bucket that was absent and now is present,
      never both, and a non-zero count only from a successful listing. */
  predicate ReportConsistent(m: map<string, Bucket>, m': map<string, Bucket>, listed: Reply,
                             name: string, countReply: Reply, rep: BucketReport)
  {
    && (rep.bucketExists <==> listed == Ok && name in m)
    && !(rep.bucketExists && rep.created)
    && (rep.created ==> name !in m && name in m')
    && (rep.fileCount != 0 ==> (rep.bucketExists || rep.created) && countReply == Ok)
  }

  lemma StorageCheckReports(m: map<string, Bucket>, r: Replies)
    ensures var (m', resp) := StorageCheck(m, r);
      resp.Json? ==>
        && r.listBuckets in {Ok, NullData}
        && ReportConsistent(m, m', r.listBuckets, "documents", r.listDocuments, resp.documents)
        && ReportConsistent(m, m', r.listBuckets, "signatures", r.listSignatures, resp.signatures)
  {
    if r.listBuckets in {Ok, NullData} {
      var d0 := Unchecked.(bucketExists := r.listBuckets == Ok && "documents" in m);
      var s0 := Unchecked.(bucketExists := r.listBuckets == Ok && "signatures" in m);
      var c1 := CreateStage(m, d0, "documents", r.createDocuments);
      if c1.1.Some? {
        var c2 := CreateStage(c1.0, s0, "signatures", r.createSignatures);
        assert "documents" in c1.0 ==> "documents" in c2.0;
      }
    }
  }

  /** A failed create or listing does not abort the check: when the bucket
      listing succeeds and no later call throws, the handler answers with its
      report, each bucket `created` exactly when it was not listed and its
      create was accepted, and each count taken from a successful listing of
      a bucket that is there. */
  lemma StorageCheckCompletes(m: map<string, Bucket>, r: Replies)
    requires r.listBuckets in {Ok, NullData}
    requires Throws !in {r.createDocuments, r.createSignatures, r.listDocuments, r.listSignatures}
    ensures var (m', resp) := StorageCheck(m, r);
      && resp.Json? && resp.message == "Storage configuration check completed"
      && BucketCompleted(m, m', r.listBuckets, "documents", r.createDocuments, r.listDocuments, resp.documents)
      && BucketCompleted(m, m', r.listBuckets, "signatures", r.createSignatures, r.listSignatures, resp.signatures)
  {
    var d0 := Unchecked.(bucketExists := r.listBuckets == Ok && "documents" in m);
    var s0 := Unchecked.(bucketExists := r.listBuckets == Ok && "signatures" in m);
    var c1 := CreateStage(m, d0, "documents", r.createDocuments);
    var c2 := CreateStage(c1.0, s0, "signatures", r.createSignatures);
    assert && c1.1.Some?
           && CountStage(c2.0, c1.1.value, "documents", r.listDocuments).Some?
           && BucketCompleted(m, c2.0, r.listBuckets, "documents", r.createDocuments, r.listDocuments,
                              CountStage(c2.0, c1.1.value, "documents", r.listDocuments).value) by {
      assert c2.0 == c1.0 || c2.0 == c1.0["signatures" := NewBucket("signatures")];
      StagesComplete(m, m, c2.0, r.listBuckets, "documents", r.createDocuments, r.listDocuments);
    }
    assert && c2.1.Some?
           && CountStage(c2.0, c2.1.value, "signatures", r.listSignatures).Some?
           && BucketCompleted(m, c2.0, r.listBuckets, "signatures", r.createSignatures, r.listSignatures,
                              CountStage(c2.0, c2.1.value, "signatures", r.listSignatures).value) by {
      assert c1.0 == m || c1.0 == m["documents" := NewBucket("documents")];
      StagesComplete(m, c1.0, c2.0, r.listBuckets, "signatures", r.createSignatures, r.listSignatures);
    }
  }

  /** One bucket's create and count stages, when neither call throws: the
      create runs on `mc`, which agrees with the listed `m` on whether the
      bucket is there, and the count on `later`, which keeps what the create left. */
  lemma StagesComplete(m: map<string, Bucket>, mc: map<string, Bucket>, later: map<string, Bucket>,
                       listed: Reply, name: string, createReply: Reply, countReply: Reply)
    requires listed in {Ok, NullData} && createReply != Throws && countReply != Throws
    requires name in mc <==> name in m
    requires var c := CreateStage(mc, Unchecked.(bucketExists := listed == Ok && name in m), name, createReply);
             && (name in later <==> name in c.0)
             && (name in c.0 ==> later[name] == c.0[name])
    ensures var c := CreateStage(mc, Unchecked.(bucketExists := listed == Ok && name in m), name, createReply);
      && c.1.Some?
      && CountStage(later, c.1.value, name, countReply).Some?
      && BucketCompleted(m, later, listed, name, createReply, countReply, CountStage(later, c.1.value, name, countReply).value)
  {
  }

  /** The report on one bucket after a run that completed. */
  predicate BucketCompleted(m: map<string, Bucket>, m': map<string, Bucket>, listed: Reply, name: string,
                            createReply: Reply, countReply: Reply, rep: BucketReport)
  {
    && (rep.bucketExists <==> listed == Ok && name in m)
    && (rep.created <==> !rep.bucketExists && name !in m && createReply in {Ok, NullData})
    && (name in m' <==> name in m || rep.created)
    && rep.fileCount == if (rep.bucketExists || rep.created) && countReply == Ok && name in m'
                        then |m'[name].objects| else 0
  }

  /** Lines 40-53 (and 56-69): create the bucket unless it was listed; `None` when the call threw. */
  method CreateUnlessListed(store: Store, rep: BucketReport, name: string, limit: nat, reply: Reply)
    returns (out: Option<BucketReport>)
    requires limit == SizeLimitFor(name)
    modifies store
    ensures (store.buckets, out) == CreateStage(old(store.buckets), rep, name, reply)
    ensures store.documents == old(store.documents) && store.signatures == old(store.signatures)
  {
    out := Some(rep);
    if !rep.bucketExists {
      var c := store.CreateBucket(name, false, limit, reply);
      if c == Threw {
        return None;
      }
      if c == Done {
        out := Some(rep.(created := true));
      }
    }
  }

  /** Lines 72-81 (and 84-93): count the entries of a bucket that exists; `None` when the call threw. */
  method CountUnlessMissing(store: Store, rep: BucketReport, name: string, reply: Reply)
    returns (out: Option<BucketReport>)
    ensures out == CountStage(store.buckets, rep, name, reply)
  {
    out := Some(rep);
    if rep.bucketExists || rep.created {
      var l, count := store.ListFiles(name, reply);
      if l == Threw {
        return None;
      }
      if l == Done && count.Some? {
        out := Some(rep.(fileCount := count.value));
      }
    }
  }

  /** The route handler; `setupStoragePolicies` catches its own errors and changes no bucket. */
  method Get(store: Store, r: Replies) returns (resp: Response)
    modifies store
    ensures (store.buckets, resp) == StorageCheck(old(store.buckets), r)
    ensures store.documents == old(store.documents) && store.signatures == old(store.signatures)
  {
    var s, names := store.ListBuckets(r.listBuckets);
    if s == Threw {
      return JsonError(500, "Storage test failed");
    }
    if s == Failed {
      return JsonError(500, "Failed to list buckets");
    }
    var documents := Unchecked.(bucketExists := names.Some? && "documents" in names.value);
    var signatures := Unchecked.(bucketExists := names.Some? && "signatures" in names.value);
    var d := CreateUnlessListed(store, documents, "documents", 10485760, r.createDocuments);
    if d.None? {
      return JsonError(500, "Storage test failed");
    }
    var g := CreateUnlessListed(store, signatures, "signatures", 5242880, r.createSignatures);
    if g.None? {
      return JsonError(500, "Storage test failed");
    }
    d := CountUnlessMissing(store, d.value, "documents", r.listDocuments);
    if d.None? {
      return JsonError(500, "Storage test failed");
    }
    g := CountUnlessMissing(store, g.value, "signatures", r.listSignatures);
    if g.None? {
      return JsonError(500, "Storage test failed");
    }
    resp := Json("Storage configuration check completed", d.value, g.value);
  }
}
