/** `ensureStorageBuckets` of `src/lib/utils.ts`: for `documents` and then
    `signatures`, ask for the bucket and, when that reports an error, try to
    create it private with a fixed size cap. Every failure is only logged. */
module Buckets {
  import opened Common
  import opened Backend

  const BucketNames: seq<string> := ["documents", "signatures"]

  const DocumentsLimit: nat := 10485760
  const SignaturesLimit: nat := 5242880

  /** `bucket === 'documents' ? 10485760 : 5242880`. */
  function SizeLimitFor(name: string): (r: nat)
    ensures r == if name == "documents" then 10 * 1024 * 1024 else 5 * 1024 * 1024
  {
    if name == "documents" then DocumentsLimit else SignaturesLimit
  }

  function NewBucket(name: string): Bucket
  {
    Bucket(false, Some(SizeLimitFor(name)), map[])
  }

  /** One turn of the loop body: the buckets afterwards, and whether a create was attempted. */
  function ProvisionStep(m: map<string, Bucket>, name: string, get: Reply, create: Reply): (r: (map<string, Bucket>, bool))
    ensures r.1 <==> get == ErrorResult || (get in {Ok, NullData} && name !in m)
    ensures r.0 == m || (name !in m && r.0 == m[name := NewBucket(name)])
    ensures name in r.0 <==> name in m || (r.1 && create in {Ok, NullData})
  {
    if Resolve(get, name in m) == Failed then
      (if Resolve(create, name !in m) == Done then m[name := NewBucket(name)] else m, true)
    else (m, false)
  }

  /** The loop over `names`: the buckets afterwards and the names whose create was attempted, in order. */
  function Provision(m: map<string, Bucket>, names: seq<string>, get: string -> Reply, create: string -> Reply)
    : (r: (map<string, Bucket>, seq<string>))
    ensures forall b :: b in m ==> b in r.0 && r.0[b] == m[b]
    ensures forall b :: b in r.0 && b !in m ==> b in names && r.0[b] == NewBucket(b)
    ensures forall b :: b in r.1 ==> b in names
    decreases |names|
  {
    if names == [] then (m, [])
    else
      var (m1, tried) := Provision(m, names[..|names| - 1], get, create);
      var last := names[|names| - 1];
      var (m2, attempted) := ProvisionStep(m1, last, get(last), create(last));
      (m2, if attempted then tried + [last] else tried)
  }

  /** `ensureStorageBuckets(supabase)`: never throws; returns the names whose
      creation it attempted (the calls it made to `createBucket`). */
  method EnsureStorageBuckets(store: Store, get: string -> Reply, create: string -> Reply)
    returns (attempted: seq<string>)
    modifies store
    ensures (store.buckets, attempted) == Provision(old(store.buckets), BucketNames, get, create)
    ensures store.documents == old(store.documents) && store.signatures == old(store.signatures)
  {
    attempted := [];
    for i := 0 to |BucketNames|
      invariant (store.buckets, attempted) == Provision(old(store.buckets), BucketNames[..i], get, create)
      invariant store.documents == old(store.documents) && store.signatures == old(store.signatures)
    {
      var bucket := BucketNames[i];
      assert BucketNames[..i + 1][..i] == BucketNames[..i];
      var found := store.GetBucket(bucket, get(bucket));
      if found == Failed {
        var created := store.CreateBucket(bucket, false, SizeLimitFor(bucket), create(bucket));
        attempted := attempted + [bucket];
      }
    }
    assert BucketNames[..|BucketNames|] == BucketNames;
  }

  /** The whole call, unfolded: the create attempts in visiting order, and the buckets afterwards. */
  lemma ProvisionOutcome(m: map<string, Bucket>, get: string -> Reply, create: string -> Reply)
    ensures var (m', tried) := Provision(m, BucketNames, get, create);
      && tried == (if Resolve(get("documents"), "documents" in m) == Failed then ["documents"] else [])
                + (if Resolve(get("signatures"), "signatures" in m) == Failed then ["signatures"] else [])
      && (forall b :: b in m' && b !in m ==> b in BucketNames && m'[b] == NewBucket(b))
      && ("documents" in m' <==> "documents" in m || (Resolve(get("documents"), false) == Failed && Resolve(create("documents"), true) == Done))
      && ("signatures" in m' <==> "signatures" in m || (Resolve(get("signatures"), false) == Failed && Resolve(create("signatures"), true) == Done))
  {
    assert BucketNames[..1] == ["documents"];
    assert BucketNames[..1][..0] == [];
    assert BucketNames[..|BucketNames| - 1] == ["documents"];
  }

  /** Created buckets are private and capped at 10485760 bytes for documents and 5242880 for signatures. */
  lemma CreatedBucketsArePrivate(m: map<string, Bucket>, get: string -> Reply, create: string -> Reply)
    ensures var m' := Provision(m, BucketNames, get, create).0;
      forall b :: b in m' && b !in m ==>
        && !m'[b].isPublic
        && m'[b].fileSizeLimit == Some(if b == "documents" then 10485760 else 5242880)
        && m'[b].objects == map[]
  {
  }

  /** Idempotence: once both buckets exist the map is left as it is, and when
      `getBucket` answers normally no create is attempted at all. */
  lemma ProvisionIdempotent(m: map<string, Bucket>, get: string -> Reply, create: string -> Reply)
    requires "documents" in m && "signatures" in m
    ensures Provision(m, BucketNames, get, create).0 == m
    ensures get("documents") in {Ok, NullData} && get("signatures") in {Ok, NullData} ==>
            Provision(m, BucketNames, get, create).1 == []
  {
    ProvisionOutcome(m, get, create);
  }

  /** Calling twice: when the first call leaves both buckets in place, the second
      one makes no create attempt (given normal answers) and changes nothing. */
  lemma SecondCallMakesNoAttempt(m: map<string, Bucket>, get1: string -> Reply, create1: string -> Reply,
                                 get2: string -> Reply, create2: string -> Reply)
    requires var m1 := Provision(m, BucketNames, get1, create1).0; "documents" in m1 && "signatures" in m1
    requires get2("documents") == Ok && get2("signatures") == Ok
    ensures var m1 := Provision(m, BucketNames, get1, create1).0;
      Provision(m1, BucketNames, get2, create2) == (m1, [])
  {
    var m1 := Provision(m, BucketNames, get1, create1).0;
    ProvisionOutcome(m1, get2, create2);
    ProvisionIdempotent(m1, get2, create2);
  }

  /** A failure on the first bucket does not stop the second: what happens to
      `signatures` depends only on the replies for `signatures`. */
  lemma SecondBucketIndependent(m: map<string, Bucket>, get1: string -> Reply, create1: string -> Reply,
                                get2: string -> Reply, create2: string -> Reply)
    requires get1("signatures") == get2("signatures") && create1("signatures") == create2("signatures")
    ensures var (a, ta) := Provision(m, BucketNames, get1, create1);
            var (b, tb) := Provision(m, BucketNames, get2, create2);
      && ("signatures" in a <==> "signatures" in b)
      && ("signatures" in a ==> a["signatures"] == b["signatures"])
      && ("signatures" in ta <==> "signatures" in tb)
  {
    ProvisionOutcome(m, get1, create1);
    ProvisionOutcome(m, get2, create2);
  }
}
