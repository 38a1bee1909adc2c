/** The hosted backend as the core sees it: object-storage buckets and the
    `documents` and `signatures` tables, each SDK call a method whose success
    or failure is decided by a `Reply` supplied by the environment. */
module Backend {
  import opened Common
  import opened Schema

  datatype Blob = Blob(contentType: string, size: nat)

  /** A storage bucket: visibility, optional size cap (bytes) and its objects by key. */
  datatype Bucket = Bucket(isPublic: bool, fileSizeLimit: Option<nat>, objects: map<string, Blob>)

  /** The bucket's size cap admits an object of `size` bytes; an uncapped bucket admits any. */
  predicate Fits(b: Bucket, size: nat)
    ensures b.fileSizeLimit.None? ==> Fits(b, size)
    ensures Fits(b, size) ==> forall smaller: nat :: smaller <= size ==> Fits(b, smaller)
  {
    b.fileSizeLimit.None? || size <= b.fileSizeLimit.value
  }

  /** `delete().eq("id", id)` on the signatures table. */
  function WithoutId(rows: seq<SignatureRow>, id: string): (r: seq<SignatureRow>)
    ensures forall x :: x in r <==> x in rows && x.id != id
    ensures |r| <= |rows|
    ensures forall x :: multiset(r)[x] == if x.id != id then multiset(rows)[x] else 0
  {
    if rows == [] then []
    else
      assert rows == [rows[0]] + rows[1..];
      (if rows[0].id == id then [] else [rows[0]]) + WithoutId(rows[1..], id)
  }

  /** `update({ is_default: v }).eq("user_id", userId)`. */
  function SetDefaultWhereUser(rows: seq<SignatureRow>, userId: string, v: bool): (r: seq<SignatureRow>)
    ensures |r| == |rows| && SignatureIds(r) == SignatureIds(rows)
    ensures forall i :: 0 <= i < |r| ==> r[i].(isDefault := rows[i].isDefault) == rows[i]
    ensures forall i :: 0 <= i < |r| ==> r[i].isDefault == if rows[i].userId == userId then v else rows[i].isDefault
  {
    var r := seq(|rows|, i requires 0 <= i < |rows| =>
      if rows[i].userId == userId then rows[i].(isDefault := v) else rows[i]);
    SameIdsSameIdSet(r, rows);
    r
  }

  /** `update({ is_default: v }).eq("id", id)`. */
  function SetDefaultWhereId(rows: seq<SignatureRow>, id: string, v: bool): (r: seq<SignatureRow>)
    ensures |r| == |rows| && SignatureIds(r) == SignatureIds(rows)
    ensures forall i :: 0 <= i < |r| ==> r[i].(isDefault := rows[i].isDefault) == rows[i]
    ensures forall i :: 0 <= i < |r| ==> r[i].isDefault == if rows[i].id == id then v else rows[i].isDefault
  {
    var r := seq(|rows|, i requires 0 <= i < |rows| =>
      if rows[i].id == id then rows[i].(isDefault := v) else rows[i]);
    SameIdsSameIdSet(r, rows);
    r
  }

  /** How many of `userId`'s rows are marked default. */
  function CountDefaults(rows: seq<SignatureRow>, userId: string): nat
  {
    if rows == [] then 0
    else (if rows[0].userId == userId && rows[0].isDefault then 1 else 0)
         + CountDefaults(rows[1..], userId)
  }

  /** `eq("user_id", userId)` as a filter that keeps the table's order. */
  function OfUser(rows: seq<SignatureRow>, userId: string): (r: seq<SignatureRow>)
    ensures forall x :: x in r <==> x in rows && x.userId == userId
    ensures multiset(r) <= multiset(rows)
    ensures forall x :: multiset(r)[x] == if x.userId == userId then multiset(rows)[x] else 0
  {
    if rows == [] then []
    else
      assert rows == [rows[0]] + rows[1..];
      (if rows[0].userId == userId then [rows[0]] else []) + OfUser(rows[1..], userId)
  }

  /** `order("is_default", desc).order("created_at", desc)`: may `a` be listed before `b`? */
  predicate ListedBefore(a: SignatureRow, b: SignatureRow)
  {
    (a.isDefault && !b.isDefault) || (a.isDefault == b.isDefault && a.createdAt >= b.createdAt)
  }

  predicate InDisplayOrder(s: seq<SignatureRow>)
  {
    forall i :: 0 < i < |s| ==> ListedBefore(s[i - 1], s[i])
  }

  function InsertInOrder(x: SignatureRow, s: seq<SignatureRow>): (r: seq<SignatureRow>)
    requires InDisplayOrder(s)
    ensures InDisplayOrder(r)
    ensures multiset(r) == multiset(s) + multiset{x}
    ensures |r| == |s| + 1 && (r[0] == x || (s != [] && r[0] == s[0]))
  {
    if s == [] || ListedBefore(x, s[0]) then [x] + s
    else
      assert InDisplayOrder(s[1..]) by {
        forall i | 0 < i < |s[1..]| ensures ListedBefore(s[1..][i - 1], s[1..][i]) {
          assert s[1..][i - 1] == s[i] && s[1..][i] == s[i + 1];
        }
      }
      var rest := InsertInOrder(x, s[1..]);
      assert ListedBefore(s[0], rest[0]);
      assert s == [s[0]] + s[1..];
      [s[0]] + rest
  }

  /** The rows in the order the query asks for (ties keep an arbitrary but fixed order). */
  function DisplayOrder(rows: seq<SignatureRow>): (r: seq<SignatureRow>)
    ensures InDisplayOrder(r)
    ensures multiset(r) == multiset(rows)
  {
    if rows == [] then []
    else
      assert rows == [rows[0]] + rows[1..];
      InsertInOrder(rows[0], DisplayOrder(rows[1..]))
  }

  /** The bucket map after `key` is written into `bucket`, replacing any object already there. */
  function WithObject(m: map<string, Bucket>, bucket: string, key: string, blob: Blob): (r: map<string, Bucket>)
    requires bucket in m
    ensures forall b :: b in r <==> b in m
    ensures key in r[bucket].objects && r[bucket].objects[key] == blob
    ensures forall k :: k in m[bucket].objects ==> k in r[bucket].objects
    ensures r[bucket].objects.Keys == m[bucket].objects.Keys + {key}
    ensures forall k :: k in m[bucket].objects && k != key ==> r[bucket].objects[k] == m[bucket].objects[k]
    ensures r[bucket].isPublic == m[bucket].isPublic && r[bucket].fileSizeLimit == m[bucket].fileSizeLimit
    ensures forall b :: b in m && b != bucket ==> r[b] == m[b]
  {
    m[bucket := m[bucket].(objects := m[bucket].objects[key := blob])]
  }

  /** The ids present in a table. */
  function SignatureIds(rows: seq<SignatureRow>): set<string>
  {
    set r | r in rows :: r.id
  }

  function DocumentIds(rows: seq<DocumentRow>): set<string>
  {
    set r | r in rows :: r.id
  }

  /** Tables whose rows carry the same ids position by position hold the same ids. */
  lemma SameIdsSameIdSet(r: seq<SignatureRow>, rows: seq<SignatureRow>)
    requires |r| == |rows| && forall i :: 0 <= i < |r| ==> r[i].id == rows[i].id
    ensures SignatureIds(r) == SignatureIds(rows)
  {
    forall x | x in SignatureIds(r) ensures x in SignatureIds(rows) {
      var i :| 0 <= i < |r| && r[i].id == x;
      assert rows[i] in rows;
    }
    forall x | x in SignatureIds(rows) ensures x in SignatureIds(r) {
      var i :| 0 <= i < |rows| && rows[i].id == x;
      assert r[i] in r;
    }
  }

  /** No two rows share an id, as the table's primary key guarantees. */
  predicate UniqueIds(rows: seq<SignatureRow>)
  {
    forall i, j :: 0 <= i < j < |rows| ==> rows[i].id != rows[j].id
  }

  /** Every document row names an object that exists in the `documents` bucket. */
  predicate DocumentsBackedBy(m: map<string, Bucket>, docs: seq<DocumentRow>)
  {
    forall row :: row in docs ==> "documents" in m && row.filePath in m["documents"].objects
  }

  /** A row whose id is not yet taken keeps the ids unique. */
  lemma AppendKeepsUnique(rows: seq<SignatureRow>, row: SignatureRow)
    requires UniqueIds(rows) && row.id !in SignatureIds(rows)
    ensures UniqueIds(rows + [row])
  {
    forall i | 0 <= i < |rows| ensures rows[i].id != row.id {
      assert rows[i] in rows;
    }
  }

  lemma {:induction false} WithoutIdKeepsUnique(rows: seq<SignatureRow>, id: string)
    requires UniqueIds(rows)
    ensures UniqueIds(WithoutId(rows, id))
  {
    if rows != [] {
      UniqueTail(rows);
      WithoutIdKeepsUnique(rows[1..], id);
      if rows[0].id != id {
        var rest := WithoutId(rows[1..], id);
        assert forall y :: y in rest ==> y.id != rows[0].id by {
          HeadIdNotInTail(rows);
        }
        ConsUnique(rows[0], rest);
      }
    }
  }

  lemma UniqueTail(rows: seq<SignatureRow>)
    requires UniqueIds(rows) && rows != []
    ensures UniqueIds(rows[1..])
  {
    forall i, j | 0 <= i < j < |rows[1..]| ensures rows[1..][i].id != rows[1..][j].id {
      assert rows[1..][i] == rows[i + 1] && rows[1..][j] == rows[j + 1];
    }
  }

  lemma HeadIdNotInTail(rows: seq<SignatureRow>)
    requires UniqueIds(rows) && rows != []
    ensures forall y :: y in rows[1..] ==> y.id != rows[0].id
  {
    forall y | y in rows[1..] ensures y.id != rows[0].id {
      var k :| 0 <= k < |rows[1..]| && rows[1..][k] == y;
      assert rows[k + 1] == y;
    }
  }

  lemma ConsUnique(x: SignatureRow, s: seq<SignatureRow>)
    requires UniqueIds(s) && forall y :: y in s ==> y.id != x.id
    ensures UniqueIds([x] + s)
  {
    var r := [x] + s;
    forall i, j | 0 <= i < j < |r| ensures r[i].id != r[j].id {
      assert r[j] == s[j - 1];
      if i == 0 {
        assert s[j - 1] in s;
      } else {
        assert r[i] == s[i - 1];
      }
    }
  }

  /** The in-memory stand-in for the backend. */
  class Store {
    var buckets: map<string, Bucket>
    var documents: seq<DocumentRow>
    var signatures: seq<SignatureRow>

    constructor ()
      ensures buckets == map[] && documents == [] && signatures == []
    {
      buckets := map[];
      documents := [];
      signatures := [];
    }

    /** Every document row names an object that exists in the `documents` bucket. */
    ghost predicate DocumentsBacked()
      reads this
    {
      DocumentsBackedBy(buckets, documents)
    }

    /** `storage.getBucket(name)`: an error when the bucket is missing. */
    method GetBucket(name: string, reply: Reply) returns (s: Status)
      ensures s == Resolve(reply, name in buckets)
    {
      s := Resolve(reply, name in buckets);
    }

    /** `storage.createBucket(name, { public, fileSizeLimit })`: an error when it already exists. */
    method CreateBucket(name: string, isPublic: bool, limit: nat, reply: Reply) returns (s: Status)
      modifies this
      ensures s == Resolve(reply, name !in old(buckets))
      ensures buckets == if s == Done then old(buckets)[name := Bucket(isPublic, Some(limit), map[])]
                         else old(buckets)
      ensures documents == old(documents) && signatures == old(signatures)
    {
      s := Resolve(reply, name !in buckets);
      if s == Done {
        buckets := buckets[name := Bucket(isPublic, Some(limit), map[])];
      }
    }

    /** `storage.listBuckets()`: the names of all buckets, or null data. */
    method ListBuckets(reply: Reply) returns (s: Status, names: Option<set<string>>)
      ensures s == Resolve(reply, true)
      ensures names == if reply == Ok then Some(buckets.Keys) else None
    {
      s := Resolve(reply, true);
      names := if reply == Ok then Some(buckets.Keys) else None;
    }

    /** `storage.from(bucket).list()`: how many entries the bucket lists. */
    method ListFiles(bucket: string, reply: Reply) returns (s: Status, count: Option<nat>)
      ensures s == Resolve(reply, bucket in buckets)
      ensures count == if s == Done && reply == Ok then Some(|buckets[bucket].objects|) else None
    {
      s := Resolve(reply, bucket in buckets);
      count := if s == Done && reply == Ok then Some(|buckets[bucket].objects|) else None;
    }

    /** `storage.from(bucket).upload(key, blob, { upsert: true })`: fails on a
        missing bucket or a blob over the bucket's size cap; replaces an existing object. */
    method Upload(bucket: string, key: string, blob: Blob, reply: Reply) returns (s: Status)
      modifies this
      ensures s == Resolve(reply, bucket in old(buckets) && Fits(old(buckets)[bucket], blob.size))
      ensures buckets == if s == Done then WithObject(old(buckets), bucket, key, blob) else old(buckets)
      ensures documents == old(documents) && signatures == old(signatures)
    {
      s := Resolve(reply, bucket in buckets && Fits(buckets[bucket], blob.size));
      if s == Done {
        buckets := buckets[bucket := buckets[bucket].(objects := buckets[bucket].objects[key := blob])];
      }
    }

    /** `storage.from(bucket).remove(keys)`. */
    method Remove(bucket: string, keys: seq<string>, reply: Reply) returns (s: Status)
      modifies this
      ensures s == Resolve(reply, bucket in old(buckets))
      ensures buckets == if s == Done
                         then old(buckets)[bucket := old(buckets)[bucket].(objects := old(buckets)[bucket].objects - set k | k in keys)]
                         else old(buckets)
      ensures documents == old(documents) && signatures == old(signatures)
    {
      s := Resolve(reply, bucket in buckets);
      if s == Done {
        buckets := buckets[bucket := buckets[bucket].(objects := buckets[bucket].objects - set k | k in keys)];
      }
    }

    /** `from("documents").insert(ins).select().single()`: refused when the
        row's id is already taken; the row comes back only with a normal reply. */
    method InsertDocument(ins: DocumentInsert, a: StoreAssigned, reply: Reply)
      returns (s: Status, data: Option<DocumentRow>)
      modifies this
      ensures s == Resolve(reply, DocumentRowOf(ins, a).id !in DocumentIds(old(documents)))
      ensures documents == if s == Done then old(documents) + [DocumentRowOf(ins, a)] else old(documents)
      ensures data == if s == Done && reply == Ok then Some(DocumentRowOf(ins, a)) else None
      ensures buckets == old(buckets) && signatures == old(signatures)
    {
      var row := DocumentRowOf(ins, a);
      s := Resolve(reply, row.id !in DocumentIds(documents));
      if s == Done {
        documents := documents + [row];
      }
      data := if s == Done && reply == Ok then Some(row) else None;
    }

    /** `from("signatures").insert(ins).select().single()`: refused when the
        row's id is already taken; the row comes back only with a normal reply. */
    method InsertSignature(ins: SignatureInsert, a: StoreAssigned, reply: Reply)
      returns (s: Status, data: Option<SignatureRow>)
      modifies this
      ensures s == Resolve(reply, SignatureRowOf(ins, a).id !in SignatureIds(old(signatures)))
      ensures signatures == if s == Done then old(signatures) + [SignatureRowOf(ins, a)] else old(signatures)
      ensures data == if s == Done && reply == Ok then Some(SignatureRowOf(ins, a)) else None
      ensures UniqueIds(old(signatures)) ==> UniqueIds(signatures)
      ensures buckets == old(buckets) && documents == old(documents)
    {
      var row := SignatureRowOf(ins, a);
      s := Resolve(reply, row.id !in SignatureIds(signatures));
      if s == Done {
        if UniqueIds(signatures) {
          AppendKeepsUnique(signatures, row);
        }
        signatures := signatures + [row];
      }
      data := if s == Done && reply == Ok then Some(row) else None;
    }

    /** `from("signatures").delete().eq("id", id)`. */
    method DeleteSignature(id: string, reply: Reply) returns (s: Status)
      modifies this
      ensures s == Resolve(reply, true)
      ensures signatures == if s == Done then WithoutId(old(signatures), id) else old(signatures)
      ensures UniqueIds(old(signatures)) ==> UniqueIds(signatures)
      ensures buckets == old(buckets) && documents == old(documents)
    {
      s := Resolve(reply, true);
      if s == Done {
        if UniqueIds(signatures) {
          WithoutIdKeepsUnique(signatures, id);
        }
        signatures := WithoutId(signatures, id);
      }
    }

    /** `from("signatures").update({ is_default: v }).eq("user_id", userId)`. */
    method UpdateDefaultByUser(userId: string, v: bool, reply: Reply) returns (s: Status)
      modifies this
      ensures s == Resolve(reply, true)
      ensures signatures == if s == Done then SetDefaultWhereUser(old(signatures), userId, v) else old(signatures)
      ensures UniqueIds(old(signatures)) ==> UniqueIds(signatures)
      ensures buckets == old(buckets) && documents == old(documents)
    {
      s := Resolve(reply, true);
      if s == Done {
        signatures := SetDefaultWhereUser(signatures, userId, v);
      }
    }

    /** `from("signatures").update({ is_default: v }).eq("id", id)`. */
    method UpdateDefaultById(id: string, v: bool, reply: Reply) returns (s: Status)
      modifies this
      ensures s == Resolve(reply, true)
      ensures signatures == if s == Done then SetDefaultWhereId(old(signatures), id, v) else old(signatures)
      ensures UniqueIds(old(signatures)) ==> UniqueIds(signatures)
      ensures buckets == old(buckets) && documents == old(documents)
    {
      s := Resolve(reply, true);
      if s == Done {
        signatures := SetDefaultWhereId(signatures, id, v);
      }
    }

    /** `from("signatures").select("*").eq("user_id", userId)` ordered default
        first, then newest first. */
    method SelectSignatures(userId: string, reply: Reply)
      returns (s: Status, data: Option<seq<SignatureRow>>)
      ensures s == Resolve(reply, true)
      ensures data == if reply == Ok then Some(DisplayOrder(OfUser(signatures, userId))) else None
    {
      s := Resolve(reply, true);
      data := if reply == Ok then Some(DisplayOrder(OfUser(signatures, userId))) else None;
    }
  }
}
