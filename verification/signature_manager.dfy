/** The signature list of `src/components/signatures/SignatureManager.tsx`:
    loading a user's signatures, deleting one (row first, then its image), and
    making one the default (clear all of the user's defaults, then set one). */
module SignatureManagerComponent {
  import opened Common
  import opened Schema
  import opened Backend

  /** `k` is the position of the first row with id `id`. */
  predicate FirstWithId(rows: seq<SignatureRow>, id: string, k: int)
  {
    0 <= k < |rows| && rows[k].id == id && forall j :: 0 <= j < k ==> rows[j].id != id
  }

  /** `signatures.find(sig => sig.id === id)`: the first row with that id. */
  function FindById(rows: seq<SignatureRow>, id: string): (r: Option<SignatureRow>)
    ensures r.None? <==> forall x :: x in rows ==> x.id != id
    ensures r.Some? ==> r.value.id == id && exists k :: FirstWithId(rows, id, k) && rows[k] == r.value
  {
    if rows == [] then None
    else if rows[0].id == id then
      assert FirstWithId(rows, id, 0);
      Some(rows[0])
    else
      var rest := rows[1..];
      var r := FindById(rest, id);
      assert r.Some? ==> exists k :: FirstWithId(rows, id, k) && rows[k] == r.value by {
        if r.Some? {
          var k :| FirstWithId(rest, id, k) && rest[k] == r.value;
          assert rows[k + 1] == r.value;
          assert forall j :: 0 < j < k + 1 ==> rows[j] == rest[j - 1];
          assert FirstWithId(rows, id, k + 1);
        }
      }
      assert rows == [rows[0]] + rest;
      r
  }

  /** The two updates of `setDefaultSignature`, both applied. */
  function ClearThenSet(rows: seq<SignatureRow>, userId: string, id: string): (r: seq<SignatureRow>)
    ensures |r| == |rows| && SignatureIds(r) == SignatureIds(rows)
    ensures forall i :: 0 <= i < |r| ==> r[i].(isDefault := rows[i].isDefault) == rows[i]
    ensures forall i :: 0 <= i < |r| && rows[i].userId == userId ==> (r[i].isDefault <==> rows[i].id == id)
  {
    SetDefaultWhereId(SetDefaultWhereUser(rows, userId, false), id, true)
  }

  /** After both updates only `is_default` has changed; among `userId`'s rows
      exactly those with the target id are default; and every row of another
      user that is not the target is as it was. */
  lemma ClearThenSetMarks(rows: seq<SignatureRow>, userId: string, id: string)
    ensures var r := ClearThenSet(rows, userId, id);
      && |r| == |rows|
      && (forall i :: 0 <= i < |r| ==> r[i] == rows[i].(isDefault := r[i].isDefault))
      && (forall i :: 0 <= i < |r| && r[i].userId == userId ==> (r[i].isDefault <==> r[i].id == id))
      && (forall i :: 0 <= i < |r| && rows[i].userId != userId && rows[i].id != id ==> r[i] == rows[i])
      && (forall i :: 0 <= i < |r| && rows[i].id == id ==> r[i].isDefault)
  {
  }

  lemma {:induction false} NoDefaults(s: seq<SignatureRow>, userId: string)
    requires forall i :: 0 <= i < |s| ==> !(s[i].userId == userId && s[i].isDefault)
    ensures CountDefaults(s, userId) == 0
  {
    if s != [] {
      assert forall i :: 0 <= i < |s[1..]| ==> s[1..][i] == s[i + 1];
      NoDefaults(s[1..], userId);
    }
  }

  lemma {:induction false} OneDefault(s: seq<SignatureRow>, userId: string, k: nat)
    requires k < |s| && s[k].userId == userId && s[k].isDefault
    requires forall i :: 0 <= i < |s| && i != k ==> !(s[i].userId == userId && s[i].isDefault)
    ensures CountDefaults(s, userId) == 1
  {
    assert forall i :: 0 <= i < |s[1..]| ==> s[1..][i] == s[i + 1];
    if k == 0 {
      NoDefaults(s[1..], userId);
    } else {
      OneDefault(s[1..], userId, k - 1);
    }
  }

  /** Counting defaults looks only at which rows are `userId`'s defaults. */
  lemma {:induction false} SameDefaultsSameCount(s: seq<SignatureRow>, t: seq<SignatureRow>, userId: string)
    requires |s| == |t|
    requires forall i :: 0 <= i < |s| ==>
               (s[i].userId == userId && s[i].isDefault) == (t[i].userId == userId && t[i].isDefault)
    ensures CountDefaults(s, userId) == CountDefaults(t, userId)
  {
    if s != [] {
      assert forall i :: 0 <= i < |s[1..]| ==> s[1..][i] == s[i + 1] && t[1..][i] == t[i + 1];
      SameDefaultsSameCount(s[1..], t[1..], userId);
    }
  }

  /** When the target row is the user's own, the user ends with exactly one default. */
  lemma ClearThenSetLeavesOneDefault(rows: seq<SignatureRow>, userId: string, id: string, k: nat)
    requires UniqueIds(rows)
    requires k < |rows| && rows[k].id == id && rows[k].userId == userId
    ensures CountDefaults(ClearThenSet(rows, userId, id), userId) == 1
  {
    ClearThenSetMarks(rows, userId, id);
    OneDefault(ClearThenSet(rows, userId, id), userId, k);
  }

  /** Every other user keeps their default count when the target is not theirs. */
  lemma ClearThenSetKeepsOtherUsers(rows: seq<SignatureRow>, userId: string, id: string, other: string)
    requires other != userId
    requires forall i :: 0 <= i < |rows| && rows[i].id == id ==> rows[i].userId == userId
    ensures CountDefaults(ClearThenSet(rows, userId, id), other) == CountDefaults(rows, other)
  {
    ClearThenSetMarks(rows, userId, id);
    SameDefaultsSameCount(ClearThenSet(rows, userId, id), rows, other);
  }

  /** Choosing `x` and then `y` leaves `y` as the user's only default. */
  lemma SecondChoiceWins(rows: seq<SignatureRow>, userId: string, x: string, y: string, k: nat)
    requires UniqueIds(rows)
    requires k < |rows| && rows[k].id == y && rows[k].userId == userId
    ensures var r := ClearThenSet(ClearThenSet(rows, userId, x), userId, y);
      && CountDefaults(r, userId) == 1
      && forall i :: 0 <= i < |r| && r[i].userId == userId ==> (r[i].isDefault <==> r[i].id == y)
  {
    var mid := ClearThenSet(rows, userId, x);
    ClearThenSetMarks(rows, userId, x);
    assert UniqueIds(mid);
    ClearThenSetMarks(mid, userId, y);
    ClearThenSetLeavesOneDefault(mid, userId, y, k);
  }

  /** A clearing step that fails is ignored, so the set step can leave two defaults. */
  lemma FailedClearCanLeaveTwoDefaults()
    ensures var rows := [SignatureRow("a", "u", "A", "signatures/u/1.png", 1, true),
                         SignatureRow("b", "u", "B", "signatures/u/2.png", 2, false)];
      CountDefaults(SetDefaultWhereId(rows, "b", true), "u") == 2
  {
    var rows := [SignatureRow("a", "u", "A", "signatures/u/1.png", 1, true),
                 SignatureRow("b", "u", "B", "signatures/u/2.png", 2, false)];
    var r := SetDefaultWhereId(rows, "b", true);
    assert r[0].isDefault && r[1].isDefault && |r| == 2;
    assert r[1..][1..] == [];
    assert CountDefaults(r[1..], "u") == 1;
  }

  /** A fetch shows exactly the user's rows, each as often as the table holds it. */
  lemma FetchedRowsAreTheUsers(rows: seq<SignatureRow>, userId: string)
    ensures var shown := DisplayOrder(OfUser(rows, userId));
      && InDisplayOrder(shown)
      && multiset(shown) <= multiset(rows)
      && (forall x :: x in shown <==> x in rows && x.userId == userId)
      && forall x :: multiset(shown)[x] == if x.userId == userId then multiset(rows)[x] else 0
  {
    var shown := DisplayOrder(OfUser(rows, userId));
    forall x ensures x in shown <==> x in OfUser(rows, userId) {
      assert x in shown <==> x in multiset(shown);
      assert x in OfUser(rows, userId) <==> x in multiset(OfUser(rows, userId));
    }
  }

  datatype FetchOutcome = Fetched | FetchFailed
  datatype DeleteOutcome = NotListed | DeleteFailed | Deleted
  datatype DefaultOutcome = DefaultFailed | DefaultUpdated

  /** Storage after removing `path` from the `signatures` bucket, when that succeeded. */
  function AfterRemove(m: map<string, Bucket>, path: string, reply: Reply): (r: map<string, Bucket>)
    ensures r.Keys == m.Keys
    ensures forall b :: b in m && b != "signatures" ==> r[b] == m[b]
    ensures "signatures" in m ==>
              r["signatures"].isPublic == m["signatures"].isPublic && r["signatures"].fileSizeLimit == m["signatures"].fileSizeLimit
    ensures "signatures" in m ==> forall k :: k in m["signatures"].objects && k != path ==>
              k in r["signatures"].objects && r["signatures"].objects[k] == m["signatures"].objects[k]
    ensures "signatures" in m && reply in {Ok, NullData} ==> path !in r["signatures"].objects
    ensures reply in {ErrorResult, Throws} ==> r == m
    ensures "signatures" in m ==>
              r["signatures"].objects.Keys == m["signatures"].objects.Keys - (if reply in {Ok, NullData} then {path} else {})
  {
    if Resolve(reply, "signatures" in m) == Done
    then m["signatures" := m["signatures"].(objects := m["signatures"].objects - {path})]
    else m
  }

  /** `remove([path])` on the `signatures` bucket is `AfterRemove`. */
  lemma RemovingOnePath(m: map<string, Bucket>, path: string, reply: Reply)
    ensures AfterRemove(m, path, reply) ==
            if Resolve(reply, "signatures" in m) == Done
            then m["signatures" := m["signatures"].(objects := m["signatures"].objects - set k | k in [path])]
            else m
  {
    assert (set k | k in [path]) == {path};
  }

  /** The storage part of `handleDeleteSignature` for a listed row: delete
      the row, and only when that succeeded remove its image. */
  method DeleteRowThenImage(store: Store, id: string, path: string, deleteReply: Reply, removeReply: Reply)
    returns (o: DeleteOutcome)
    modifies store
    ensures store.documents == old(store.documents)
    ensures deleteReply in {ErrorResult, Throws} ==>
            o == DeleteFailed && store.signatures == old(store.signatures) && store.buckets == old(store.buckets)
    ensures deleteReply in {Ok, NullData} ==>
            && store.signatures == WithoutId(old(store.signatures), id)
            && store.buckets == AfterRemove(old(store.buckets), path, removeReply)
            && o == (if removeReply == Throws then DeleteFailed else Deleted)
    ensures UniqueIds(old(store.signatures)) ==> UniqueIds(store.signatures)
  {
    var deleted := store.DeleteSignature(id, deleteReply);
    if deleted != Done {
      return DeleteFailed;
    }
    ghost var before := store.buckets;
    var removed := store.Remove("signatures", [path], removeReply);
    RemovingOnePath(before, path, removeReply);
    o := if removed == Threw then DeleteFailed else Deleted;
  }

  class SignatureManager {
    const userId: string
    var signatures: seq<SignatureRow>
    var loading: bool

    constructor (userId: string)
      ensures this.userId == userId && signatures == [] && loading
    {
      this.userId := userId;
      signatures := [];
      loading := true;
    }

    /** `fetchSignatures`: the user's rows in display order; null data gives
        an empty list; an error keeps the list; `loading` always ends false. */
    method FetchSignatures(store: Store, reply: Reply) returns (o: FetchOutcome)
      modifies this
      ensures !loading
      ensures o == Fetched <==> reply in {Ok, NullData}
      ensures reply == Ok ==> signatures == DisplayOrder(OfUser(store.signatures, userId))
      ensures reply == NullData ==> signatures == []
      ensures o == FetchFailed ==> signatures == old(signatures)
    {
      var s, data := store.SelectSignatures(userId, reply);
      if s == Done {
        signatures := if data.Some? then data.value else [];
        o := Fetched;
      } else {
        o := FetchFailed;
      }
      loading := false;
    }

    /** The effect hook: signatures are fetched only for a non-empty user id. */
    method Mount(store: Store, reply: Reply) returns (o: Option<FetchOutcome>)
      modifies this
      ensures userId == "" ==> o == None && signatures == old(signatures) && loading == old(loading)
      ensures userId != "" ==> o.Some? && !loading && (o.value == Fetched <==> reply in {Ok, NullData})
      ensures userId != "" && reply == Ok ==> signatures == DisplayOrder(OfUser(store.signatures, userId))
      ensures userId != "" && reply == NullData ==> signatures == []
      ensures userId != "" && reply in {ErrorResult, Throws} ==> signatures == old(signatures)
    {
      if userId == "" {
        return None;
      }
      var f := FetchSignatures(store, reply);
      o := Some(f);
    }

    /** `handleDeleteSignature`: only a listed id is deleted; the row goes first
        and, only if that worked, the image; a failed image removal is merely
        logged, but a thrown one is reported as a failure. */
    method HandleDeleteSignature(store: Store, id: string, deleteReply: Reply, removeReply: Reply)
      returns (o: DeleteOutcome)
      modifies store
      ensures store.documents == old(store.documents)
      ensures FindById(signatures, id).None? ==>
              o == NotListed && store.signatures == old(store.signatures) && store.buckets == old(store.buckets)
      ensures FindById(signatures, id).Some? && deleteReply in {ErrorResult, Throws} ==>
              o == DeleteFailed && store.signatures == old(store.signatures) && store.buckets == old(store.buckets)
      ensures FindById(signatures, id).Some? && deleteReply in {Ok, NullData} ==>
              && store.signatures == WithoutId(old(store.signatures), id)
              && store.buckets == AfterRemove(old(store.buckets), FindById(signatures, id).value.filePath, removeReply)
              && o == (if removeReply == Throws then DeleteFailed else Deleted)
      ensures UniqueIds(old(store.signatures)) ==> UniqueIds(store.signatures)
    {
      var listed := FindById(signatures, id);
      if listed.None? {
        return NotListed;
      }
      o := DeleteRowThenImage(store, id, listed.value.filePath, deleteReply, removeReply);
    }

    /** `setDefaultSignature`: clear every default of the user, ignoring an
        error answer, then mark the chosen row; only the second step's error is
        reported, and a throw in the first skips the second. */
    method SetDefaultSignature(store: Store, id: string, clearReply: Reply, setReply: Reply)
      returns (o: DefaultOutcome)
      modifies store
      ensures store.buckets == old(store.buckets) && store.documents == old(store.documents)
      ensures clearReply == Throws ==> o == DefaultFailed && store.signatures == old(store.signatures)
      ensures clearReply in {Ok, NullData} && setReply in {Ok, NullData} ==>
              o == DefaultUpdated && store.signatures == ClearThenSet(old(store.signatures), userId, id)
      ensures clearReply == ErrorResult && setReply in {Ok, NullData} ==>
              o == DefaultUpdated && store.signatures == SetDefaultWhereId(old(store.signatures), id, true)
      ensures clearReply in {Ok, NullData} && setReply in {ErrorResult, Throws} ==>
              o == DefaultFailed && store.signatures == SetDefaultWhereUser(old(store.signatures), userId, false)
      ensures clearReply != Throws && setReply in {ErrorResult, Throws} ==> o == DefaultFailed
      ensures clearReply == ErrorResult && setReply in {ErrorResult, Throws} ==>
              store.signatures == old(store.signatures)
      ensures UniqueIds(old(store.signatures)) ==> UniqueIds(store.signatures)
      ensures && UniqueIds(old(store.signatures)) && clearReply in {Ok, NullData} && setReply in {Ok, NullData}
              && (exists k :: 0 <= k < |old(store.signatures)|
                               && old(store.signatures)[k].id == id && old(store.signatures)[k].userId == userId)
              ==> CountDefaults(store.signatures, userId) == 1
      ensures && clearReply in {Ok, NullData} && setReply in {Ok, NullData}
              && (forall i :: 0 <= i < |old(store.signatures)| && old(store.signatures)[i].id == id
                              ==> old(store.signatures)[i].userId == userId)
              ==> forall other :: other != userId ==>
                    CountDefaults(store.signatures, other) == CountDefaults(old(store.signatures), other)
    {
      ghost var before := store.signatures;
      if clearReply in {Ok, NullData} && setReply in {Ok, NullData} {
        if UniqueIds(before) && exists k :: 0 <= k < |before| && before[k].id == id && before[k].userId == userId {
          var k :| 0 <= k < |before| && before[k].id == id && before[k].userId == userId;
          ClearThenSetLeavesOneDefault(before, userId, id, k);
        }
        if forall i :: 0 <= i < |before| && before[i].id == id ==> before[i].userId == userId {
          forall other | other != userId
            ensures CountDefaults(ClearThenSet(before, userId, id), other) == CountDefaults(before, other)
          {
            ClearThenSetKeepsOtherUsers(before, userId, id, other);
          }
        }
      }
      var cleared := store.UpdateDefaultByUser(userId, false, clearReply);
      if cleared == Threw {
        return DefaultFailed;
      }
      var marked := store.UpdateDefaultById(id, true, setReply);
      o := if marked == Done then DefaultUpdated else DefaultFailed;
    }
  }
}
