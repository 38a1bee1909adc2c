/** The drawing pad of `src/components/signatures/SignaturePad.tsx`: saving a
    drawn signature uploads it as a PNG and then records a `signatures` row. */
module SignaturePadComponent {
  import opened Common
  import opened JsString
  import opened Schema
  import opened Backend

  const PngMimeType := "image/png"

  /** The drawing surface: whether anything was drawn, and the size of its PNG rendering. */
  datatype Canvas = Canvas(isEmpty: bool, pngSize: nat)

  /** `signatures/${userId}/${Date.now()}.png`. */
  /** The key lies in the signer's folder and names a PNG image. */
  function SignatureKey(userId: string, now: nat): (r: string)
    ensures StartsWith(r, "signatures/" + userId + "/") && EndsWith(r, ".png")
  {
    "signatures/" + userId + "/" + DecimalString(now) + ".png"
  }

  /** Reads owner and timestamp back out of a signature key. */
  function ParseSignatureKey(key: string): Option<(string, nat)>
  {
    if !StartsWith(key, "signatures/") then None
    else match SplitAtFirst(key[11..], '/')
      case None => None
      case Some((owner, tail)) =>
        if !EndsWith(tail, ".png") then None
        else match ParseDecimal(tail[..|tail| - 4])
          case None => None
          case Some(t) => Some((owner, t))
  }

  /** The key names its owner and its timestamp unambiguously (user ids hold no `/`). */
  lemma SignatureKeyRoundTrip(userId: string, now: nat)
    requires '/' !in userId
    ensures ParseSignatureKey(SignatureKey(userId, now)) == Some((userId, now))
  {
    var key := SignatureKey(userId, now);
    var tail := DecimalString(now) + ".png";
    assert key[..11] == "signatures/";
    assert key[11..] == userId + ['/'] + tail;
    SplitAtFirstOf(userId, '/', tail);
    assert tail[|tail| - 4..] == ".png";
    assert tail[..|tail| - 4] == DecimalString(now);
    DecimalRoundTrip(now);
  }

  /** Two saves by different users, or at different milliseconds, never share a key. */
  lemma SignatureKeysDistinct(u1: string, t1: nat, u2: string, t2: nat)
    requires '/' !in u1 && '/' !in u2
    requires u1 != u2 || t1 != t2
    ensures SignatureKey(u1, t1) != SignatureKey(u2, t2)
  {
    SignatureKeyRoundTrip(u1, t1);
    SignatureKeyRoundTrip(u2, t2);
  }

  /** The insert `saveSignature` issues; `is_default` is always sent. */
  function PadInsert(userId: string, name: string, key: string, isDefault: bool): (r: SignatureInsert)
    ensures r.id.None? && r.createdAt.None? && r.isDefault == Some(isDefault)
    ensures r.userId == userId && r.name == name && r.filePath == key
  {
    SignatureInsert(None, userId, name, key, None, Some(isDefault))
  }

  /** The row a save records carries the pad's owner, name, checkbox and key. */
  lemma PadRowFields(userId: string, name: string, key: string, isDefault: bool, a: StoreAssigned)
    ensures var row := SignatureRowOf(PadInsert(userId, name, key, isDefault), a);
      row.userId == userId && row.name == name && row.filePath == key
      && row.isDefault == isDefault && row.id == a.id && row.createdAt == a.now
  {
  }

  /** Appending a row raises its owner's default count by one exactly when it is marked default. */
  lemma {:induction false} CountDefaultsAppend(rows: seq<SignatureRow>, row: SignatureRow, userId: string)
    ensures CountDefaults(rows + [row], userId)
            == CountDefaults(rows, userId) + (if row.userId == userId && row.isDefault then 1 else 0)
  {
    if rows != [] {
      assert (rows + [row])[1..] == rows[1..] + [row];
      CountDefaultsAppend(rows[1..], row, userId);
    }
  }

  /** Saving with "default" ticked adds a default without clearing the others:
      a user who already has a default then has two. */
  lemma SavingDefaultAddsADefault(rows: seq<SignatureRow>, userId: string, name: string, key: string, a: StoreAssigned)
    ensures CountDefaults(rows + [SignatureRowOf(PadInsert(userId, name, key, true), a)], userId)
            == CountDefaults(rows, userId) + 1
  {
    CountDefaultsAppend(rows, SignatureRowOf(PadInsert(userId, name, key, true), a), userId);
  }

  /** What the user sees after pressing save: the "draw first" toast, an error
      toast, or success, with the new row's id when `onSave` was called. */
  datatype SaveOutcome =
    | NothingDrawn
    | UploadFailed
    | SaveFailed
    | Saved(notified: Option<string>)

  /** What a save of a drawn signature leaves in storage and in `signatures`,
      and what the user sees: the PNG is stored first, the row is inserted
      only after that, and `onSave` hears of the row only when it came back. */
  function SavedEffect(m: map<string, Bucket>, sigs: seq<SignatureRow>, userId: string, name: string,
                       isDefault: bool, pngSize: nat, now: nat, hasOnSave: bool,
                       uploadReply: Reply, insertReply: Reply, given: StoreAssigned)
    : (r: (map<string, Bucket>, seq<SignatureRow>, SaveOutcome))
    ensures r.2 in {UploadFailed, SaveFailed} || r.2.Saved?
    ensures r.2 == UploadFailed ==> r.0 == m && r.1 == sigs
    ensures r.2.Saved? <==> r.1 != sigs
    ensures r.1 == sigs || r.1 == sigs + [SignatureRowOf(PadInsert(userId, name, SignatureKey(userId, now), isDefault), given)]
    ensures r.1 != sigs ==> "signatures" in r.0 && SignatureKey(userId, now) in r.0["signatures"].objects
    ensures r.2.Saved? && r.2.notified.Some? ==> r.2.notified.value == given.id && hasOnSave
  {
    var key := SignatureKey(userId, now);
    if Resolve(uploadReply, "signatures" in m && Fits(m["signatures"], pngSize)) != Done then (m, sigs, UploadFailed)
    else
      var stored := WithObject(m, "signatures", key, Blob(PngMimeType, pngSize));
      var row := SignatureRowOf(PadInsert(userId, name, key, isDefault), given);
      if Resolve(insertReply, row.id !in SignatureIds(sigs)) != Done then (stored, sigs, SaveFailed)
      else (stored, sigs + [row], Saved(if hasOnSave && insertReply == Ok then Some(row.id) else None))
  }

  /** Which outcome a save has for given replies: a refused upload changes
      nothing; an accepted one stores the PNG under its key; the row is added
      exactly when the insert is accepted, and then the save counts as done;
      `onSave` is told the new id exactly when there is a handler and the row came back. */
  lemma SavedOutcomes(m: map<string, Bucket>, sigs: seq<SignatureRow>, userId: string, name: string,
                      isDefault: bool, pngSize: nat, now: nat, hasOnSave: bool,
                      uploadReply: Reply, insertReply: Reply, given: StoreAssigned)
    ensures var r := SavedEffect(m, sigs, userId, name, isDefault, pngSize, now, hasOnSave, uploadReply, insertReply, given);
      var key := SignatureKey(userId, now);
      var row := SignatureRowOf(PadInsert(userId, name, key, isDefault), given);
      var uploadOk := uploadReply in {Ok, NullData} && "signatures" in m && Fits(m["signatures"], pngSize);
      var insertOk := insertReply in {Ok, NullData} && given.id !in SignatureIds(sigs);
      && (r.2 == UploadFailed <==> !uploadOk)
      && (!uploadOk ==> r.0 == m && r.1 == sigs)
      && (uploadOk ==> && "signatures" in r.0 && r.0["signatures"].objects == m["signatures"].objects[key := Blob(PngMimeType, pngSize)]
                       && (forall b :: b in m && b != "signatures" ==> b in r.0 && r.0[b] == m[b])
                       && r.1 == sigs + (if insertOk then [row] else []))
      && (r.2.Saved? <==> uploadOk && insertOk)
      && (r.2 == Saved(Some(given.id)) <==> uploadOk && insertOk && hasOnSave && insertReply == Ok)
      && r.2 != NothingDrawn
  {
  }

  /** A save keeps the ids of `signatures` distinct. */
  lemma SavedKeepsUniqueIds(m: map<string, Bucket>, sigs: seq<SignatureRow>, userId: string, name: string,
                            isDefault: bool, pngSize: nat, now: nat, hasOnSave: bool,
                            uploadReply: Reply, insertReply: Reply, given: StoreAssigned)
    requires UniqueIds(sigs)
    ensures var r := SavedEffect(m, sigs, userId, name, isDefault, pngSize, now, hasOnSave, uploadReply, insertReply, given);
      UniqueIds(r.1)
  {
    var row := SignatureRowOf(PadInsert(userId, name, SignatureKey(userId, now), isDefault), given);
    if row.id !in SignatureIds(sigs) {
      AppendKeepsUnique(sigs, row);
    }
  }

  /** The storage part of `saveSignature`: upload the PNG, and only when that
      succeeded record the row; `onSave` hears of the row only when it came back. */
  method UploadAndRecordSignature(store: Store, userId: string, name: string, isDefault: bool,
                                  pngSize: nat, now: nat, hasOnSave: bool,
                                  uploadReply: Reply, insertReply: Reply, given: StoreAssigned)
    returns (o: SaveOutcome)
    modifies store
    ensures (store.buckets, store.signatures, o)
            == SavedEffect(old(store.buckets), old(store.signatures), userId, name, isDefault, pngSize, now,
                           hasOnSave, uploadReply, insertReply, given)
    ensures o != NothingDrawn
    ensures store.documents == old(store.documents)
    ensures o == UploadFailed ==>
            store.buckets == old(store.buckets) && store.signatures == old(store.signatures)
    ensures var key := SignatureKey(userId, now);
      || store.signatures == old(store.signatures)
      || (&& store.signatures == old(store.signatures) + [SignatureRowOf(PadInsert(userId, name, key, isDefault), given)]
          && "signatures" in store.buckets && key in store.buckets["signatures"].objects)
    ensures o.Saved? ==> |store.signatures| == |old(store.signatures)| + 1
    ensures o.Saved? && o.notified.Some? <==> o.Saved? && hasOnSave && insertReply == Ok
    ensures o.Saved? && o.notified.Some? ==> o.notified.value == given.id
    ensures UniqueIds(old(store.signatures)) ==> UniqueIds(store.signatures)
  {
    var key := SignatureKey(userId, now);
    var uploaded := store.Upload("signatures", key, Blob(PngMimeType, pngSize), uploadReply);
    if uploaded != Done {
      return UploadFailed;
    }
    var inserted, data := store.InsertSignature(PadInsert(userId, name, key, isDefault), given, insertReply);
    if inserted != Done {
      return SaveFailed;
    }
    o := Saved(if hasOnSave && data.Some? then Some(data.value.id) else None);
  }

  class SignaturePad {
    const userId: string
    const hasOnSave: bool
    var signatureName: string
    var isDefault: bool
    var isSaving: bool

    constructor (userId: string, hasOnSave: bool)
      ensures this.userId == userId && this.hasOnSave == hasOnSave
      ensures signatureName == "My Signature" && !isDefault && !isSaving
    {
      this.userId := userId;
      this.hasOnSave := hasOnSave;
      signatureName := "My Signature";
      isDefault := false;
      isSaving := false;
    }

    /** `saveSignature`: nothing happens without a drawing; otherwise the
        storage work runs and `isSaving` ends false whatever its outcome. */
    method SaveSignature(store: Store, canvas: Option<Canvas>, now: nat,
                         uploadReply: Reply, insertReply: Reply, given: StoreAssigned)
      returns (o: SaveOutcome)
      modifies this, store
      ensures signatureName == old(signatureName) && isDefault == old(isDefault)
      ensures o == NothingDrawn <==> canvas.None? || canvas.value.isEmpty
      ensures o == NothingDrawn ==>
              isSaving == old(isSaving) && store.buckets == old(store.buckets) && store.signatures == old(store.signatures)
      ensures o != NothingDrawn ==> !isSaving
      ensures store.documents == old(store.documents)
      ensures o == UploadFailed ==>
              store.buckets == old(store.buckets) && store.signatures == old(store.signatures)
      ensures var key := SignatureKey(userId, now);
        || store.signatures == old(store.signatures)
        || (&& store.signatures == old(store.signatures) + [SignatureRowOf(PadInsert(userId, signatureName, key, isDefault), given)]
            && "signatures" in store.buckets && key in store.buckets["signatures"].objects)
      ensures o.Saved? ==> |store.signatures| == |old(store.signatures)| + 1
      ensures o.Saved? && o.notified.Some? <==> o.Saved? && hasOnSave && insertReply == Ok
      ensures o.Saved? && o.notified.Some? ==> o.notified.value == given.id
      ensures canvas.Some? && !canvas.value.isEmpty ==>
              (store.buckets, store.signatures, o)
              == SavedEffect(old(store.buckets), old(store.signatures), userId, signatureName, isDefault,
                             canvas.value.pngSize, now, hasOnSave, uploadReply, insertReply, given)
      ensures UniqueIds(old(store.signatures)) ==> UniqueIds(store.signatures)
    {
      if canvas.None? || canvas.value.isEmpty {
        return NothingDrawn;
      }
      isSaving := true;
      o := UploadAndRecordSignature(store, userId, signatureName, isDefault, canvas.value.pngSize, now,
                                    hasOnSave, uploadReply, insertReply, given);
      isSaving := false;
    }
  }
}
