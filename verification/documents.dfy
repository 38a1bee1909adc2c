/** The new-document page of `src/app/documents/new/page.tsx`: choosing a PDF
    (`handleFileChange`) and submitting it (`handleSubmit`), which uploads the
    file and only then inserts a `draft` row that points at it. */
module DocumentUpload {
  import opened Common
  import opened JsString
  import opened Schema
  import opened Backend

  const PdfMimeType := "application/pdf"

  /** A file picked in the browser. */
  datatype File = File(name: string, mimeType: string, size: nat)

  /** `fileName.replace(/\.pdf$/, "")`: one trailing, lower-case `.pdf` is removed. */
  function DefaultDocumentName(fileName: string): (r: string)
    ensures r == fileName || r + ".pdf" == fileName
    ensures EndsWith(fileName, ".pdf") <==> r != fileName
  {
    if EndsWith(fileName, ".pdf") then fileName[..|fileName| - 4] else fileName
  }

  /** The suffix removal undoes appending `.pdf`, exactly once. */
  lemma DefaultNameRoundTrip(base: string)
    ensures DefaultDocumentName(base + ".pdf") == base
  {
    assert (base + ".pdf")[|base + ".pdf"| - 4..] == ".pdf";
    assert (base + ".pdf")[..|base|] == base;
  }

  /** The match is case-sensitive and only at the very end. */
  lemma DefaultNameExamples()
    ensures DefaultDocumentName("contract.pdf") == "contract"
    ensures DefaultDocumentName("a.pdf.pdf") == "a.pdf"
    ensures DefaultDocumentName("SCAN.PDF") == "SCAN.PDF"
    ensures DefaultDocumentName("notes.pdf.txt") == "notes.pdf.txt"
  {
    assert DefaultDocumentName("contract.pdf") == "contract" by {
      assert "contract" + ".pdf" == "contract.pdf";
      DefaultNameRoundTrip("contract");
    }
    assert DefaultDocumentName("a.pdf.pdf") == "a.pdf" by {
      assert "a.pdf" + ".pdf" == "a.pdf.pdf";
      DefaultNameRoundTrip("a.pdf");
    }
    assert DefaultDocumentName("SCAN.PDF") == "SCAN.PDF" by {
      assert "SCAN.PDF"[4..] != ".pdf" by { assert "SCAN.PDF"[4..][1] == 'P'; }
    }
    assert DefaultDocumentName("notes.pdf.txt") == "notes.pdf.txt" by {
      assert "notes.pdf.txt"[9..] != ".pdf" by { assert "notes.pdf.txt"[9..][1] == 't'; }
    }
  }

  /** `documents/${userId}/${Date.now()}_${file.name.replace(/\s+/g, "_")}`. */
  /** The key lies in the uploader's folder, and nothing after that folder is whitespace. */
  function DocumentKey(userId: string, now: nat, fileName: string): (r: string)
    ensures StartsWith(r, "documents/" + userId + "/")
    ensures NoWhitespace(r[|"documents/" + userId + "/"|..])
  {
    "documents/" + userId + "/" + DecimalString(now) + "_" + ReplaceWhitespaceRuns(fileName)
  }

  datatype KeyParts = KeyParts(owner: string, time: nat, fileName: string)

  /** Reads owner, timestamp and file name back out of a document key. */
  function ParseDocumentKey(key: string): Option<KeyParts>
  {
    if !StartsWith(key, "documents/") then None
    else match SplitAtFirst(key[10..], '/')
      case None => None
      case Some((owner, rest)) =>
        match SplitAtFirst(rest, '_')
        case None => None
        case Some((digits, name)) =>
          match ParseDecimal(digits)
          case None => None
          case Some(t) => Some(KeyParts(owner, t, name))
  }

  /** The key names its owner and its timestamp unambiguously (user ids hold no `/`),
      and its file name part is the whitespace-free form of the file's name. */
  lemma DocumentKeyRoundTrip(userId: string, now: nat, fileName: string)
    requires '/' !in userId
    ensures ParseDocumentKey(DocumentKey(userId, now, fileName))
            == Some(KeyParts(userId, now, ReplaceWhitespaceRuns(fileName)))
  {
    var key := DocumentKey(userId, now, fileName);
    var digits := DecimalString(now);
    var name := ReplaceWhitespaceRuns(fileName);
    assert key[..10] == "documents/";
    assert key[10..] == userId + ['/'] + (digits + "_" + name);
    SplitAtFirstOf(userId, '/', digits + "_" + name);
    assert forall i :: 0 <= i < |digits| ==> digits[i] != '_';
    assert digits + "_" + name == digits + ['_'] + name;
    SplitAtFirstOf(digits, '_', name);
    DecimalRoundTrip(now);
  }

  /** Two uploads by different users, or at different milliseconds, never share a key. */
  lemma DocumentKeysDistinct(u1: string, t1: nat, f1: string, u2: string, t2: nat, f2: string)
    requires '/' !in u1 && '/' !in u2
    requires u1 != u2 || t1 != t2
    ensures DocumentKey(u1, t1, f1) != DocumentKey(u2, t2, f2)
  {
    DocumentKeyRoundTrip(u1, t1, f1);
    DocumentKeyRoundTrip(u2, t2, f2);
  }

  /** The insert `handleSubmit` issues: status `draft`, the submitter as creator, the key as path. */
  function DraftInsert(name: string, userId: string, key: string, updatedAt: Timestamp): (r: DocumentInsert)
    ensures r.id.None? && r.createdAt.None?
    ensures r.status == Some(Draft) && r.updatedAt == Some(updatedAt)
    ensures r.name == name && r.createdBy == userId && r.filePath == key
  {
    DocumentInsert(None, name, Some(Draft), userId, None, key, Some(updatedAt))
  }

  lemma DraftRowFields(name: string, userId: string, key: string, updatedAt: Timestamp, a: StoreAssigned)
    ensures var row := DocumentRowOf(DraftInsert(name, userId, key, updatedAt), a);
      row.status == Draft && row.createdBy == userId && row.filePath == key && row.name == name
      && row.id == a.id && row.updatedAt == updatedAt
  {
  }

  datatype FileChange = NoFileChosen | NotPdf | Chosen

  /** What the user sees after a submit: a validation toast, the login page,
      an error toast, or the editor of the new document. */
  datatype SubmitOutcome =
    | NeedFile
    | NeedName
    | LoginRedirect
    | UploadFailed
    | SaveFailed
    | EditorRedirect(path: string)

  /** What a signed-in submit leaves in storage and in `documents`, and what
      the user sees: the PDF is stored first, the draft row is inserted only
      after that, and only a row that came back yields the editor's path (a
      null row makes reading its `id` throw, which the page reports as an error). */
  function Recorded(m: map<string, Bucket>, docs: seq<DocumentRow>, userId: string, name: string, pdf: File,
                    now: nat, updatedAt: Timestamp, uploadReply: Reply, insertReply: Reply, given: StoreAssigned)
    : (r: (map<string, Bucket>, seq<DocumentRow>, SubmitOutcome))
    ensures r.2 in {UploadFailed, SaveFailed} || r.2 == EditorRedirect("/documents/" + given.id + "/edit")
    ensures r.2 == UploadFailed ==> r.0 == m && r.1 == docs
    ensures r.1 == docs || r.1 == docs + [DocumentRowOf(DraftInsert(name, userId, DocumentKey(userId, now, pdf.name), updatedAt), given)]
    ensures r.1 != docs || r.2.EditorRedirect? ==>
            "documents" in r.0 && DocumentKey(userId, now, pdf.name) in r.0["documents"].objects
  {
    var key := DocumentKey(userId, now, pdf.name);
    if Resolve(uploadReply, "documents" in m && Fits(m["documents"], pdf.size)) != Done then (m, docs, UploadFailed)
    else
      var stored := WithObject(m, "documents", key, Blob(PdfMimeType, pdf.size));
      var row := DocumentRowOf(DraftInsert(name, userId, key, updatedAt), given);
      if Resolve(insertReply, row.id !in DocumentIds(docs)) != Done then (stored, docs, SaveFailed)
      else (stored, docs + [row], if insertReply == Ok then EditorRedirect("/documents/" + row.id + "/edit") else SaveFailed)
  }

  /** Which outcome a submit has for given replies: a refused upload changes
      nothing; an accepted one stores the PDF under its key; the row is added
      exactly when the insert is accepted; the editor opens exactly when the
      row came back. */
  lemma RecordedOutcomes(m: map<string, Bucket>, docs: seq<DocumentRow>, userId: string, name: string, pdf: File,
                         now: nat, updatedAt: Timestamp, uploadReply: Reply, insertReply: Reply, given: StoreAssigned)
    ensures var r := Recorded(m, docs, userId, name, pdf, now, updatedAt, uploadReply, insertReply, given);
      var key := DocumentKey(userId, now, pdf.name);
      var row := DocumentRowOf(DraftInsert(name, userId, key, updatedAt), given);
      var uploadOk := uploadReply in {Ok, NullData} && "documents" in m && Fits(m["documents"], pdf.size);
      var insertOk := insertReply in {Ok, NullData} && given.id !in DocumentIds(docs);
      && (r.2 == UploadFailed <==> !uploadOk)
      && (!uploadOk ==> r.0 == m && r.1 == docs)
      && (uploadOk ==> && "documents" in r.0 && r.0["documents"].objects == m["documents"].objects[key := Blob(PdfMimeType, pdf.size)]
                       && (forall b :: b in m && b != "documents" ==> b in r.0 && r.0[b] == m[b])
                       && r.1 == docs + (if insertOk then [row] else []))
      && (r.2 == EditorRedirect("/documents/" + given.id + "/edit") <==> uploadOk && insertOk && insertReply == Ok)
      && (r.2 in {UploadFailed, SaveFailed} || r.2.EditorRedirect?)
  {
  }

  /** A submit never leaves a row whose file is missing. */
  lemma RecordedKeepsBacked(m: map<string, Bucket>, docs: seq<DocumentRow>, userId: string, name: string, pdf: File,
                            now: nat, updatedAt: Timestamp, uploadReply: Reply, insertReply: Reply, given: StoreAssigned)
    requires DocumentsBackedBy(m, docs)
    ensures var r := Recorded(m, docs, userId, name, pdf, now, updatedAt, uploadReply, insertReply, given);
      DocumentsBackedBy(r.0, r.1)
  {
  }

  /** The storage part of `handleSubmit` for a signed-in user: upload the
      PDF under its key and, only when that succeeded, insert the draft row. */
  method UploadAndRecord(store: Store, userId: string, name: string, pdf: File, now: nat,
                         updatedAt: Timestamp, uploadReply: Reply, insertReply: Reply, given: StoreAssigned)
    returns (o: SubmitOutcome)
    modifies store
    ensures (store.buckets, store.documents, o)
            == Recorded(old(store.buckets), old(store.documents), userId, name, pdf, now, updatedAt, uploadReply, insertReply, given)
    ensures store.signatures == old(store.signatures)
    ensures o in {UploadFailed, SaveFailed} || o.EditorRedirect?
    ensures o == UploadFailed ==>
            store.buckets == old(store.buckets) && store.documents == old(store.documents)
    ensures var key := DocumentKey(userId, now, pdf.name);
      || store.documents == old(store.documents)
      || (&& store.documents == old(store.documents) + [DocumentRowOf(DraftInsert(name, userId, key, updatedAt), given)]
          && "documents" in store.buckets && key in store.buckets["documents"].objects)
    ensures o.EditorRedirect? ==>
            |store.documents| == |old(store.documents)| + 1 && o.path == "/documents/" + given.id + "/edit"
    ensures old(store.DocumentsBacked()) ==> store.DocumentsBacked()
  {
    ghost var m, docs := store.buckets, store.documents;
    if DocumentsBackedBy(m, docs) {
      RecordedKeepsBacked(m, docs, userId, name, pdf, now, updatedAt, uploadReply, insertReply, given);
    }
    var key := DocumentKey(userId, now, pdf.name);
    var uploaded := store.Upload("documents", key, Blob(PdfMimeType, pdf.size), uploadReply);
    if uploaded != Done {
      return UploadFailed;
    }
    var inserted, data := store.InsertDocument(DraftInsert(name, userId, key, updatedAt), given, insertReply);
    if inserted != Done || data.None? {
      // an error, or a null row whose `id` cannot be read
      o := SaveFailed;
    } else {
      o := EditorRedirect("/documents/" + data.value.id + "/edit");
    }
  }

  class NewDocumentPage {
    var file: Option<File>
    var documentName: string
    var isUploading: bool

    constructor ()
      ensures file == None && documentName == "" && !isUploading
    {
      file := None;
      documentName := "";
      isUploading := false;
    }

    /** `handleFileChange`: only the first selected file counts; a non-PDF is
        refused and leaves the state as it was; an empty name takes the default. */
    method HandleFileChange(files: seq<File>) returns (o: FileChange)
      modifies this
      ensures isUploading == old(isUploading)
      ensures files == [] ==> o == NoFileChosen && file == old(file) && documentName == old(documentName)
      ensures files != [] && files[0].mimeType != PdfMimeType ==>
              o == NotPdf && file == old(file) && documentName == old(documentName)
      ensures files != [] && files[0].mimeType == PdfMimeType ==>
              && o == Chosen && file == Some(files[0])
              && documentName == if old(documentName) == "" then DefaultDocumentName(files[0].name)
                                 else old(documentName)
    {
      if files == [] {
        return NoFileChosen;
      }
      var selected := files[0];
      if selected.mimeType != PdfMimeType {
        return NotPdf;
      }
      if documentName == "" {
        documentName := DefaultDocumentName(selected.name);
      }
      file := Some(selected);
      o := Chosen;
    }

    /** `handleSubmit`: validate, look up the session, upload the PDF under its
        key, and only after a successful upload insert the `draft` row. The
        clock readings, the session and every backend reply are parameters. */
    method HandleSubmit(store: Store, session: SessionLookup, now: nat, updatedAt: Timestamp,
                        uploadReply: Reply, insertReply: Reply, given: StoreAssigned)
      returns (o: SubmitOutcome)
      modifies this, store
      ensures file == old(file) && documentName == old(documentName)
      ensures o == NeedFile <==> old(file).None?
      ensures o == NeedName <==> old(file).Some? && Blank(documentName)
      ensures o in {NeedFile, NeedName} ==> isUploading == old(isUploading)
      ensures o !in {NeedFile, NeedName} ==> !isUploading
      ensures o in {NeedFile, NeedName, LoginRedirect} || session.LookupThrows? ==>
              store.buckets == old(store.buckets) && store.documents == old(store.documents)
      ensures o !in {NeedFile, NeedName} && session.NoSession? ==> o == LoginRedirect
      ensures o == UploadFailed ==>
              store.buckets == old(store.buckets) && store.documents == old(store.documents)
      ensures store.signatures == old(store.signatures)
      ensures store.documents == old(store.documents)
              || (&& session.Session? && old(file).Some?
                  && var key := DocumentKey(session.userId, now, old(file).value.name);
                     && store.documents == old(store.documents) + [DocumentRowOf(DraftInsert(documentName, session.userId, key, updatedAt), given)]
                     && "documents" in store.buckets && key in store.buckets["documents"].objects)
      ensures o.EditorRedirect? ==>
              |store.documents| == |old(store.documents)| + 1 && o.path == "/documents/" + given.id + "/edit"
      ensures old(store.DocumentsBacked()) ==> store.DocumentsBacked()
      ensures old(file).Some? && !Blank(documentName) && session.Session? ==>
              (store.buckets, store.documents, o)
              == Recorded(old(store.buckets), old(store.documents), session.userId, documentName, old(file).value,
                          now, updatedAt, uploadReply, insertReply, given)
      ensures session.LookupThrows? && o !in {NeedFile, NeedName} ==> o == SaveFailed
    {
      if file.None? {
        return NeedFile;
      }
      TrimEmptyIffBlank(documentName);
      if Trim(documentName) == [] {
        return NeedName;
      }
      isUploading := true;
      match session {
        case LookupThrows =>
          o := SaveFailed;
        case NoSession =>
          o := LoginRedirect;
        case Session(userId) =>
          o := UploadAndRecord(store, userId, documentName, file.value, now, updatedAt, uploadReply, insertReply, given);
      }
      isUploading := false;
    }
  }
}
