/** The `Database` type of `src/lib/supabase.ts`: the rows of the four tables,
    the insert shapes the core uses, and the credential guard that runs before
    a browser client is built. */
module Schema {
  import opened Common

  /** Milliseconds since the epoch; the store's timestamp columns compare
      chronologically, which is all the core relies on. */
  type Timestamp = nat

  datatype DocumentStatus = Draft | Sent | Completed

  function StatusText(s: DocumentStatus): string
  {
    match s
    case Draft => "draft"
    case Sent => "sent"
    case Completed => "completed"
  }

  /** Reads a `status` column value; only the three declared literals are statuses. */
  function ParseStatus(t: string): (r: Option<DocumentStatus>)
    ensures r.Some? <==> t in {"draft", "sent", "completed"}
    ensures r.Some? ==> StatusText(r.value) == t
  {
    if t == "draft" then Some(Draft)
    else if t == "sent" then Some(Sent)
    else if t == "completed" then Some(Completed)
    else None
  }

  lemma StatusTextRoundTrip(s: DocumentStatus)
    ensures ParseStatus(StatusText(s)) == Some(s)
  {
  }

  datatype FieldType = SignatureField | TextField | DateField

  function FieldTypeText(f: FieldType): string
  {
    match f
    case SignatureField => "signature"
    case TextField => "text"
    case DateField => "date"
  }

  /** Reads a `field_type` column value. */
  function ParseFieldType(t: string): (r: Option<FieldType>)
    ensures r.Some? <==> t in {"signature", "text", "date"}
    ensures r.Some? ==> FieldTypeText(r.value) == t
  {
    if t == "signature" then Some(SignatureField)
    else if t == "text" then Some(TextField)
    else if t == "date" then Some(DateField)
    else None
  }

  datatype UserRow = UserRow(id: string, email: string, createdAt: Timestamp)

  datatype DocumentRow = DocumentRow(
    id: string, name: string, status: DocumentStatus, createdBy: string,
    createdAt: Timestamp, filePath: string, updatedAt: Timestamp)

  /** `documents.Insert`: `id`, `status`, `created_at` and `updated_at` may be left out. */
  datatype DocumentInsert = DocumentInsert(
    id: Option<string>, name: string, status: Option<DocumentStatus>, createdBy: string,
    createdAt: Option<Timestamp>, filePath: string, updatedAt: Option<Timestamp>)

  /** A `form_fields` row; positions and sizes are JavaScript numbers. */
  datatype FormFieldRow = FormFieldRow(
    id: string, documentId: string, fieldType: FieldType,
    xPosition: real, yPosition: real, width: real, height: real, page: int,
    assignedTo: Option<string>, createdAt: Timestamp)

  datatype SignatureRow = SignatureRow(
    id: string, userId: string, name: string, filePath: string,
    createdAt: Timestamp, isDefault: bool)

  /** `signatures.Insert`: `id`, `created_at` and `is_default` may be left out. */
  datatype SignatureInsert = SignatureInsert(
    id: Option<string>, userId: string, name: string, filePath: string,
    createdAt: Option<Timestamp>, isDefault: Option<bool>)

  /** What the store supplies for the columns an insert leaves out: a fresh id,
      the current time, and the column defaults of `status` and `is_default`. */
  datatype StoreAssigned = StoreAssigned(
    id: string, now: Timestamp, defaultStatus: DocumentStatus, defaultIsDefault: bool)

  function Or<T>(o: Option<T>, otherwise: T): T
  {
    if o.Some? then o.value else otherwise
  }

  /** Every column the insert supplies has that value in the row. */
  predicate DocumentRowMatches(row: DocumentRow, ins: DocumentInsert)
  {
    && (ins.id.Some? ==> row.id == ins.id.value)
    && row.name == ins.name
    && (ins.status.Some? ==> row.status == ins.status.value)
    && row.createdBy == ins.createdBy
    && (ins.createdAt.Some? ==> row.createdAt == ins.createdAt.value)
    && row.filePath == ins.filePath
    && (ins.updatedAt.Some? ==> row.updatedAt == ins.updatedAt.value)
  }

  predicate SignatureRowMatches(row: SignatureRow, ins: SignatureInsert)
  {
    && (ins.id.Some? ==> row.id == ins.id.value)
    && row.userId == ins.userId
    && row.name == ins.name
    && row.filePath == ins.filePath
    && (ins.createdAt.Some? ==> row.createdAt == ins.createdAt.value)
    && (ins.isDefault.Some? ==> row.isDefault == ins.isDefault.value)
  }

  /** The row the store keeps for an insert: supplied columns win, the rest are store-assigned. */
  function DocumentRowOf(ins: DocumentInsert, a: StoreAssigned): (row: DocumentRow)
    ensures DocumentRowMatches(row, ins)
    ensures ins.id.None? ==> row.id == a.id
    ensures ins.status.None? ==> row.status == a.defaultStatus
  {
    DocumentRow(Or(ins.id, a.id), ins.name, Or(ins.status, a.defaultStatus), ins.createdBy,
                Or(ins.createdAt, a.now), ins.filePath, Or(ins.updatedAt, a.now))
  }

  function SignatureRowOf(ins: SignatureInsert, a: StoreAssigned): (row: SignatureRow)
    ensures SignatureRowMatches(row, ins)
    ensures ins.id.None? ==> row.id == a.id
    ensures ins.isDefault.None? ==> row.isDefault == a.defaultIsDefault
  {
    SignatureRow(Or(ins.id, a.id), ins.userId, ins.name, ins.filePath,
                 Or(ins.createdAt, a.now), Or(ins.isDefault, a.defaultIsDefault))
  }

  /** The options `createSupabaseClient` passes along with the credentials. */
  datatype ClientConfig = ClientConfig(url: string, anonKey: string, persistSession: bool)

  datatype ClientResult = Client(config: ClientConfig) | ConfigError(message: string)

  /** `createSupabaseClient`: a missing or empty URL or anon key is falsy in
      JavaScript and makes the guard throw before any client exists. */
  function CreateSupabaseClient(url: Option<string>, anonKey: Option<string>): (r: ClientResult)
    ensures r.Client? <==> url.Some? && url.value != "" && anonKey.Some? && anonKey.value != ""
    ensures r.Client? ==> r.config == ClientConfig(url.value, anonKey.value, true)
    ensures r.ConfigError? ==> r.message == "Supabase URL and anon key must be defined"
  {
    if url.None? || url.value == "" || anonKey.None? || anonKey.value == "" then
      ConfigError("Supabase URL and anon key must be defined")
    else
      Client(ClientConfig(url.value, anonKey.value, true))
  }
}
