/**
  Operation records, and the payloads by which the file store writes records and snapshots down and reads them back.
 */
module StorePayloads {
  import opened Wrappers
  import opened RuntimeModels

  datatype OperationState = OpAccepted | OpRunning | OpSucceeded | OpFailed | OpCancelled

  datatype OperationReceipt = OperationReceipt(
    operationId: string, domain: RuntimeDomain, submittedAt: string, accepted: bool, diagnostics: seq<Diagnostic>)

  datatype OperationStatus = OperationStatus(
    operationId: string, domain: RuntimeDomain, state: OperationState, submittedAt: string, updatedAt: string,
    diagnostics: seq<Diagnostic>, changedAddresses: seq<string>)

  datatype OperationRecord = OperationRecord(
    receipt: OperationReceipt, status: OperationStatus, requestFingerprint: string, idempotencyKey: string)

  // ------------------------------------------------------------------- payloads

  datatype Field =
    | EntriesField | WorkflowResultsField | WorkflowHistoryField | EvaluationResultsField | EvaluationHistoryField
    | EpisodeResultsField | EpisodeHistoryField | MetadataField
    | AddressField | DomainField | ResourceTypeField | PayloadField | OrderingField | RefreshField | StatusField
    | CodeField | SeverityField
    | ReceiptField | OperationIdField | SubmittedAtField | AcceptedField | DiagnosticsField
    | StateField | UpdatedAtField | ChangedField | FingerprintField | KeyField

  /** What is plain data in memory already and is written as it is. */
  datatype Plain =
    | WorkflowResults(workflowResults: map<string, WorkflowState>)
    | WorkflowHistory(workflowHistory: map<string, seq<WorkflowEvent>>)
    | EvaluationResults(evaluationResults: map<string, EvaluationState>)
    | EvaluationHistory(evaluationHistory: map<string, seq<EvaluationEvent>>)
    | EpisodeResults(episodeResults: map<string, EpisodeState>)
    | EpisodeHistory(episodeHistory: map<string, seq<EpisodeEvent>>)
    | Metadata(metadata: map<string, string>)
    | Payload(payload: EntryPayload)
    | Type(resourceType: ResourceType)
    | Code(code: DiagnosticCode)
    | Addresses(addresses: seq<string>)

  /** Objects come with fixed fields or with addresses for keys. */
  datatype Json =
    | JText(text: string)
    | JFlag(flag: bool)
    | JList(items: seq<Json>)
    | JRecord(fields: map<Field, Json>)
    | JTable(rows: map<string, Json>)
    | JPlain(value: Plain)

  function TextAt(fields: map<Field, Json>, f: Field, default: string): string {
    if f in fields && fields[f].JText? then fields[f].text else default
  }

  function AddressesAt(fields: map<Field, Json>, f: Field): seq<string> {
    if f in fields && fields[f].JPlain? && fields[f].value.Addresses? then fields[f].value.addresses else []
  }

  // --------------------------------------------------------------- vocabularies

  function DomainText(domain: RuntimeDomain): string {
    match domain
    case Provisioning => "provisioning"
    case Orchestration => "orchestration"
    case Evaluation => "evaluation"
    case Participant => "participant"
  }

  function DomainOf(text: string): Option<RuntimeDomain> {
    if text == "provisioning" then Some(Provisioning)
    else if text == "orchestration" then Some(Orchestration)
    else if text == "evaluation" then Some(Evaluation)
    else if text == "participant" then Some(Participant)
    else None
  }

  function StateText(state: OperationState): string {
    match state
    case OpAccepted => "accepted"
    case OpRunning => "running"
    case OpSucceeded => "succeeded"
    case OpFailed => "failed"
    case OpCancelled => "cancelled"
  }

  function StateOf(text: string): Option<OperationState> {
    if text == "accepted" then Some(OpAccepted)
    else if text == "running" then Some(OpRunning)
    else if text == "succeeded" then Some(OpSucceeded)
    else if text == "failed" then Some(OpFailed)
    else if text == "cancelled" then Some(OpCancelled)
    else None
  }

  function SeverityText(severity: Severity): string {
    match severity
    case Error => "error"
    case Warning => "warning"
    case Info => "info"
  }

  function SeverityOf(text: string): Option<Severity> {
    if text == "error" then Some(Error) else if text == "warning" then Some(Warning)
    else if text == "info" then Some(Info) else None
  }

  lemma VocabulariesRoundTrip(domain: RuntimeDomain, state: OperationState, severity: Severity)
    ensures DomainOf(DomainText(domain)) == Some(domain)
    ensures StateOf(StateText(state)) == Some(state)
    ensures SeverityOf(SeverityText(severity)) == Some(severity)
  {
  }

  // ---------------------------------------------------------------- diagnostics

  function DiagnosticPayload(d: Diagnostic): Json {
    JRecord(map[CodeField := JPlain(Code(d.code)), AddressField := JText(d.address),
        SeverityField := JText(SeverityText(d.severity))])
  }

  function DiagnosticsPayload(ds: seq<Diagnostic>): seq<Json> {
    if ds == [] then [] else [DiagnosticPayload(ds[0])] + DiagnosticsPayload(ds[1..])
  }

  function DiagnosticFrom(j: Json): Outcome<Diagnostic> {
    if !j.JRecord? then Raised
    else
      var severity := SeverityOf(TextAt(j.fields, SeverityField, "error"));
      if severity.None? then Raised
      else
        var code := if CodeField in j.fields && j.fields[CodeField].JPlain? && j.fields[CodeField].value.Code?
                    then j.fields[CodeField].value.code else Foreign("runtime.control-plane");
        Returned(Diagnostic(code, TextAt(j.fields, AddressField, "runtime.control-plane"), severity.value))
  }

  function DiagnosticsFrom(items: seq<Json>): Outcome<seq<Diagnostic>> {
    if items == [] then Returned([])
    else
      var first, rest := DiagnosticFrom(items[0]), DiagnosticsFrom(items[1..]);
      if first.Raised? || rest.Raised? then Raised else Returned([first.value] + rest.value)
  }

  lemma DiagnosticRoundTrip(d: Diagnostic)
    ensures DiagnosticFrom(DiagnosticPayload(d)) == Returned(d)
  {
  }

  lemma {:induction false} DiagnosticsRoundTrip(ds: seq<Diagnostic>)
    ensures DiagnosticsFrom(DiagnosticsPayload(ds)) == Returned(ds)
  {
    if ds != [] {
      DiagnosticRoundTrip(ds[0]);
      DiagnosticsRoundTrip(ds[1..]);
      assert ds == [ds[0]] + ds[1..];
    }
  }

  // -------------------------------------------------------------------- records

  function ReceiptPayload(r: OperationReceipt): Json {
    JRecord(map[OperationIdField := JText(r.operationId), DomainField := JText(DomainText(r.domain)),
                SubmittedAtField := JText(r.submittedAt), AcceptedField := JFlag(r.accepted),
                DiagnosticsField := JList(DiagnosticsPayload(r.diagnostics))])
  }

  function StatusPayload(s: OperationStatus): Json {
    JRecord(map[OperationIdField := JText(s.operationId), DomainField := JText(DomainText(s.domain)),
                StateField := JText(StateText(s.state)), SubmittedAtField := JText(s.submittedAt),
                UpdatedAtField := JText(s.updatedAt),
                DiagnosticsField := JList(DiagnosticsPayload(s.diagnostics)),
                ChangedField := JPlain(Addresses(s.changedAddresses))])
  }

  function RecordPayload(r: OperationRecord): Json {
    JRecord(map[ReceiptField := ReceiptPayload(r.receipt), StatusField := StatusPayload(r.status),
                FingerprintField := JText(r.requestFingerprint), KeyField := JText(r.idempotencyKey)])
  }

  function ItemsAt(fields: map<Field, Json>, f: Field): seq<Json> {
    if f in fields && fields[f].JList? then fields[f].items else []
  }

  function FieldsAt(fields: map<Field, Json>, f: Field): map<Field, Json> {
    if f in fields && fields[f].JRecord? then fields[f].fields else map[]
  }

  function ReceiptFrom(fields: map<Field, Json>): Outcome<OperationReceipt> {
    var domain := DomainOf(TextAt(fields, DomainField, "provisioning"));
    var diagnostics := DiagnosticsFrom(ItemsAt(fields, DiagnosticsField));
    if domain.None? || diagnostics.Raised? then Raised
    else
      Returned(OperationReceipt(
        TextAt(fields, OperationIdField, ""), domain.value, TextAt(fields, SubmittedAtField, ""),
        AcceptedField in fields && fields[AcceptedField].JFlag? && fields[AcceptedField].flag, diagnostics.value))
  }

  function StatusFrom(fields: map<Field, Json>): Outcome<OperationStatus> {
    var domain := DomainOf(TextAt(fields, DomainField, "provisioning"));
    var state := StateOf(TextAt(fields, StateField, "accepted"));
    var diagnostics := DiagnosticsFrom(ItemsAt(fields, DiagnosticsField));
    if domain.None? || state.None? || diagnostics.Raised? then Raised
    else
      Returned(OperationStatus(
        TextAt(fields, OperationIdField, ""), domain.value, state.value, TextAt(fields, SubmittedAtField, ""),
        TextAt(fields, UpdatedAtField, ""), diagnostics.value, AddressesAt(fields, ChangedField)))
  }

  function RecordFrom(fields: map<Field, Json>): Outcome<OperationRecord> {
    var receipt, status := ReceiptFrom(FieldsAt(fields, ReceiptField)), StatusFrom(FieldsAt(fields, StatusField));
    if receipt.Raised? || status.Raised? then Raised
    else Returned(OperationRecord(receipt.value, status.value, TextAt(fields, FingerprintField, ""),
        TextAt(fields, KeyField, "")))
  }

  /** The payload of the records file; rows that are no objects are passed over. */
  function RecordsPayload(records: map<string, OperationRecord>): Json {
    JTable(map id | id in records :: RecordPayload(records[id]))
  }

  function RecordsFrom(j: Json): Outcome<map<string, OperationRecord>> {
    if !j.JTable? then Raised
    else if exists id :: id in j.rows && j.rows[id].JRecord? && RecordFrom(j.rows[id].fields).Raised? then Raised
    else Returned(map id | id in j.rows && j.rows[id].JRecord? :: RecordFrom(j.rows[id].fields).value)
  }

  lemma ReceiptRoundTrip(r: OperationReceipt)
    ensures ReceiptFrom(ReceiptPayload(r).fields) == Returned(r)
  {
    hide DomainText, DomainOf, DiagnosticsFrom, DiagnosticsPayload;
    VocabulariesRoundTrip(r.domain, OpAccepted, Error);
    DiagnosticsRoundTrip(r.diagnostics);
  }

  lemma StatusRoundTrip(s: OperationStatus)
    ensures StatusFrom(StatusPayload(s).fields) == Returned(s)
  {
    hide DomainText, DomainOf, StateText, StateOf, DiagnosticsFrom, DiagnosticsPayload;
    VocabulariesRoundTrip(s.domain, s.state, Error);
    DiagnosticsRoundTrip(s.diagnostics);
  }

  lemma RecordRoundTrip(r: OperationRecord)
    ensures RecordFrom(RecordPayload(r).fields) == Returned(r)
  {
    hide ReceiptFrom, StatusFrom;
    ReceiptRoundTrip(r.receipt);
    StatusRoundTrip(r.status);
  }

  /** What the file store writes for its records it reads back unchanged. */
  lemma RecordsRoundTrip(records: map<string, OperationRecord>)
    ensures RecordsFrom(RecordsPayload(records)) == Returned(records)
  {
    hide RecordFrom;
    var rows := RecordsPayload(records).rows;
    forall id | id in rows ensures rows[id].JRecord? && RecordFrom(rows[id].fields) == Returned(records[id]) {
      RecordRoundTrip(records[id]);
    }
    assert RecordsFrom(RecordsPayload(records)).Returned?;
    assert RecordsFrom(RecordsPayload(records)).value == records;
  }

  // ------------------------------------------------------------------ snapshots

  function EntryPayloadOf(e: SnapshotEntry): Json {
    JRecord(map[AddressField := JText(e.address), DomainField := JText(DomainText(e.domain)),
                ResourceTypeField := JPlain(Type(e.resourceType)), PayloadField := JPlain(Payload(e.payload)),
                OrderingField := JPlain(Addresses(e.orderingDependencies)),
                RefreshField := JPlain(Addresses(e.refreshDependencies)),
                StatusField := JText(e.status)])
  }

  function EntryFrom(address: string, fields: map<Field, Json>): Outcome<SnapshotEntry> {
    var domain := DomainOf(TextAt(fields, DomainField, "provisioning"));
    if domain.None? || !(ResourceTypeField in fields && fields[ResourceTypeField].JPlain?
        && fields[ResourceTypeField].value.Type?) then Raised
    else
      var payload := if PayloadField in fields && fields[PayloadField].JPlain? && fields[PayloadField].value.Payload?
                     then fields[PayloadField].value.payload else OtherPayload("");
      Returned(SnapshotEntry(
        TextAt(fields, AddressField, address), domain.value, fields[ResourceTypeField].value.resourceType, payload,
        AddressesAt(fields, OrderingField), AddressesAt(fields, RefreshField), TextAt(fields, StatusField, "ready")))
  }

  function EntriesPayload(entries: map<string, SnapshotEntry>): Json {
    JTable(map a | a in entries :: EntryPayloadOf(entries[a]))
  }

  function EntriesFrom(rows: map<string, Json>): Outcome<map<string, SnapshotEntry>> {
    if exists a :: a in rows && rows[a].JRecord? && EntryFrom(a, rows[a].fields).Raised? then Raised
    else Returned(map a | a in rows && rows[a].JRecord? :: EntryFrom(a, rows[a].fields).value)
  }

  function SnapshotPayload(s: RuntimeSnapshot): Json {
    JRecord(map[
      EntriesField := EntriesPayload(s.entries),
      WorkflowResultsField := JPlain(WorkflowResults(s.orchestrationResults)),
      WorkflowHistoryField := JPlain(WorkflowHistory(s.orchestrationHistory)),
      EvaluationResultsField := JPlain(EvaluationResults(s.evaluationResults)),
      EvaluationHistoryField := JPlain(EvaluationHistory(s.evaluationHistory)),
      EpisodeResultsField := JPlain(EpisodeResults(s.participantResults)),
      EpisodeHistoryField := JPlain(EpisodeHistory(s.participantHistory)),
      MetadataField := JPlain(Metadata(s.metadata))])
  }

  function PlainAt(fields: map<Field, Json>, f: Field): Option<Plain> {
    if f in fields && fields[f].JPlain? then Some(fields[f].value) else None
  }

  /** A part that is missing reads as empty. */
  function SnapshotFrom(j: Json): Outcome<RuntimeSnapshot> {
    if !j.JRecord? then Raised
    else
      var f := j.fields;
      var entries := EntriesFrom(if EntriesField in f && f[EntriesField].JTable? then f[EntriesField].rows else map[]);
      if entries.Raised? then Raised
      else
        var wr, wh := PlainAt(f, WorkflowResultsField), PlainAt(f, WorkflowHistoryField);
        var er, eh := PlainAt(f, EvaluationResultsField), PlainAt(f, EvaluationHistoryField);
        var pr, ph := PlainAt(f, EpisodeResultsField), PlainAt(f, EpisodeHistoryField);
        var metadata := PlainAt(f, MetadataField);
        Returned(RuntimeSnapshot(
          entries.value,
          if wr.Some? && wr.value.WorkflowResults? then wr.value.workflowResults else map[],
          if wh.Some? && wh.value.WorkflowHistory? then wh.value.workflowHistory else map[],
          if er.Some? && er.value.EvaluationResults? then er.value.evaluationResults else map[],
          if eh.Some? && eh.value.EvaluationHistory? then eh.value.evaluationHistory else map[],
          if pr.Some? && pr.value.EpisodeResults? then pr.value.episodeResults else map[],
          if ph.Some? && ph.value.EpisodeHistory? then ph.value.episodeHistory else map[],
          if metadata.Some? && metadata.value.Metadata? then metadata.value.metadata else map[]))
  }

  lemma EntryRoundTrip(address: string, e: SnapshotEntry)
    ensures EntryFrom(address, EntryPayloadOf(e).fields) == Returned(e)
  {
  }

  lemma EntriesRoundTrip(entries: map<string, SnapshotEntry>)
    ensures EntriesFrom(EntriesPayload(entries).rows) == Returned(entries)
  {
    hide EntryFrom;
    var rows := EntriesPayload(entries).rows;
    forall a | a in rows ensures rows[a].JRecord? && EntryFrom(a, rows[a].fields) == Returned(entries[a]) {
      EntryRoundTrip(a, entries[a]);
    }
    assert EntriesFrom(rows).Returned?;
    assert EntriesFrom(rows).value == entries;
  }

  /** What the file store writes for a snapshot it reads back unchanged. */
  lemma SnapshotRoundTrip(s: RuntimeSnapshot)
    ensures SnapshotFrom(SnapshotPayload(s)) == Returned(s)
  {
    hide EntriesFrom;
    EntriesRoundTrip(s.entries);
  }
}
