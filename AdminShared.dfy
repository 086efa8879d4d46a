/** What the two admin pages share: the upload status line, the snackbar,
    and the handling of a finished CSV parse, which replaces one
    collection wholesale with the rows that name a retailer. */
module AdminShared {
  import opened JsStrings
  import opened Seqs
  import opened Records
  import opened IdUtils
  import opened LogContext
  import opened DataContext

  /** What the CSV parser reports: its `complete` callback with the parsed
      rows and the list of parse errors, or its `error` callback. */
  datatype ParseResult = Completed(rows: seq<Record>, errors: seq<string>) | ReadFailed

  datatype Severity = NoSeverity | Success | Failure

  /** `uploadStatus`: a message and its type, both '' when cleared. */
  datatype UploadStatus = UploadStatus(message: string, kind: Severity)

  const ClearedStatus := UploadStatus("", NoSeverity)

  /** The snackbar: whether it is open, its message and its severity. */
  datatype Snackbar = Snackbar(open: bool, message: string, severity: Severity)

  const ClosedSnackbar := Snackbar(false, "", Success)

  const NoFileMessage := "Please select a CSV file to upload."
  const ParseErrorMessage := "Error parsing CSV. Check console for details."
  const NoValidRowsMessage := "CSV parsed, but no valid data rows found (missing RETAILER field or empty)."
  const ReadFailedMessage := "Failed to upload or parse file."

  function SuccessMessage(n: nat): string {
    "Successfully uploaded and processed " + NatToDecimal(n) + " rows."
  }

  /** The `message` of the upload's log entry. */
  function UploadLogMessage(ds: Dataset, n: nat): string {
    if ds == Products then "Uploaded " + NatToDecimal(n) + " product catalog items from CSV."
    else "Uploaded " + NatToDecimal(n) + " eCommerce items from CSV."
  }

  function CsvUploadAction(ds: Dataset): ActionType {
    if ds == Products then ProductCatalogCsvUpload else ECommerceCsvUpload
  }

  /** The message both entry forms show for a missing retailer. */
  const RetailerRequired := "Retailer Name is required."

  /** A one-entry error map when the field fails its test, none otherwise. */
  function FieldError(fails: bool, field: string, message: string): (e: map<string, string>)
    ensures field in e <==> fails
    ensures e.Keys <= {field}
    ensures fails ==> e[field] == message
  {
    if fails then map[field := message] else map[]
  }

  /** What a finished parse leads to: the status to show and, when the
      upload goes through, the rows (before they get ids) that replace the
      collection. */
  datatype Decision = Reject(status: UploadStatus) | Replace(rows: seq<Record>)

  /** A parse error aborts; otherwise the rows naming a retailer survive,
      and the upload is refused only when rows were read but none survived.
      A file with no rows at all empties the collection. */
  function Decide(result: ParseResult): (d: Decision)
    ensures result.ReadFailed? ==> d == Reject(UploadStatus(ReadFailedMessage, Failure))
    ensures result.Completed? && result.errors != [] ==> d == Reject(UploadStatus(ParseErrorMessage, Failure))
    ensures result.Completed? && result.errors == [] ==>
      (d.Reject? <==> result.rows != [] && forall i :: 0 <= i < |result.rows| ==> !HasRetailer(result.rows[i]))
    ensures d.Reject? ==> d.status.kind == Failure
    ensures d.Replace? ==> result.Completed? && d.rows == Filter(result.rows, HasRetailer)
  {
    match result
    case ReadFailed => Reject(UploadStatus(ReadFailedMessage, Failure))
    case Completed(rows, errors) =>
      if errors != [] then Reject(UploadStatus(ParseErrorMessage, Failure))
      else
        var kept := Filter(rows, HasRetailer);
        FilterEmptyIffNoneKept(rows, HasRetailer);
        if kept == [] && rows != [] then Reject(UploadStatus(NoValidRowsMessage, Failure))
        else Replace(kept)
  }

  /** An upload stores exactly the rows that name a retailer, in file order. */
  lemma UploadedRowsHaveRetailer(result: ParseResult)
    requires Decide(result).Replace?
    ensures forall r :: r in Decide(result).rows <==> r in result.rows && HasRetailer(r)
    ensures IsSubsequence(Decide(result).rows, result.rows)
  {
    FilterMembers(result.rows, HasRetailer);
    FilterIsSubsequence(result.rows, HasRetailer);
  }

  /** eCommerce uploads are stricter than eCommerce seeding: a row with no
      RETAILER but another non-blank field is kept when seeding and refused
      when uploaded. */
  lemma ECommerceUploadStricterThanSeeding()
    ensures var row := map["PRODUCT CATALOG" := "Active"];
      && Filter([row], ECommerceSeedValid) == [row]
      && Decide(Completed([row], [])) == Reject(UploadStatus(NoValidRowsMessage, Failure))
  {
    var row := map["PRODUCT CATALOG" := "Active"];
    SeedingTestsDiffer();
    assert [row][1..] == [];
    assert Filter([row], HasRetailer) == [];
  }

  /** The `complete` and `error` callbacks of an upload of `fileName` into
      collection `ds`. On success the surviving rows, each with a fresh
      `_id`, replace the collection and one `*_CSV_UPLOAD` entry is logged;
      otherwise nothing but the status changes. */
  method FinishUpload(store: DataProvider, ds: Dataset, fileName: string, result: ParseResult, stamp: Stamp)
    returns (status: UploadStatus)
    requires store.Valid() && store.log.FreshStamp(stamp)
    modifies store, store.gen, store.log
    ensures store.Valid()
    ensures !store.log.storageAccepts ==> store.log.slot == old(store.log.slot)
    ensures UniqueEntryIds(old(store.log.logEntries)) ==> UniqueEntryIds(store.log.logEntries)
    ensures store.Data(ds.Other()) == old(store.Data(ds.Other()))
    ensures Decide(result).Reject? ==>
      && status == Decide(result).status
      && store.Data(ds) == old(store.Data(ds))
      && store.log.logEntries == old(store.log.logEntries)
    ensures Decide(result).Replace? ==>
      && status == UploadStatus(SuccessMessage(|Decide(result).rows|), Success)
      && Rekeyed(Decide(result).rows, store.Data(ds))
      && IdsWithin(store.Data(ds), store.gen.Issued() - old(store.gen.Issued()))
      && store.log.logEntries == [NewEntry(stamp, CsvUploadAction(ds), None,
           CsvUploaded(UploadLogMessage(ds, |Decide(result).rows|), fileName))] + old(store.log.logEntries)
  {
    var decision := Decide(result);
    if decision.Reject? {
      status := decision.status;
      return;
    }
    var rows := AttachIds(store.gen, decision.rows);
    AttachedIdsKeepOthersKeyed(store, old(store.gen.Issued()));
    store.SetData(ds, rows);
    var n := |rows|;
    status := UploadStatus(SuccessMessage(n), Success);
    store.log.AddLogEntry(stamp, CsvUploadAction(ds), None, CsvUploaded(UploadLogMessage(ds, n), fileName));
  }

  /** Ids handed out later do not disturb the collections already keyed. */
  lemma AttachedIdsKeepOthersKeyed(store: DataProvider, before: set<string>)
    requires store.log.Valid()
    requires IdsWithin(store.productData, before) && DistinctIds(store.productData)
    requires IdsWithin(store.eCommerceData, before) && DistinctIds(store.eCommerceData)
    requires before <= store.gen.Issued()
    ensures store.Valid()
  {
  }
}
