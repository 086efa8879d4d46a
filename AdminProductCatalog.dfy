/** The product catalog admin page: CSV upload, the three-field entry form
    with its validation, and the add / edit / delete handlers that drive
    the product store. */
module AdminProductCatalog {
  import opened JsStrings
  import opened Records
  import opened IdUtils
  import opened LogContext
  import opened DataContext
  import opened AdminShared

  const ApprovalKey := "APPROVAL STATUS"
  const ApplicableKey := "APPLICABLE PRODUCTS"

  /** The fields of the product form. */
  const FormFields: set<string> := {RetailerKey, ApprovalKey, ApplicableKey}

  /** The empty form, holding every field. */
  const InitialForm: Record := map[RetailerKey := "", ApprovalKey := "", ApplicableKey := ""]

  lemma InitialFormFields()
    ensures InitialForm.Keys == FormFields
  {
  }

  const ApprovalRequired := "Approval Status is required."
  const ApplicableRequired := "Applicable Products is required."

  /** The three checks of the form: a blank retailer (one that trims to
      ''), no approval status chosen, missing or blank applicable products. */
  ghost predicate RetailerBlank(values: Record)
    requires RetailerKey in values
  {
    IsBlank(values[RetailerKey])
  }

  predicate ApprovalMissing(values: Record) {
    !Truthy(Get(values, ApprovalKey))
  }

  ghost predicate ApplicableBlank(values: Record) {
    ApplicableKey !in values || IsBlank(values[ApplicableKey])
  }

  /** The errors the form reports: one message per failed check, keyed by
      the field it concerns. */
  ghost function FormErrors(values: Record): map<string, string>
    requires RetailerKey in values
  {
    FieldError(RetailerBlank(values), RetailerKey, RetailerRequired)
      + FieldError(ApprovalMissing(values), ApprovalKey, ApprovalRequired)
      + FieldError(ApplicableBlank(values), ApplicableKey, ApplicableRequired)
  }

  /** `validateForm`: builds the error map check by check. The form always
      holds a RETAILER value; the source trims it without a guard. */
  method ValidateForm(values: Record) returns (errors: map<string, string>)
    requires RetailerKey in values
    ensures errors == FormErrors(values)
  {
    TrimEmptyIffBlank(values[RetailerKey]);
    if ApplicableKey in values {
      TrimEmptyIffBlank(values[ApplicableKey]);
    }
    errors := map[];
    if Trim(values[RetailerKey]) == "" {
      errors := errors[RetailerKey := RetailerRequired];
    }
    if !Truthy(Get(values, ApprovalKey)) {
      errors := errors[ApprovalKey := ApprovalRequired];
    }
    if !Truthy(Get(values, ApplicableKey)) || Trim(values[ApplicableKey]) == "" {
      errors := errors[ApplicableKey := ApplicableRequired];
    }
  }

  /** Each field carries an error exactly when its check fails, the error
      is that field's message, and no other key appears. */
  lemma FormErrorsPerField(values: Record)
    requires RetailerKey in values
    ensures FormErrors(values).Keys <= FormFields
    ensures RetailerKey in FormErrors(values) <==> IsBlank(values[RetailerKey])
    ensures ApprovalKey in FormErrors(values) <==> ApprovalKey !in values || values[ApprovalKey] == ""
    ensures ApplicableKey in FormErrors(values) <==> ApplicableKey !in values || IsBlank(values[ApplicableKey])
    ensures RetailerKey in FormErrors(values) ==> FormErrors(values)[RetailerKey] == RetailerRequired
    ensures ApprovalKey in FormErrors(values) ==> FormErrors(values)[ApprovalKey] == ApprovalRequired
    ensures ApplicableKey in FormErrors(values) ==> FormErrors(values)[ApplicableKey] == ApplicableRequired
  {
  }

  /** A form passes exactly when its retailer and applicable products are not
      blank and an approval status is chosen. */
  lemma FormErrorsEmptyIff(values: Record)
    requires RetailerKey in values
    ensures FormErrors(values) == map[] <==>
      && !IsBlank(values[RetailerKey])
      && ApprovalKey in values && values[ApprovalKey] != ""
      && ApplicableKey in values && !IsBlank(values[ApplicableKey])
  {
    FormErrorsPerField(values);
    if FormErrors(values) != map[] {
      var k :| k in FormErrors(values);
    }
  }

  /** Every product a valid form adds passes product seeding and the CSV
      retailer test. */
  lemma ValidFormHasRetailer(values: Record)
    requires RetailerKey in values && FormErrors(values) == map[]
    ensures HasRetailer(values) && ProductSeedValid(values)
  {
    assert RetailerKey !in FormErrors(values);
    HasRetailerIff(values);
  }

  /** The form fields taken from a product, a missing field becoming ''. */
  function EditValues(product: Record): (values: Record)
    ensures values.Keys == FormFields
    ensures forall k :: k in FormFields ==> values[k] == GetOr(product, k, "")
  {
    map[RetailerKey := GetOr(product, RetailerKey, ""), ApprovalKey := GetOr(product, ApprovalKey, ""),
        ApplicableKey := GetOr(product, ApplicableKey, "")]
  }

  class ProductCatalogPage {
    const store: DataProvider
    /** The chosen file, by name. */
    var csvFile: Option<string>
    var uploadStatus: UploadStatus
    var isModalOpen: bool
    var currentItemForEdit: Option<Record>
    var formValues: Record
    var formErrors: map<string, string>
    var snackbar: Snackbar
    /** The last browser alert shown. */
    var alert: Option<string>

    /** The form has every field. */
    predicate Valid()
      reads this
    {
      FormFields <= formValues.Keys
    }

    /** What saving `values` leaves behind, measured against the collection
        `data`, the ids `issued` and the log `log` from before: the item
        being edited, when it has an id, is updated with `values`, otherwise
        `values` is added under a fresh id; the log records it and the
        snackbar reports it. */
    ghost predicate Saved(item: Option<Record>, values: Record, stamp: Stamp, data: seq<Record>,
                          issued: set<string>, log: seq<LogEntry>)
      reads this, store, store.log
    {
      && (KnownItem(item) ==>
        var itemId := item.value[IdKey];
        && store.productData == Updated(data, itemId, values)
        && UpdateLogged(Products, data, itemId, values, stamp, log, store.log.logEntries)
        && snackbar == Snackbar(true, "Product item updated successfully.", Success))
      && (!KnownItem(item) ==>
        && AddLogged(Products, data, values, stamp, issued, store.productData, log, store.log.logEntries)
        && snackbar == Snackbar(true, "New product item added successfully.", Success))
    }

    constructor (store: DataProvider)
      requires store.Valid()
      ensures Valid() && this.store == store
      ensures csvFile == None && uploadStatus == ClearedStatus
      ensures !isModalOpen && currentItemForEdit == None
      ensures formValues == InitialForm && formErrors == map[]
      ensures snackbar == ClosedSnackbar && alert == None
    {
      this.store := store;
      csvFile := None;
      uploadStatus := ClearedStatus;
      isModalOpen := false;
      currentItemForEdit := None;
      formValues := InitialForm;
      formErrors := map[];
      snackbar := ClosedSnackbar;
      alert := None;
    }

    /** `handleFileChange`: the status is cleared and the choice recorded. */
    method HandleFileChange(file: Option<string>)
      modifies this`csvFile, this`uploadStatus
      ensures csvFile == file && uploadStatus == ClearedStatus
    {
      uploadStatus := ClearedStatus;
      csvFile := file;
    }

    /** `handleFileUpload`: with no file only the status changes; otherwise
        the parse's outcome replaces the products or is reported. */
    method HandleFileUpload(result: ParseResult, stamp: Stamp)
      requires Valid() && store.Valid() && store.log.FreshStamp(stamp)
      modifies this, store, store.gen, store.log
      ensures !store.log.storageAccepts ==> store.log.slot == old(store.log.slot)
      ensures UniqueEntryIds(old(store.log.logEntries)) ==> UniqueEntryIds(store.log.logEntries)
      ensures Valid() && store.Valid()
      ensures store.eCommerceData == old(store.eCommerceData)
      ensures formValues == old(formValues) && formErrors == old(formErrors) && isModalOpen == old(isModalOpen)
      ensures currentItemForEdit == old(currentItemForEdit) && snackbar == old(snackbar) && alert == old(alert)
      ensures old(csvFile).None? ==>
        && uploadStatus == UploadStatus(NoFileMessage, Failure)
        && csvFile == None
        && store.productData == old(store.productData)
        && store.log.logEntries == old(store.log.logEntries)
      ensures old(csvFile).Some? && Decide(result).Reject? ==>
        && uploadStatus == Decide(result).status
        && csvFile == old(csvFile)
        && store.productData == old(store.productData)
        && store.log.logEntries == old(store.log.logEntries)
      ensures old(csvFile).Some? && Decide(result).Replace? ==>
        && uploadStatus == UploadStatus(SuccessMessage(|Decide(result).rows|), Success)
        && csvFile == None
        && Rekeyed(Decide(result).rows, store.productData)
        && IdsWithin(store.productData, store.gen.Issued() - old(store.gen.Issued()))
        && store.log.logEntries == [NewEntry(stamp, ProductCatalogCsvUpload, None,
             CsvUploaded(UploadLogMessage(Products, |Decide(result).rows|), old(csvFile).value))] + old(store.log.logEntries)
    {
      if csvFile.None? {
        uploadStatus := UploadStatus(NoFileMessage, Failure);
        return;
      }
      uploadStatus := FinishUpload(store, Products, csvFile.value, result, stamp);
      if Decide(result).Replace? {
        csvFile := None;
      }
    }

    /** `handleModalClose`: the dialog closes and the form is reset. */
    method HandleModalClose()
      modifies this`isModalOpen, this`currentItemForEdit, this`formValues, this`formErrors
      ensures !isModalOpen && currentItemForEdit == None && formValues == InitialForm && formErrors == map[]
      ensures formValues.Keys == FormFields
    {
      InitialFormFields();
      isModalOpen := false;
      currentItemForEdit := None;
      formValues := InitialForm;
      formErrors := map[];
    }

    /** `handleFormInputChange`: sets the named field and clears that
        field's error, if it had one; no other field or error changes. */
    method HandleFormInputChange(name: string, value: string)
      requires Valid() && store.Valid()
      modifies this`formValues, this`formErrors
      ensures Valid() && store.Valid()
      ensures formValues == old(formValues)[name := value]
      ensures name !in formErrors || formErrors[name] == ""
      ensures forall k :: k != name ==> (k in formErrors <==> k in old(formErrors))
      ensures forall k :: k != name && k in formErrors ==> formErrors[k] == old(formErrors)[k]
      ensures name in old(formErrors) && old(formErrors)[name] == "" ==> formErrors == old(formErrors)
    {
      formValues := formValues[name := value];
      if Truthy(Get(formErrors, name)) {
        formErrors := formErrors - {name};
      }
    }

    /** `handleFormSubmit`: an invalid form only shows its errors; a valid
        one updates the product being edited (when it has an id) or adds a
        new one, then the dialog closes. */
    method HandleFormSubmit(stamp: Stamp)
      requires Valid() && store.Valid() && store.log.FreshStamp(stamp)
      modifies this, store, store.gen, store.log
      ensures !store.log.storageAccepts ==> store.log.slot == old(store.log.slot)
      ensures UniqueEntryIds(old(store.log.logEntries)) ==> UniqueEntryIds(store.log.logEntries)
      ensures Valid() && store.Valid()
      ensures store.eCommerceData == old(store.eCommerceData) && alert == old(alert) && csvFile == old(csvFile)
      ensures FormErrors(old(formValues)) != map[] ==>
        && formErrors == FormErrors(old(formValues))
        && formValues == old(formValues) && isModalOpen == old(isModalOpen)
        && currentItemForEdit == old(currentItemForEdit)
        && uploadStatus == old(uploadStatus) && snackbar == old(snackbar)
        && store.productData == old(store.productData)
        && store.log.logEntries == old(store.log.logEntries)
      ensures FormErrors(old(formValues)) == map[] ==>
        && formErrors == map[] && formValues == InitialForm
        && !isModalOpen && currentItemForEdit == None
        && uploadStatus == ClearedStatus
      ensures FormErrors(old(formValues)) == map[] ==>
        Saved(old(currentItemForEdit), old(formValues), stamp, old(store.productData), old(store.gen.Issued()),
          old(store.log.logEntries))
    {
      var errors := ValidateForm(formValues);
      if errors != map[] {
        formErrors := errors;
        return;
      }
      CommitForm(stamp);
    }

    /** The rest of `handleFormSubmit` once the form passed: errors and the
        upload status are cleared, the form is saved and the dialog closes. */
    method CommitForm(stamp: Stamp)
      requires Valid() && store.Valid() && store.log.FreshStamp(stamp)
      modifies this, store, store.gen, store.log
      ensures !store.log.storageAccepts ==> store.log.slot == old(store.log.slot)
      ensures UniqueEntryIds(old(store.log.logEntries)) ==> UniqueEntryIds(store.log.logEntries)
      ensures Valid() && store.Valid()
      ensures store.eCommerceData == old(store.eCommerceData) && alert == old(alert) && csvFile == old(csvFile)
      ensures formErrors == map[] && formValues == InitialForm
      ensures !isModalOpen && currentItemForEdit == None
      ensures uploadStatus == ClearedStatus
      ensures Saved(old(currentItemForEdit), old(formValues), stamp, old(store.productData), old(store.gen.Issued()),
        old(store.log.logEntries))
    {
      formErrors := map[];
      uploadStatus := ClearedStatus;
      var item, values := currentItemForEdit, formValues;
      HandleModalClose();
      SaveForm(item, values, stamp);
    }

    /** The store half of a valid submit, on the item and form values the
        handler saw: the item being edited is updated, or the form is added
        as a new product, and the snackbar reports which. */
    method SaveForm(item: Option<Record>, values: Record, stamp: Stamp)
      requires store.Valid() && store.log.FreshStamp(stamp)
      modifies this`snackbar, store, store.gen, store.log
      ensures !store.log.storageAccepts ==> store.log.slot == old(store.log.slot)
      ensures UniqueEntryIds(old(store.log.logEntries)) ==> UniqueEntryIds(store.log.logEntries)
      ensures store.Valid()
      ensures store.eCommerceData == old(store.eCommerceData)
      ensures Saved(item, values, stamp, old(store.productData), old(store.gen.Issued()), old(store.log.logEntries))
    {
      if KnownItem(item) {
        store.UpdateItem(Products, item.value[IdKey], values, stamp);
        snackbar := Snackbar(true, "Product item updated successfully.", Success);
      } else {
        var id := store.AddItem(Products, values, stamp);
        snackbar := Snackbar(true, "New product item added successfully.", Success);
      }
    }

    /** `handleAddProduct`: an empty form in an open dialog, editing nothing. */
    method HandleAddProduct()
      modifies this`isModalOpen, this`currentItemForEdit, this`formValues, this`formErrors
      ensures isModalOpen && currentItemForEdit == None && formValues == InitialForm && formErrors == map[]
    {
      currentItemForEdit := None;
      formValues := InitialForm;
      formErrors := map[];
      isModalOpen := true;
    }

    /** `handleEditProduct`: the dialog opens on the product's three fields. */
    method HandleEditProduct(product: Record)
      modifies this`isModalOpen, this`currentItemForEdit, this`formValues, this`formErrors
      ensures isModalOpen && currentItemForEdit == Some(product) && formErrors == map[]
      ensures formValues == EditValues(product)
    {
      currentItemForEdit := Some(product);
      formValues := EditValues(product);
      formErrors := map[];
      isModalOpen := true;
    }

    /** The snackbar's close handler: it closes and keeps its message. */
    method CloseSnackbar()
      modifies this`snackbar
      ensures snackbar == old(snackbar).(open := false)
    {
      snackbar := snackbar.(open := false);
    }

    /** `handleDeleteProduct`: a product without an id raises an alert; one
        with an id is deleted only when the user confirms. */
    method HandleDeleteProduct(product: Option<Record>, confirmed: bool, stamp: Stamp)
      requires Valid() && store.Valid() && store.log.FreshStamp(stamp)
      modifies this`snackbar, this`alert, store, store.log
      ensures !store.log.storageAccepts ==> store.log.slot == old(store.log.slot)
      ensures UniqueEntryIds(old(store.log.logEntries)) ==> UniqueEntryIds(store.log.logEntries)
      ensures Valid() && store.Valid()
      ensures store.eCommerceData == old(store.eCommerceData)
      ensures !KnownItem(product) ==>
        && alert == Some("Could not delete item: ID is missing.") && snackbar == old(snackbar)
        && store.productData == old(store.productData)
        && store.log.logEntries == old(store.log.logEntries)
      ensures KnownItem(product) && !confirmed ==>
        && alert == old(alert) && snackbar == old(snackbar)
        && store.productData == old(store.productData)
        && store.log.logEntries == old(store.log.logEntries)
      ensures KnownItem(product) && confirmed ==>
        && alert == old(alert)
        && store.productData == Deleted(old(store.productData), product.value[IdKey])
        && DeleteLogged(Products, old(store.productData), product.value[IdKey], stamp,
             old(store.log.logEntries), store.log.logEntries)
        && snackbar == Snackbar(true, "Item deleted successfully.", Success)
    {
      if KnownItem(product) {
        if confirmed {
          store.DeleteItem(Products, product.value[IdKey], stamp);
          snackbar := Snackbar(true, "Item deleted successfully.", Success);
        }
      } else {
        alert := Some("Could not delete item: ID is missing.");
      }
    }
  }
}
