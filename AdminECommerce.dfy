/** The eCommerce admin page: CSV upload, the four-field entry form with its
    status validation, and the add / edit / delete handlers that drive the
    eCommerce store. */
module AdminECommerce {
  import opened JsStrings
  import opened Records
  import opened IdUtils
  import opened LogContext
  import opened DataContext
  import opened ECommerceEntryFormModal
  import opened AdminShared

  const ProductCatalogKey := "PRODUCT CATALOG"
  const DirectToCartKey := "DIRECT TO CART SUPPORT"
  const OfferingKey := "SUPPORTED PRODUCT OFFERING"

  /** The fields of the eCommerce form. */
  const FormFields: set<string> := {RetailerKey, ProductCatalogKey, DirectToCartKey, OfferingKey}

  /** The empty form, holding every field. */
  const InitialForm: Record :=
    map[RetailerKey := "", ProductCatalogKey := "", DirectToCartKey := "", OfferingKey := ""]

  lemma InitialFormFields()
    ensures InitialForm.Keys == FormFields
  {
  }

  /** The two fields chosen with a status select. */
  predicate IsStatusField(name: string) {
    name == ProductCatalogKey || name == DirectToCartKey
  }

  const ProductCatalogRequired := "Product Catalog Status is required."
  const DirectToCartRequired := "Direct to Cart Support Status is required."
  const SpecifyOther := "Please specify the status if \"Other\" is selected."

  /** The suffix of the error key of a status field's free-text input. */
  const CustomSuffix := "_custom"

  /** A RETAILER that is missing or trims to ''. */
  ghost predicate RetailerBlank(values: Record) {
    RetailerKey !in values || IsBlank(values[RetailerKey])
  }

  /** The error of one status field: 'required' when it is empty, 'please
      specify' when it still reads 'Other', none otherwise. */
  function StatusError(values: Record, field: string, required: string): (e: map<string, string>)
    ensures e.Keys <= {field}
    ensures field in e <==> !Truthy(Get(values, field)) || values[field] == OtherOption
    ensures !Truthy(Get(values, field)) ==> e == map[field := required]
    ensures Get(values, field) == Some(OtherOption) ==> e == map[field := SpecifyOther]
  {
    if !Truthy(Get(values, field)) then map[field := required]
    else if values[field] == OtherOption then map[field := SpecifyOther]
    else map[]
  }

  /** The errors the form reports: at most one message per checked field;
      SUPPORTED PRODUCT OFFERING is never checked. */
  ghost function FormErrors(values: Record): map<string, string> {
    FieldError(RetailerBlank(values), RetailerKey, RetailerRequired)
      + StatusError(values, ProductCatalogKey, ProductCatalogRequired)
      + StatusError(values, DirectToCartKey, DirectToCartRequired)
  }

  /** `validateECommerceForm`: builds the error map check by check; the
      'Other' check, when it applies, replaces nothing, since an 'Other'
      value is not empty. */
  method ValidateForm(values: Record) returns (errors: map<string, string>)
    ensures errors == FormErrors(values)
  {
    if RetailerKey in values {
      TrimEmptyIffBlank(values[RetailerKey]);
    }
    errors := map[];
    if RetailerKey !in values || Trim(values[RetailerKey]) == "" {
      errors := errors[RetailerKey := RetailerRequired];
    }
    assert errors == FieldError(RetailerBlank(values), RetailerKey, RetailerRequired);
    if !Truthy(Get(values, ProductCatalogKey)) {
      errors := errors[ProductCatalogKey := ProductCatalogRequired];
    }
    if Get(values, ProductCatalogKey) == Some(OtherOption) {
      errors := errors[ProductCatalogKey := SpecifyOther];
    }
    assert errors == FieldError(RetailerBlank(values), RetailerKey, RetailerRequired)
      + StatusError(values, ProductCatalogKey, ProductCatalogRequired);
    if !Truthy(Get(values, DirectToCartKey)) {
      errors := errors[DirectToCartKey := DirectToCartRequired];
    }
    if Get(values, DirectToCartKey) == Some(OtherOption) {
      errors := errors[DirectToCartKey := SpecifyOther];
    }
  }

  /** Which fields carry an error, and which message each one carries. */
  lemma FormErrorsPerField(values: Record)
    ensures FormErrors(values).Keys <= {RetailerKey, ProductCatalogKey, DirectToCartKey}
    ensures OfferingKey !in FormErrors(values)
    ensures RetailerKey in FormErrors(values) <==> RetailerBlank(values)
    ensures RetailerKey in FormErrors(values) ==> FormErrors(values)[RetailerKey] == RetailerRequired
    ensures ProductCatalogKey in FormErrors(values) <==> !Truthy(Get(values, ProductCatalogKey)) || values[ProductCatalogKey] == OtherOption
    ensures !Truthy(Get(values, ProductCatalogKey)) ==> FormErrors(values)[ProductCatalogKey] == ProductCatalogRequired
    ensures Get(values, ProductCatalogKey) == Some(OtherOption) ==> FormErrors(values)[ProductCatalogKey] == SpecifyOther
    ensures DirectToCartKey in FormErrors(values) <==> !Truthy(Get(values, DirectToCartKey)) || values[DirectToCartKey] == OtherOption
    ensures !Truthy(Get(values, DirectToCartKey)) ==> FormErrors(values)[DirectToCartKey] == DirectToCartRequired
    ensures Get(values, DirectToCartKey) == Some(OtherOption) ==> FormErrors(values)[DirectToCartKey] == SpecifyOther
  {
  }

  /** A form passes exactly when the retailer is not blank and both statuses
      are chosen and are not the bare 'Other'. */
  lemma FormErrorsEmptyIff(values: Record)
    ensures FormErrors(values) == map[] <==>
      && !RetailerBlank(values)
      && Truthy(Get(values, ProductCatalogKey)) && values[ProductCatalogKey] != OtherOption
      && Truthy(Get(values, DirectToCartKey)) && values[DirectToCartKey] != OtherOption
  {
    FormErrorsPerField(values);
    if FormErrors(values) != map[] {
      var k :| k in FormErrors(values);
    }
  }

  /** A form that passes adds a record the CSV upload would also accept and
      eCommerce seeding would keep. */
  lemma ValidFormHasRetailer(values: Record)
    requires FormErrors(values) == map[]
    ensures HasRetailer(values) && ECommerceSeedValid(values)
  {
    assert RetailerKey !in FormErrors(values);
    HasRetailerIff(values);
    RetailerRowsPassECommerceSeeding(values);
  }

  /** In a form that passes, each status appears in the dialog: its select
      shows it, and it is either a common option or the text that the
      free-text field displays. */
  lemma ValidStatusesShowInDialog(values: Record, field: string)
    requires FormErrors(values) == map[] && IsStatusField(field)
    ensures field in values && SelectValue(Get(values, field)) == values[field]
    ensures values[field] in CommonStatusOptions || CustomFieldDisplay(Get(values, field)) == Some(values[field])
  {
    FormErrorsEmptyIff(values);
  }

  /** Validation never reports an error under a `<field>_custom` key, so the
      extra clearing in `handleFormInputChange` never finds one. */
  lemma CustomErrorsNeverRaised(values: Record, field: string)
    ensures field + CustomSuffix !in FormErrors(values)
  {
    FormErrorsPerField(values);
    var k := field + CustomSuffix;
    assert k[|k| - 1] == 'm';
  }

  /** The error keys an edit of `name` clears, judged on the errors the
      handler saw: the field's own, and for a status field also its
      free-text field's, each only when it held a message. */
  function ClearedBy(name: string, errors: map<string, string>): (c: set<string>)
    ensures c <= {name, name + CustomSuffix}
    ensures name in c <==> Truthy(Get(errors, name))
    ensures name + CustomSuffix in c <==> IsStatusField(name) && Truthy(Get(errors, name + CustomSuffix))
  {
    (if Truthy(Get(errors, name)) then {name} else {})
      + (if IsStatusField(name) && Truthy(Get(errors, name + CustomSuffix)) then {name + CustomSuffix} else {})
  }

  /** On the errors validation produces, an edit clears at most the edited
      field's error. */
  lemma ClearedByValidationErrors(values: Record, name: string)
    ensures ClearedBy(name, FormErrors(values)) <= {name}
  {
    CustomErrorsNeverRaised(values, name);
  }

  /** The form fields taken from a record, a missing field becoming ''. */
  function EditValues(item: Record): (values: Record)
    ensures values.Keys == FormFields
    ensures forall k :: k in FormFields ==> values[k] == GetOr(item, k, "")
  {
    map[RetailerKey := GetOr(item, RetailerKey, ""), ProductCatalogKey := GetOr(item, ProductCatalogKey, ""),
        DirectToCartKey := GetOr(item, DirectToCartKey, ""), OfferingKey := GetOr(item, OfferingKey, "")]
  }

  class ECommercePage {
    const store: DataProvider
    /** The chosen file, by name. */
    var csvFile: Option<string>
    var uploadStatus: UploadStatus
    var isModalOpen: bool
    var currentItemForEdit: Option<Record>
    var formValues: Record
    var formErrors: map<string, string>
    var snackbar: Snackbar

    /** The form has every field. */
    predicate Valid()
      reads this
    {
      FormFields <= formValues.Keys
    }

    /** What saving `values` leaves behind, measured against the collection
        `data`, the ids `issued` and the log `log` from before: the item
        being edited, when it has an id, is updated with `values`, otherwise
        `values` is added under a fresh id; the log records it and the
        snackbar reports it. */
    ghost predicate Saved(item: Option<Record>, values: Record, stamp: Stamp, data: seq<Record>,
                          issued: set<string>, log: seq<LogEntry>)
      reads this, store, store.log
    {
      && (KnownItem(item) ==>
        var itemId := item.value[IdKey];
        && store.eCommerceData == Updated(data, itemId, values)
        && UpdateLogged(ECommerce, data, itemId, values, stamp, log, store.log.logEntries)
        && snackbar == Snackbar(true, "eCommerce item updated successfully.", Success))
      && (!KnownItem(item) ==>
        && AddLogged(ECommerce, data, values, stamp, issued, store.eCommerceData, log, store.log.logEntries)
        && snackbar == Snackbar(true, "New eCommerce item added successfully.", Success))
    }

    constructor (store: DataProvider)
      requires store.Valid()
      ensures Valid() && this.store == store
      ensures csvFile == None && uploadStatus == ClearedStatus
      ensures !isModalOpen && currentItemForEdit == None
      ensures formValues == InitialForm && formErrors == map[]
      ensures snackbar == ClosedSnackbar
    {
      this.store := store;
      csvFile := None;
      uploadStatus := ClearedStatus;
      isModalOpen := false;
      currentItemForEdit := None;
      formValues := InitialForm;
      formErrors := map[];
      snackbar := ClosedSnackbar;
    }

    /** `handleFileChange`: the status is cleared and the choice recorded. */
    method HandleFileChange(file: Option<string>)
      modifies this`csvFile, this`uploadStatus
      ensures csvFile == file && uploadStatus == ClearedStatus
    {
      uploadStatus := ClearedStatus;
      csvFile := file;
    }

    /** `handleFileUpload`: with no file only the status changes; otherwise
        the parse's outcome replaces the eCommerce rows or is reported. */
    method HandleFileUpload(result: ParseResult, stamp: Stamp)
      requires Valid() && store.Valid() && store.log.FreshStamp(stamp)
      modifies this, store, store.gen, store.log
      ensures !store.log.storageAccepts ==> store.log.slot == old(store.log.slot)
      ensures UniqueEntryIds(old(store.log.logEntries)) ==> UniqueEntryIds(store.log.logEntries)
      ensures Valid() && store.Valid()
      ensures store.productData == old(store.productData)
      ensures formValues == old(formValues) && formErrors == old(formErrors) && isModalOpen == old(isModalOpen)
      ensures currentItemForEdit == old(currentItemForEdit) && snackbar == old(snackbar)
      ensures old(csvFile).None? ==>
        && uploadStatus == UploadStatus(NoFileMessage, Failure)
        && csvFile == None
        && store.eCommerceData == old(store.eCommerceData)
        && store.log.logEntries == old(store.log.logEntries)
      ensures old(csvFile).Some? && Decide(result).Reject? ==>
        && uploadStatus == Decide(result).status
        && csvFile == old(csvFile)
        && store.eCommerceData == old(store.eCommerceData)
        && store.log.logEntries == old(store.log.logEntries)
      ensures old(csvFile).Some? && Decide(result).Replace? ==>
        && uploadStatus == UploadStatus(SuccessMessage(|Decide(result).rows|), Success)
        && csvFile == None
        && Rekeyed(Decide(result).rows, store.eCommerceData)
        && IdsWithin(store.eCommerceData, store.gen.Issued() - old(store.gen.Issued()))
        && store.log.logEntries == [NewEntry(stamp, ECommerceCsvUpload, None,
             CsvUploaded(UploadLogMessage(ECommerce, |Decide(result).rows|), old(csvFile).value))] + old(store.log.logEntries)
    {
      if csvFile.None? {
        uploadStatus := UploadStatus(NoFileMessage, Failure);
        return;
      }
      uploadStatus := FinishUpload(store, ECommerce, csvFile.value, result, stamp);
      if Decide(result).Replace? {
        csvFile := None;
      }
    }

    /** `handleModalClose`: the dialog closes and the form is reset. */
    method HandleModalClose()
      modifies this`isModalOpen, this`currentItemForEdit, this`formValues, this`formErrors
      ensures !isModalOpen && currentItemForEdit == None && formValues == InitialForm && formErrors == map[]
      ensures formValues.Keys == FormFields
    {
      InitialFormFields();
      isModalOpen := false;
      currentItemForEdit := None;
      formValues := InitialForm;
      formErrors := map[];
    }

    /** `handleFormInputChange`: sets the named field and clears the errors
        `ClearedBy` names; no other field or error changes. */
    method HandleFormInputChange(name: string, value: string)
      requires Valid()
      modifies this`formValues, this`formErrors
      ensures Valid()
      ensures formValues == old(formValues)[name := value]
      ensures formErrors == old(formErrors) - ClearedBy(name, old(formErrors))
    {
      var seen := formErrors;
      formValues := formValues[name := value];
      if Truthy(Get(seen, name)) {
        formErrors := formErrors - {name};
      }
      if IsStatusField(name) && Truthy(Get(seen, name + CustomSuffix)) {
        formErrors := formErrors - {name + CustomSuffix};
      }
    }

    /** `handleFormSubmit`: an invalid form only shows its errors; a valid
        one updates the item being edited (when it has an id) or adds a new
        one, then the dialog closes. */
    method HandleFormSubmit(stamp: Stamp)
      requires Valid() && store.Valid() && store.log.FreshStamp(stamp)
      modifies this, store, store.gen, store.log
      ensures !store.log.storageAccepts ==> store.log.slot == old(store.log.slot)
      ensures UniqueEntryIds(old(store.log.logEntries)) ==> UniqueEntryIds(store.log.logEntries)
      ensures Valid() && store.Valid()
      ensures store.productData == old(store.productData) && csvFile == old(csvFile)
      ensures FormErrors(old(formValues)) != map[] ==>
        && formErrors == FormErrors(old(formValues))
        && formValues == old(formValues) && isModalOpen == old(isModalOpen)
        && currentItemForEdit == old(currentItemForEdit)
        && uploadStatus == old(uploadStatus) && snackbar == old(snackbar)
        && store.eCommerceData == old(store.eCommerceData)
        && store.log.logEntries == old(store.log.logEntries)
      ensures FormErrors(old(formValues)) == map[] ==>
        && formErrors == map[] && formValues == InitialForm
        && !isModalOpen && currentItemForEdit == None
        && uploadStatus == ClearedStatus
      ensures FormErrors(old(formValues)) == map[] ==>
        Saved(old(currentItemForEdit), old(formValues), stamp, old(store.eCommerceData), old(store.gen.Issued()),
          old(store.log.logEntries))
    {
      var errors := ValidateForm(formValues);
      if errors != map[] {
        formErrors := errors;
        return;
      }
      CommitForm(stamp);
    }

    /** The rest of `handleFormSubmit` once the form passed: errors and the
        upload status are cleared, the form is saved and the dialog closes. */
    method CommitForm(stamp: Stamp)
      requires Valid() && store.Valid() && store.log.FreshStamp(stamp)
      modifies this, store, store.gen, store.log
      ensures !store.log.storageAccepts ==> store.log.slot == old(store.log.slot)
      ensures UniqueEntryIds(old(store.log.logEntries)) ==> UniqueEntryIds(store.log.logEntries)
      ensures Valid() && store.Valid()
      ensures store.productData == old(store.productData) && csvFile == old(csvFile)
      ensures formErrors == map[] && formValues == InitialForm
      ensures !isModalOpen && currentItemForEdit == None
      ensures uploadStatus == ClearedStatus
      ensures Saved(old(currentItemForEdit), old(formValues), stamp, old(store.eCommerceData), old(store.gen.Issued()),
        old(store.log.logEntries))
    {
      formErrors := map[];
      uploadStatus := ClearedStatus;
      var item, values := currentItemForEdit, formValues;
      HandleModalClose();
      SaveForm(item, values, stamp);
    }

    /** The store half of a valid submit, on the item and form values the
        handler saw: the item being edited is updated, or the form is added
        as a new eCommerce item, and the snackbar reports which. */
    method SaveForm(item: Option<Record>, values: Record, stamp: Stamp)
      requires store.Valid() && store.log.FreshStamp(stamp)
      modifies this`snackbar, store, store.gen, store.log
      ensures !store.log.storageAccepts ==> store.log.slot == old(store.log.slot)
      ensures UniqueEntryIds(old(store.log.logEntries)) ==> UniqueEntryIds(store.log.logEntries)
      ensures store.Valid()
      ensures store.productData == old(store.productData)
      ensures Saved(item, values, stamp, old(store.eCommerceData), old(store.gen.Issued()), old(store.log.logEntries))
    {
      if KnownItem(item) {
        store.UpdateItem(ECommerce, item.value[IdKey], values, stamp);
        snackbar := Snackbar(true, "eCommerce item updated successfully.", Success);
      } else {
        var id := store.AddItem(ECommerce, values, stamp);
        snackbar := Snackbar(true, "New eCommerce item added successfully.", Success);
      }
    }

    /** `handleAddECommerce`: an empty form in an open dialog, editing nothing. */
    method HandleAddECommerce()
      modifies this`isModalOpen, this`currentItemForEdit, this`formValues, this`formErrors
      ensures isModalOpen && currentItemForEdit == None && formValues == InitialForm && formErrors == map[]
    {
      currentItemForEdit := None;
      formValues := InitialForm;
      formErrors := map[];
      isModalOpen := true;
    }

    /** `handleEditECommerce`: the dialog opens on the item's four fields. */
    method HandleEditECommerce(item: Record)
      modifies this`isModalOpen, this`currentItemForEdit, this`formValues, this`formErrors
      ensures isModalOpen && currentItemForEdit == Some(item) && formErrors == map[]
      ensures formValues == EditValues(item)
    {
      currentItemForEdit := Some(item);
      formValues := EditValues(item);
      formErrors := map[];
      isModalOpen := true;
    }

    /** The snackbar's close handler: it closes and keeps its message. */
    method CloseSnackbar()
      modifies this`snackbar
      ensures snackbar == old(snackbar).(open := false)
    {
      snackbar := snackbar.(open := false);
    }

    /** `handleDeleteECommerce`: an item without an id raises an error
        snackbar; one with an id is deleted only when the user confirms. */
    method HandleDeleteECommerce(item: Option<Record>, confirmed: bool, stamp: Stamp)
      requires store.Valid() && store.log.FreshStamp(stamp)
      modifies this`snackbar, store, store.log
      ensures !store.log.storageAccepts ==> store.log.slot == old(store.log.slot)
      ensures UniqueEntryIds(old(store.log.logEntries)) ==> UniqueEntryIds(store.log.logEntries)
      ensures store.Valid()
      ensures store.productData == old(store.productData)
      ensures !KnownItem(item) ==>
        && snackbar == Snackbar(true, "Could not delete item: ID is missing.", Failure)
        && store.eCommerceData == old(store.eCommerceData)
        && store.log.logEntries == old(store.log.logEntries)
      ensures KnownItem(item) && !confirmed ==>
        && snackbar == old(snackbar)
        && store.eCommerceData == old(store.eCommerceData)
        && store.log.logEntries == old(store.log.logEntries)
      ensures KnownItem(item) && confirmed ==>
        && store.eCommerceData == Deleted(old(store.eCommerceData), item.value[IdKey])
        && DeleteLogged(ECommerce, old(store.eCommerceData), item.value[IdKey], stamp,
             old(store.log.logEntries), store.log.logEntries)
        && snackbar == Snackbar(true, "eCommerce item deleted successfully.", Success)
    {
      if KnownItem(item) {
        if confirmed {
          store.DeleteItem(ECommerce, item.value[IdKey], stamp);
          snackbar := Snackbar(true, "eCommerce item deleted successfully.", Success);
        }
      } else {
        snackbar := Snackbar(true, "Could not delete item: ID is missing.", Failure);
      }
    }
  }
}
