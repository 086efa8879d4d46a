# Catalog and retailer status dashboard — a Dafny model of its core

The dashboard keeps two ordered collections of records, one for the
product catalog and one for the eCommerce feed. It lets an administrator:

- seed the collections from bundled rows;
- replace a collection from an uploaded CSV file;
- add, edit and delete single records through a form dialog;
- review an audit log of every change, kept most recent first and mirrored to browser storage.

A public table shows each collection, with a coloured status dot, a status filter for products, and paging.

This project models that core:

- **Stores.** `DataContext` models the record stores and their seeding.
- **Log.** `LogContext` models the audit log and its storage slot.
- **Table.** `DataTable` models the colour rule, the eCommerce status mapping, the filter, paging, the table state and the eCommerce columns.
- **Dialog.** `ECommerceEntryFormModal` models the eCommerce dialog's option list, its free-text status field and its title.
- **Admin pages.** `AdminShared`, `AdminProductCatalog` and `AdminECommerce` model the CSV completion logic, the form validators and the state handlers of the two admin pages.
- **Support modules.** `JsStrings`, `Seqs`, `Records` and `IdUtils` hold the JavaScript string and array operations the code relies on. They also hold the record representation and a fresh-id generator.

Where the code changes state, the model is a class:

- the stores are `DataContext.DataProvider`;
- the log is `LogContext.LogProvider`;
- the table's paging and filter state is `DataTable.TableState`;
- each admin page is a class whose fields mirror its React state.

Each state-changing method is proved against specification functions: `Updated`, `Deleted`, `Decide` and `FormErrors`. The lemmas state what those functions promise.

## Model

| member | source | states |
|---|---|---|
| JsStrings.TrimEmptyIffBlank | src/context/DataContext.jsx:18 | `s.trim()` is `''` exactly when every character of `s` is whitespace |
| JsStrings.TrimShape | src/context/DataContext.jsx:18 | trim keeps the slice of `s` between a leading and a trailing run of whitespace, and that slice neither starts nor ends with whitespace |
| Records.HasRetailerIff | src/context/DataContext.jsx:18 | a row passes the RETAILER test exactly when it has a RETAILER with a non-whitespace character |
| IdUtils.RowIdGenerator.Generate | src/context/DataContext.jsx:29 | each generated id was never handed out before, and the issued set grows by exactly that id |
| IdUtils.AttachIds | src/context/DataContext.jsx:19 | every row keeps all its fields and gets an `_id` that overrides any it had; the ids are pairwise distinct and all newly issued |
| IdUtils.AppendFreshId | src/context/DataContext.jsx:30 | appending a record whose id is unused keeps the ids of a collection distinct |
| LogContext.NewEntry | src/context/LogContext.jsx:36-43 | a new entry carries the given action type, item id and details, with the supplied time and entry id |
| LogContext.NewEntryDefaults | src/context/LogContext.jsx:35 | without an item id or details, an entry gets null and `{}` |
| LogContext.Loaded | src/context/LogContext.jsx:13-24 | a stored log is loaded as is; a missing slot, a failed read and unparsable text all leave the log empty |
| LogContext.LogProvider.constructor | src/context/LogContext.jsx:13-33 | mounting loads the slot and then writes the loaded log back when storage accepts writes |
| LogContext.LogProvider.Save | src/context/LogContext.jsx:27-33 | after saving, the slot mirrors the log; a rejected write leaves the slot as it was |
| LogContext.FreshEntryKeepsIdsUnique | src/context/LogContext.jsx:42 | an entry whose id is new to a log of distinct ids keeps every id in the log distinct |
| LogContext.EntryIdsOfHead | src/context/LogContext.jsx:44 | putting an entry at the head adds exactly its id to the log's ids |
| LogContext.LogProvider.AddLogEntry | src/context/LogContext.jsx:35-45 | given an entry id the log does not yet hold, the log becomes the new entry followed by the old log unchanged and in order, its ids stay distinct if they were, and the slot mirrors it (a rejected write leaves the slot as it was) |
| LogContext.LogProvider.ClearLogEntries | src/context/LogContext.jsx:47-50 | the log becomes empty and the slot holds an empty log |
| LogContext.ClearThenReload | src/context/LogContext.jsx:13-33 | clearing and then mounting again from the slot left behind starts from an empty log |
| LogContext.SaveThenReload | src/context/LogContext.jsx:13-33 | mounting again from a slot the log was saved to gives back the same log |
| DataContext.RetailerRowsPassECommerceSeeding | src/context/DataContext.jsx:23 | a row with a usable RETAILER also passes the eCommerce seeding test |
| DataContext.SeedingTestsDiffer | src/context/DataContext.jsx:17-25 | a row without a RETAILER but with another non-blank field is kept by eCommerce seeding and dropped by product seeding |
| DataContext.DataProvider.constructor | src/context/DataContext.jsx:16-26 | each collection is seeded with exactly the bundled rows that pass its test, in order, each with a fresh `_id`, and the log is untouched |
| DataContext.DataProvider.SetData | src/context/DataContext.jsx:105-106 | replacing one collection wholesale leaves the other collection as it was and keeps the stores well keyed |
| DataContext.Merged | src/context/DataContext.jsx:40 | the merged record has the patch's fields, then the old record's remaining fields, and `_id` set back to the item id |
| DataContext.UpdateTraversal | src/context/DataContext.jsx:36-45 | the mapping loop yields the updated collection and captures the record it replaced, which is none exactly when no record has the id |
| DataContext.DeleteTraversal | src/context/DataContext.jsx:53-59 | the filtering loop yields the collection without the id and captures the record it dropped, which is none exactly when no record has the id |
| DataContext.UpdatedKeepsIds | src/context/DataContext.jsx:37-43 | an update keeps every record's `_id`, so distinct issued ids stay distinct and issued |
| DataContext.UpdateMissingIsNoOp | src/context/DataContext.jsx:36-45 | updating an id that no record carries leaves the collection unchanged |
| DataContext.UpdateChangesOneRecord | src/context/DataContext.jsx:37-43 | with distinct ids, exactly the record with the id changes, into its old fields overridden by the patch with `_id` kept |
| DataContext.DeletedKeepsOthersInOrder | src/context/DataContext.jsx:53-59 | delete keeps exactly the records without the id, as an order-preserving subsequence |
| DataContext.DeleteMissingIsNoOp | src/context/DataContext.jsx:53-59 | deleting an id that no record carries leaves the collection unchanged |
| DataContext.DeleteRemovesOne | src/context/DataContext.jsx:53-59 | with distinct ids, deleting a present id removes that one record and shortens the collection by one |
| DataContext.DeleteTwiceIsNoOp | src/context/DataContext.jsx:53-62 | after a delete no record has the id, so a second delete changes nothing and, by `DeleteItem`, logs nothing |
| DataContext.DeletedKeepsIds | src/context/DataContext.jsx:53-59 | the survivors of a delete keep distinct issued ids |
| DataContext.UpdateRetailer | src/context/DataContext.jsx:47 | the update log's RETAILER is the patch's when it is truthy, else the old record's |
| DataContext.DataProvider.AddItem | src/context/DataContext.jsx:28-32 | the input record with a fresh `_id` is appended, earlier records and the other collection are unchanged, and one add entry with that id heads the log; the log's ids stay distinct and a rejected storage write leaves the slot as it was |
| DataContext.DataProvider.UpdateItem | src/context/DataContext.jsx:34-49 | the collection becomes `Updated` of the old one; one update entry with the patch and the replaced record is logged exactly when the id was found; otherwise collection, log and slot are unchanged; the log's ids stay distinct and a rejected storage write leaves the slot as it was |
| DataContext.DataProvider.DeleteItem | src/context/DataContext.jsx:51-63 | the collection becomes `Deleted` of the old one, one record shorter when the id was found; one delete entry with the removed record is logged exactly then; otherwise nothing changes; the log's ids stay distinct and a rejected storage write leaves the slot as it was |
| DataTable.DotColour | src/components/DataTable.jsx:11-23 | red exactly on a red keyword; orange exactly on "pending" without one; green exactly on "approved" or "active" without either; grey otherwise |
| DataTable.MissingStatusIsGrey | src/components/DataTable.jsx:11 | an absent or empty status has a grey dot |
| DataTable.DotColourIgnoresCase | src/components/DataTable.jsx:11 | the colour does not depend on letter case |
| DataTable.NotApprovedIsRed | src/components/DataTable.jsx:15-16 | "Not Approved" holds a green keyword yet is red: red takes precedence |
| DataTable.ECommerceStatus | src/components/DataTable.jsx:65-80 | the step-by-step status is the priority order pending, then negative, then positive, else unknown, so the last matching rule wins |
| DataTable.MappedStatusColours | src/components/DataTable.jsx:85 | the four mapped statuses show green, red, orange and grey |
| DataTable.OfflineAndDeactivatedShowGrey | src/components/DataTable.jsx:75-77 | as written, an "Offline" or "Deactivated" cell maps to "unknown" and shows grey, although the same text has a red dot |
| DataTable.IntendedStatusMatchesDot | src/components/DataTable.jsx:71-85 | with the corrected grouping, a cell's dot has the colour its raw value would have, unless the value is both red and pending |
| DataTable.ECommerceCellDot | src/components/DataTable.jsx:66-91 | only the product catalog and direct to cart columns get a dot; on the lower-cased text it is orange exactly when it holds "pending", otherwise red exactly when it holds "not active", "not approved" or "not available", otherwise green exactly when it holds "active" or "approved", and grey for anything else, "offline" and "deactivated" included |
| DataTable.ECommerceCellDotIntended | src/components/DataTable.jsx:66-91 | the corrected cell: only the two status columns get a dot; orange exactly for "pending", otherwise red exactly for any red keyword of the dot ("offline" and "deactivated" included), otherwise green for the positive words, grey for anything else |
| DataTable.OfflineCellDots | src/components/DataTable.jsx:75-91 | an "Offline" or "Deactivated" status cell is grey as written and red once corrected |
| DataTable.IntendedCellMatchesRawDot | src/components/DataTable.jsx:66-91 | with the corrected grouping, a status cell shows the colour of its raw text unless that text is both red and pending |
| DataTable.FilteredData | src/components/DataTable.jsx:112-123 | with filter 'all' or on an eCommerce table the rows come back unchanged, and filtering never adds rows |
| DataTable.FilteredDataMembers | src/components/DataTable.jsx:114-120 | the filtered rows are exactly the rows whose status passes the filter, as an order-preserving subsequence |
| DataTable.UnknownFilterKeepsNothing | src/components/DataTable.jsx:119 | a filter value other than the four offered keeps nothing |
| DataTable.FilterAgreesWithDots | src/components/DataTable.jsx:116-117 | every row the 'deactivated' filter keeps has a red dot, and the 'approved' filter also keeps a red "Not Approved" row |
| DataTable.PageRows | src/components/DataTable.jsx:171-172 | a page has at most `rowsPerPage` rows, the rows from `page * rowsPerPage` on in order, and is non-empty while rows remain |
| DataTable.PagesArePrefix | src/components/DataTable.jsx:172 | the first n pages together are exactly the first `n * rowsPerPage` rows, with no overlap and no gap |
| DataTable.PagesCoverRows | src/components/DataTable.jsx:172 | enough pages show every filtered row exactly once, in order |
| DataTable.ColumnLabelShape | src/components/DataTable.jsx:62 | a label has its key's length and no underscore, every word starts with a character that is not a lower-case letter, and it differs from the spaced key only in letter case: a character where `\b\w` matches is upper-cased and every other character is the spaced key's own |
| DataTable.ColumnLabelIdempotent | src/components/DataTable.jsx:62 | relabelling a label changes nothing |
| DataTable.ECommerceColumns | src/components/DataTable.jsx:54-60 | an empty table has no eCommerce columns |
| DataTable.ECommerceColumnsIds | src/components/DataTable.jsx:58-62 | the column ids are the first row's non-empty keys in key order, and each header is its key's label |
| DataTable.Columns | src/components/DataTable.jsx:33-96 | a product table shows the columns RETAILER, APPROVAL STATUS and APPLICABLE PRODUCTS headed "Retailer Name", "Approval Status" and "Applicable Product"; an eCommerce table shows none while empty, otherwise one column per non-empty key of its first row, in key order, each headed by its key's label |
| DataTable.TableState.constructor | src/components/DataTable.jsx:29-31 | a table starts on page 0 with 20 rows per page and filter 'all' |
| DataTable.TableState.ChangePage | src/components/DataTable.jsx:98-100 | changing page sets the page and keeps the rest |
| DataTable.TableState.ChangeRowsPerPage | src/components/DataTable.jsx:102-105 | changing the page size goes back to page 0 and keeps the filter |
| DataTable.TableState.ChangeStatusFilter | src/components/DataTable.jsx:107-110 | changing the filter goes back to page 0 and keeps the page size |
| DataTable.TableState.VisibleRows | src/components/DataTable.jsx:171-172 | the body shows no rows without columns; otherwise it shows the filtered rows from `page * rowsPerPage` up to one page further or the end, and none once the page starts past the end |
| DataTable.ColumnsGateVisibleRows | src/components/DataTable.jsx:126-172 | with the column count the table really has, a product table's body is the current page of its filtered rows and an empty eCommerce table shows no rows |
| DataTable.TableState.RowCount | src/components/DataTable.jsx:194 | the pager counts the filtered rows: at most every row, and every row of an eCommerce table or under the "all" filter |
| ECommerceEntryFormModal.SelectOptionsExactly | src/components/admin/ECommerceEntryFormModal.jsx:70-76 | each select offers exactly the six common statuses and 'Other', each once |
| ECommerceEntryFormModal.ShowsCustomFieldIff | src/components/admin/ECommerceEntryFormModal.jsx:81 | the free-text field shows exactly for a non-empty value outside the common options, 'Other' included |
| ECommerceEntryFormModal.CustomFieldForOtherOnly | src/components/admin/ECommerceEntryFormModal.jsx:120 | of the values the select offers, only 'Other' opens the free-text field |
| ECommerceEntryFormModal.CustomFieldDisplay | src/components/admin/ECommerceEntryFormModal.jsx:90 | the free-text field shows '' exactly for 'Other', otherwise the current value, which then is none of the select's options |
| ECommerceEntryFormModal.SelectValue | src/components/admin/ECommerceEntryFormModal.jsx:65 | a select shows the field's value, or '' when it is missing or empty |
| ECommerceEntryFormModal.DialogTitle | src/components/admin/ECommerceEntryFormModal.jsx:28 | the title is "Edit … Entry" for an item with an id and "Add New … Entry" otherwise |
| ECommerceEntryFormModal.SubmitButtonText | src/components/admin/ECommerceEntryFormModal.jsx:29 | the button reads "Save Changes" exactly for an item with an id, "Add Entry" exactly otherwise |
| ECommerceEntryFormModal.TitleAgreesWithButton | src/components/admin/ECommerceEntryFormModal.jsx:28-29 | the title starts with "Edit" exactly when the button reads "Save Changes" |
| AdminShared.Decide | src/pages/admin/AdminProductCatalog.jsx:52-80 | read failures and parse errors are rejected; otherwise the upload is refused exactly when rows were read and none names a retailer, and it keeps only the rows that name one |
| AdminShared.UploadedRowsHaveRetailer | src/pages/admin/AdminProductCatalog.jsx:59 | an accepted upload keeps exactly the rows naming a retailer, in file order |
| AdminShared.ECommerceUploadStricterThanSeeding | src/pages/admin/AdminECommerce.jsx:63 | a row that eCommerce seeding keeps can be refused by an eCommerce upload |
| AdminShared.FinishUpload | src/pages/admin/AdminProductCatalog.jsx:52-81 | a rejected parse changes only the status; an accepted one replaces the collection by the kept rows with fresh ids and logs one upload entry with a null item id and the row count, leaving the other collection alone; the log's ids stay distinct and a rejected storage write leaves the slot as it was |
| AdminProductCatalog.InitialFormFields | src/pages/admin/AdminProductCatalog.jsx:11-15 | the empty form holds exactly the three product fields |
| AdminProductCatalog.ValidateForm | src/pages/admin/AdminProductCatalog.jsx:107-120 | the error map built check by check equals `FormErrors` of the form |
| AdminProductCatalog.FormErrorsPerField | src/pages/admin/AdminProductCatalog.jsx:107-120 | RETAILER errs exactly when blank, APPROVAL STATUS exactly when empty, APPLICABLE PRODUCTS exactly when missing or blank, each with its message, and no other key |
| AdminProductCatalog.FormErrorsEmptyIff | src/pages/admin/AdminProductCatalog.jsx:107-120 | a form passes exactly when retailer and applicable products are not blank and an approval status is chosen |
| AdminProductCatalog.ValidFormHasRetailer | src/pages/admin/AdminProductCatalog.jsx:109-111 | a product added from a valid form passes product seeding and the CSV retailer test |
| AdminProductCatalog.EditValues | src/pages/admin/AdminProductCatalog.jsx:159-163 | the edit form holds exactly the three fields, each the product's value or '' |
| AdminProductCatalog.ProductCatalogPage.constructor | src/pages/admin/AdminProductCatalog.jsx:20-32 | the page starts with no file, a cleared status, a closed dialog on the empty form, no errors and a closed snackbar |
| AdminProductCatalog.ProductCatalogPage.HandleFileChange | src/pages/admin/AdminProductCatalog.jsx:34-41 | choosing a file clears the status and records the choice |
| AdminProductCatalog.ProductCatalogPage.HandleFileUpload | src/pages/admin/AdminProductCatalog.jsx:43-82 | without a file only the status changes; otherwise the products are replaced or not as `Decide` says, only the products and the log change, and the file choice is cleared only on success; the log's ids stay distinct and a rejected storage write leaves the slot as it was |
| AdminProductCatalog.ProductCatalogPage.HandleModalClose | src/pages/admin/AdminProductCatalog.jsx:85-90 | closing the dialog resets the form to the empty form, edits nothing and clears the errors |
| AdminProductCatalog.ProductCatalogPage.HandleFormInputChange | src/pages/admin/AdminProductCatalog.jsx:92-105 | only the named field changes, and only that field's error is cleared, when it held a message |
| AdminProductCatalog.ProductCatalogPage.HandleFormSubmit | src/pages/admin/AdminProductCatalog.jsx:122-145 | an invalid form only shows its errors and touches no store; a valid one updates the edited product when it has an id, else adds the form, logs it, reports it and resets the dialog; the log's ids stay distinct and a rejected storage write leaves the slot as it was |
| AdminProductCatalog.ProductCatalogPage.CommitForm | src/pages/admin/AdminProductCatalog.jsx:128-144 | a valid submit clears errors and status, saves the values the handler saw and closes the dialog; the log's ids stay distinct and a rejected storage write leaves the slot as it was |
| AdminProductCatalog.ProductCatalogPage.SaveForm | src/pages/admin/AdminProductCatalog.jsx:131-143 | saving updates the product with an id or adds a new one under a fresh id, logs it and reports it in the snackbar; the log's ids stay distinct and a rejected storage write leaves the slot as it was |
| AdminProductCatalog.ProductCatalogPage.HandleAddProduct | src/pages/admin/AdminProductCatalog.jsx:148-154 | the dialog opens on the empty form, editing nothing |
| AdminProductCatalog.ProductCatalogPage.HandleEditProduct | src/pages/admin/AdminProductCatalog.jsx:156-168 | the dialog opens on the product's three fields with no errors |
| AdminProductCatalog.ProductCatalogPage.CloseSnackbar | src/pages/admin/AdminProductCatalog.jsx:259 | the snackbar closes and keeps its message |
| AdminProductCatalog.ProductCatalogPage.HandleDeleteProduct | src/pages/admin/AdminProductCatalog.jsx:170-183 | a product without an id raises an alert and changes no store; one with an id is deleted and logged only when confirmed; the log's ids stay distinct and a rejected storage write leaves the slot as it was |
| AdminECommerce.InitialFormFields | src/pages/admin/AdminECommerce.jsx:11-16 | the empty form holds exactly the four eCommerce fields |
| AdminECommerce.StatusError | src/pages/admin/AdminECommerce.jsx:123-128 | a status field errs exactly when it is empty or reads 'Other', with the 'required' or the 'please specify' message |
| AdminECommerce.ValidateForm | src/pages/admin/AdminECommerce.jsx:112-138 | the error map built check by check equals `FormErrors` of the form |
| AdminECommerce.FormErrorsPerField | src/pages/admin/AdminECommerce.jsx:112-138 | RETAILER errs exactly when missing or blank; each status field errs exactly when empty or 'Other', with its message; SUPPORTED PRODUCT OFFERING never errs |
| AdminECommerce.FormErrorsEmptyIff | src/pages/admin/AdminECommerce.jsx:112-138 | a form passes exactly when the retailer is not blank and both statuses are chosen and are not 'Other' |
| AdminECommerce.ValidFormHasRetailer | src/pages/admin/AdminECommerce.jsx:120-122 | an item added from a valid form passes the CSV retailer test and eCommerce seeding |
| AdminECommerce.ValidStatusesShowInDialog | src/pages/admin/AdminECommerce.jsx:123-135 | in a valid form each status shows in its select and is a common option or the free-text field's text |
| AdminECommerce.CustomErrorsNeverRaised | src/pages/admin/AdminECommerce.jsx:105-109 | validation never produces a `<field>_custom` error, so that extra clearing never finds one |
| AdminECommerce.ClearedBy | src/pages/admin/AdminECommerce.jsx:99-109 | an edit clears the field's own error and, for a status field, its free-text error, each exactly when it held a message |
| AdminECommerce.ClearedByValidationErrors | src/pages/admin/AdminECommerce.jsx:105-109 | on errors from validation, an edit clears at most the edited field's error |
| AdminECommerce.EditValues | src/pages/admin/AdminECommerce.jsx:172-177 | the edit form holds exactly the four fields, each the item's value or '' |
| AdminECommerce.ECommercePage.constructor | src/pages/admin/AdminECommerce.jsx:28-38 | the page starts with no file, a cleared status, a closed dialog on the empty form, no errors and a closed snackbar |
| AdminECommerce.ECommercePage.HandleFileChange | src/pages/admin/AdminECommerce.jsx:40-47 | choosing a file clears the status and records the choice |
| AdminECommerce.ECommercePage.HandleFileUpload | src/pages/admin/AdminECommerce.jsx:49-84 | without a file only the status changes; otherwise the eCommerce rows are replaced or not as `Decide` says, and the products are untouched; the log's ids stay distinct and a rejected storage write leaves the slot as it was |
| AdminECommerce.ECommercePage.HandleModalClose | src/pages/admin/AdminECommerce.jsx:86-91 | closing the dialog resets the form to the empty form, edits nothing and clears the errors |
| AdminECommerce.ECommercePage.HandleFormInputChange | src/pages/admin/AdminECommerce.jsx:93-110 | only the named field changes, and exactly the errors `ClearedBy` names are removed |
| AdminECommerce.ECommercePage.HandleFormSubmit | src/pages/admin/AdminECommerce.jsx:140-161 | an invalid form only shows its errors; a valid one updates the edited item when it has an id, else adds the form, logs it, reports it and resets the dialog; the log's ids stay distinct and a rejected storage write leaves the slot as it was |
| AdminECommerce.ECommercePage.CommitForm | src/pages/admin/AdminECommerce.jsx:146-160 | a valid submit clears errors and status, saves the values the handler saw and closes the dialog; the log's ids stay distinct and a rejected storage write leaves the slot as it was |
| AdminECommerce.ECommercePage.SaveForm | src/pages/admin/AdminECommerce.jsx:149-159 | saving updates the item with an id or adds a new one under a fresh id, logs it and reports it in the snackbar; the log's ids stay distinct and a rejected storage write leaves the slot as it was |
| AdminECommerce.ECommercePage.HandleAddECommerce | src/pages/admin/AdminECommerce.jsx:163-168 | the dialog opens on the empty form, editing nothing |
| AdminECommerce.ECommercePage.HandleEditECommerce | src/pages/admin/AdminECommerce.jsx:170-181 | the dialog opens on the item's four fields with no errors |
| AdminECommerce.ECommercePage.CloseSnackbar | src/pages/admin/AdminECommerce.jsx:268 | the snackbar closes and keeps its message |
| AdminECommerce.ECommercePage.HandleDeleteECommerce | src/pages/admin/AdminECommerce.jsx:183-197 | an item without an id gets an error snackbar and changes no store; one with an id is deleted and logged only when confirmed; the log's ids stay distinct and a rejected storage write leaves the slot as it was |

## Left out

- Rendering is not modelled: JSX, MUI styling, router wiring, and the pages and components that only render (`App.jsx`, `Layout.jsx`, `AdminDashboard.jsx`, the two public status pages). Neither are the conditions that decide which upload alert is visible. On the eCommerce page, for example, only messages containing "uploaded" are shown, so the error statuses the model sets are never displayed there.
- `ProductEntryFormModal.jsx` is not part of this model; it only renders. The product page passes its errors as `formErrors`, but the dialog reads a prop named `errors`, so product field errors never appear. This affects display only.
- The table is given no edit or delete handlers (`onEdit`/`onDelete`). The delete and edit handlers are modelled as they are written, although nothing in the rendered table calls them.
- CSV parsing is not modelled. The parser is an external library, so its `complete` result (the rows and the error list) or its `error` callback is the input `ParseResult`.
- The parser calls `complete` or `error` later, not during the upload handler. The model runs the handler and the callback as one step (`AdminShared.FinishUpload`), so a change to the collections or to the file choice made between the two is not modelled.
- `src/utils/idUtils.js` is not part of this model. `generateRowId` is modelled by a counter-based generator, and the only property relied on is that each id is new.
- The log entry's ISO timestamp and its random id come from a clock and a random source. Both are inputs (`Stamp`). The id is taken to be one the log does not hold yet (`LogContext.LogProvider.FreshStamp`), which every caller of `AddLogEntry` and of the handlers that log requires. The source's `Date.now` and `Math.random` id makes a clash unlikely, not impossible.
- Browser storage and JSON are abstracted. The slot is a value that is missing, holds a log, or cannot be read back. A rejected write is a flag.
- The slot only ever holds what the app itself wrote or something unreadable. Text that parses to something other than an array, such as `null`, would become the log as is and make the next entry's spread throw; that is not modelled. Whether storage accepts writes is fixed for the whole session (`LogProvider.storageAccepts` is a constant), so a write that fails only sometimes is not modelled either.
- React runs state updaters later; the model runs them at once. This is the order the update and delete code expects when it tests `oldItem` and `deletedItem` after the setter.
- The model has no authentication, log page formatting or download, or console output.
- `window.confirm` and `alert` are not modelled as dialogs. The confirmation is a boolean input; the alert is a field holding its last message.
- The snackbar's automatic hiding after six seconds is a timer and is left out; its close handler is modelled. The DOM reset of the file input after an upload is also left out.
- Letter case is mapped for ASCII letters only. JavaScript maps all of Unicode.
- Records are maps, which have no key order. The order of `Object.keys(data[0])` is the input `firstKeys`.
- Values are strings. A field holding null or undefined is an absent key. Setting an error to `null` is modelled as removing it, which is equivalent for every reader of the error map.
- `+event.target.value` is taken to be a natural number. The NaN a non-numeric value would give is not modelled.
- AdminProductCatalog.ValidateForm: requires a RETAILER value, because the source trims it without a guard and would throw without one. Every form the page builds has one (the page's `Valid`).
- DataTable.ECommerceColumns: its own contract states only the empty case. The columns of a non-empty table are stated by `DataTable.ECommerceColumnsIds`.

## Findings

| source | as written | input that shows it | evidently intended | confidence | as-written member | corrected member |
|---|---|---|---|---|---|---|
| src/components/DataTable.jsx:75 | The negative group of the eCommerce status mapping tests "not active", "not approved" and "not available", but not "offline" or "deactivated". | A PRODUCT CATALOG value of "Offline" or "Deactivated" maps to "unknown" and shows a grey dot, while the same text gets a red dot everywhere else. | The comment on that line groups all negative statuses as red, and the dialog offers "Offline" and "Deactivated" as statuses. Both should map to "not active" and show red. | medium; not executed | DataTable.OfflineCellDots | DataTable.ECommerceCellDotIntended |
