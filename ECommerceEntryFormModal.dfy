/** The eCommerce entry dialog: which status options it offers, when the
    free-text status field appears and what it shows, and the title and
    submit label that tell editing from adding. */
module ECommerceEntryFormModal {
  import opened Records

  const CommonStatusOptions: seq<string> :=
    ["Active", "Not Active", "Pending Onboarding", "Not Available", "Deactivated", "Offline"]

  const OtherOption := "Other"

  /** The options of each status select, in menu order. */
  const SelectOptions: seq<string> := CommonStatusOptions + [OtherOption]

  /** The select offers exactly the six common statuses and "Other", each once. */
  lemma SelectOptionsExactly()
    ensures forall o :: o in SelectOptions <==> o in CommonStatusOptions || o == OtherOption
    ensures |SelectOptions| == 7
    ensures forall i, j :: 0 <= i < j < |SelectOptions| ==> SelectOptions[i] != SelectOptions[j]
  {
  }

  /** The free-text status field is shown when the value is 'Other', or is
      a non-empty value that none of the common options matches. */
  predicate ShowsCustomField(value: Option<string>) {
    value == Some(OtherOption) || (Truthy(value) && value.value !in CommonStatusOptions)
  }

  /** The 'Other' test is subsumed by the second one, since 'Other' is not
      a common option: the field shows exactly for a non-empty value
      outside the common options. */
  lemma ShowsCustomFieldIff(value: Option<string>)
    ensures ShowsCustomField(value) <==> Truthy(value) && value.value !in CommonStatusOptions
  {
    assert OtherOption !in CommonStatusOptions;
  }

  /** Among the values the select itself offers, only 'Other' opens the field. */
  lemma CustomFieldForOtherOnly(o: string)
    requires o in SelectOptions
    ensures ShowsCustomField(Some(o)) <==> o == OtherOption
  {
  }

  /** What the free-text field displays, none when it is not shown: '' for
      'Other', the current value otherwise. */
  function CustomFieldDisplay(value: Option<string>): (r: Option<string>)
    ensures r.Some? <==> ShowsCustomField(value)
    ensures r == Some("") <==> value == Some(OtherOption)
    ensures r.Some? && value != Some(OtherOption) ==> r == value && value.value !in SelectOptions
  {
    if ShowsCustomField(value) then Some(if value.value == OtherOption then "" else value.value) else None
  }

  /** The value of a status select: the field's value, '' when it is missing. */
  function SelectValue(value: Option<string>): (r: string)
    ensures Truthy(value) ==> r == value.value
    ensures !Truthy(value) ==> r == ""
  {
    if Truthy(value) then value.value else ""
  }

  function DialogTitle(itemData: Option<Record>, itemType: string): (t: string)
    ensures KnownItem(itemData) ==> t == "Edit " + itemType + " Entry"
    ensures !KnownItem(itemData) ==> t == "Add New " + itemType + " Entry"
  {
    if KnownItem(itemData) then "Edit " + itemType + " Entry" else "Add New " + itemType + " Entry"
  }

  function SubmitButtonText(itemData: Option<Record>): (t: string)
    ensures t == "Save Changes" <==> KnownItem(itemData)
    ensures t == "Add Entry" <==> !KnownItem(itemData)
  {
    if KnownItem(itemData) then "Save Changes" else "Add Entry"
  }

  /** The title and the button always agree: the title starts with "Edit"
      exactly when the button reads "Save Changes". */
  lemma TitleAgreesWithButton(itemData: Option<Record>, itemType: string)
    ensures DialogTitle(itemData, itemType)[..4] == "Edit" <==> SubmitButtonText(itemData) == "Save Changes"
  {
    if !KnownItem(itemData) {
      assert DialogTitle(itemData, itemType)[..4] == "Add ";
    }
  }
}
