/** Records as the dashboard keeps them: string-keyed objects whose values are
    strings. A field holding JSON null or undefined is an absent key. The
    reserved field `_id` is the record's key inside its collection. */
module Records {
  import opened JsStrings

  datatype Option<+T> = None | Some(value: T)

  type Record = map<string, string>

  const IdKey := "_id"
  const RetailerKey := "RETAILER"

  /** `r[k]`, undefined being None. */
  function Get(r: Record, k: string): (v: Option<string>)
    ensures v.Some? <==> k in r
    ensures v.Some? ==> v.value == r[k]
  {
    if k in r then Some(r[k]) else None
  }

  /** JavaScript truthiness of a string-or-undefined value. */
  predicate Truthy(v: Option<string>) {
    v.Some? && v.value != ""
  }

  /** `r[k] || fallback`. */
  function GetOr(r: Record, k: string, fallback: string): (v: string)
    ensures k in r && r[k] != "" ==> v == r[k]
    ensures (k !in r || r[k] == "") ==> v == fallback
  {
    if Truthy(Get(r, k)) then r[k] else fallback
  }

  /** `item._id === itemId`. */
  predicate HasId(r: Record, id: string) {
    IdKey in r && r[IdKey] == id
  }

  /** `item && item._id` is truthy. */
  predicate HasTruthyId(r: Record) {
    Truthy(Get(r, IdKey))
  }

  /** `item && item._id` (or `item?._id`) is truthy: the item is a stored record. */
  predicate KnownItem(item: Option<Record>) {
    item.Some? && HasTruthyId(item.value)
  }

  /** `row['RETAILER'] && String(row['RETAILER']).trim() !== ''`. */
  predicate HasRetailer(r: Record) {
    RetailerKey in r && Trim(r[RetailerKey]) != ""
  }

  /** A row passes the retailer test exactly when its RETAILER field holds a
      character that is not whitespace. */
  lemma HasRetailerIff(r: Record)
    ensures HasRetailer(r) <==> RetailerKey in r && !IsBlank(r[RetailerKey])
  {
    if RetailerKey in r {
      TrimEmptyIffBlank(r[RetailerKey]);
    }
  }
}
