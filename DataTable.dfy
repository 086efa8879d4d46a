/** The record table: the status dot's colour rule, the eCommerce status
    mapping, the product status filter, paging, and the eCommerce columns
    derived from the first row's keys. */
module DataTable {
  import opened JsStrings
  import opened Seqs
  import opened Records

  datatype Colour = Red | Orange | Green | Grey

  /** `status ? String(status).toLowerCase() : ''`. */
  function Standardized(status: Option<string>): (s: string)
    ensures !Truthy(status) ==> s == ""
    ensures Truthy(status) ==> s == Lower(status.value)
  {
    if Truthy(status) then Lower(status.value) else ""
  }

  /** The keywords that make a status dot red. */
  predicate RedKeyword(s: string) {
    || Includes(s, "not approved") || Includes(s, "offline") || Includes(s, "deactivated")
    || Includes(s, "not active") || Includes(s, "not available")
  }

  /** The keywords that make a status dot green, when nothing before applies. */
  predicate GreenKeyword(s: string) {
    Includes(s, "approved") || Includes(s, "active")
  }

  /** The `StatusDot` colour: red keywords first, then "pending", then the
      green keywords, grey otherwise. */
  function DotColour(status: Option<string>): (c: Colour)
    ensures c == Red <==> RedKeyword(Standardized(status))
    ensures c == Orange <==> !RedKeyword(Standardized(status)) && Includes(Standardized(status), "pending")
    ensures c == Green <==>
      (!RedKeyword(Standardized(status)) && !Includes(Standardized(status), "pending") && GreenKeyword(Standardized(status)))
  {
    var s := Standardized(status);
    if RedKeyword(s) then Red
    else if Includes(s, "pending") then Orange
    else if GreenKeyword(s) then Green
    else Grey
  }

  /** An absent or empty status has a grey dot. */
  lemma MissingStatusIsGrey(status: Option<string>)
    requires !Truthy(status)
    ensures DotColour(status) == Grey
  {
    var s := Standardized(status);
    assert s == "";
    NotIncludesLonger(s, "not approved");
    NotIncludesLonger(s, "offline");
    NotIncludesLonger(s, "deactivated");
    NotIncludesLonger(s, "not active");
    NotIncludesLonger(s, "not available");
    NotIncludesLonger(s, "pending");
    NotIncludesLonger(s, "approved");
    NotIncludesLonger(s, "active");
  }

  /** The colour ignores the case of ASCII letters. */
  lemma DotColourIgnoresCase(s: string)
    ensures DotColour(Some(Lower(s))) == DotColour(Some(s))
  {
    LowerIdempotent(s);
    assert Lower(s) == "" <==> s == "";
  }

  /** Red wins over green: "Not Approved" contains "approved" and is red. */
  lemma NotApprovedIsRed()
    ensures GreenKeyword(Standardized(Some("Not Approved")))
    ensures DotColour(Some("Not Approved")) == Red
  {
    var s := Standardized(Some("Not Approved"));
    assert s == "not approved";
    IncludesPrefix(s, "not approved");
    IncludesAt(s, "approved", 4);
  }

  /** `String(value)`: undefined prints as "undefined". */
  function Stringify(value: Option<string>): (s: string)
    ensures value.Some? ==> s == value.value
  {
    if value.Some? then value.value else "undefined"
  }

  /** The status cells of an eCommerce table: the columns whose lowercased
      key is "product catalog" or "direct to cart support". */
  predicate IsStatusColumn(key: string) {
    Lower(key) == "product catalog" || Lower(key) == "direct to cart support"
  }

  predicate PositiveStatus(l: string) {
    Includes(l, "active") || Includes(l, "approved")
  }

  predicate NegativeStatus(l: string) {
    Includes(l, "not active") || Includes(l, "not approved") || Includes(l, "not available")
  }

  /** The eCommerce status as a priority order: "pending" first, then the
      negative group, then the positive group, "unknown" otherwise. */
  function ECommerceStatusOf(value: Option<string>): string {
    var l := Lower(Stringify(value));
    if Includes(l, "pending") then "pending"
    else if NegativeStatus(l) then "not active"
    else if PositiveStatus(l) then "active"
    else "unknown"
  }

  /** The status computed in an eCommerce status cell: it starts as
      "unknown" and each later matching test overrides the earlier ones. */
  method ECommerceStatus(value: Option<string>) returns (status: string)
    ensures status == ECommerceStatusOf(value)
    ensures status in {"unknown", "active", "not active", "pending"}
  {
    var lowerValue := Lower(Stringify(value));
    status := "unknown";
    if Includes(lowerValue, "active") || Includes(lowerValue, "approved") {
      status := "active";
    }
    if Includes(lowerValue, "not active") || Includes(lowerValue, "not approved") || Includes(lowerValue, "not available") {
      status := "not active";
    }
    if Includes(lowerValue, "pending") {
      status := "pending";
    }
  }

  /** A string without upper-case ASCII letters is its own lower case. */
  lemma LowerOfLowercase(s: string)
    requires forall i :: 0 <= i < |s| ==> !('A' <= s[i] <= 'Z')
    ensures Lower(s) == s
  {
  }

  /** The colour of a non-empty status, from the keywords its lower case
      holds. */
  lemma ColourFromKeywords(s: string, l: string)
    requires s != "" && l == Lower(s)
    ensures RedKeyword(l) ==> DotColour(Some(s)) == Red
    ensures !RedKeyword(l) && Includes(l, "pending") ==> DotColour(Some(s)) == Orange
    ensures !RedKeyword(l) && !Includes(l, "pending") && GreenKeyword(l) ==> DotColour(Some(s)) == Green
    ensures !RedKeyword(l) && !Includes(l, "pending") && !GreenKeyword(l) ==> DotColour(Some(s)) == Grey
  {
  }

  lemma ActiveKeywords()
    ensures !RedKeyword("active") && !Includes("active", "pending") && GreenKeyword("active")
  {
    var a := "active";
    NotIncludesLonger(a, "not approved");
    NotIncludesLonger(a, "offline");
    NotIncludesLonger(a, "deactivated");
    NotIncludesLonger(a, "not active");
    NotIncludesLonger(a, "not available");
    NotIncludesLonger(a, "pending");
    IncludesPrefix(a, "active");
  }

  lemma PendingKeywords()
    ensures !RedKeyword("pending") && Includes("pending", "pending")
  {
    var p := "pending";
    NotIncludesLonger(p, "not approved");
    NotIncludesMissingChar(p, "offline", 'o');
    NotIncludesLonger(p, "deactivated");
    NotIncludesLonger(p, "not active");
    NotIncludesLonger(p, "not available");
    IncludesPrefix(p, "pending");
  }

  lemma UnknownNotRed()
    ensures !RedKeyword("unknown")
  {
    var u := "unknown";
    NotIncludesLonger(u, "not approved");
    NotIncludesMissingChar(u, "offline", 'f');
    NotIncludesLonger(u, "deactivated");
    NotIncludesLonger(u, "not active");
    NotIncludesLonger(u, "not available");
  }

  lemma UnknownNotPendingNorGreen()
    ensures !Includes("unknown", "pending") && !GreenKeyword("unknown")
  {
    var u := "unknown";
    NotIncludesMissingChar(u, "pending", 'p');
    NotIncludesLonger(u, "approved");
    NotIncludesMissingChar(u, "active", 'a');
  }

  /** The dot shown for each of the four mapped statuses. */
  lemma MappedStatusColours()
    ensures DotColour(Some("active")) == Green
    ensures DotColour(Some("not active")) == Red
    ensures DotColour(Some("pending")) == Orange
    ensures DotColour(Some("unknown")) == Grey
  {
    LowerOfLowercase("active");
    ActiveKeywords();
    ColourFromKeywords("active", "active");
    LowerOfLowercase("not active");
    IncludesPrefix("not active", "not active");
    ColourFromKeywords("not active", "not active");
    LowerOfLowercase("pending");
    PendingKeywords();
    ColourFromKeywords("pending", "pending");
    LowerOfLowercase("unknown");
    UnknownNotRed();
    UnknownNotPendingNorGreen();
    ColourFromKeywords("unknown", "unknown");
  }

  /** As written, the negative group misses two of the red keywords: an
      "Offline" or "Deactivated" cell gets the status "unknown" and a grey
      dot, while the same text shown as a raw status is red. */
  lemma OfflineAndDeactivatedShowGrey()
    ensures ECommerceStatusOf(Some("Offline")) == "unknown"
    ensures ECommerceStatusOf(Some("Deactivated")) == "unknown"
    ensures DotColour(Some(ECommerceStatusOf(Some("Offline")))) == Grey
    ensures DotColour(Some("Offline")) == Red && DotColour(Some("Deactivated")) == Red
  {
    assert Lower("Offline") == "offline";
    OfflineKeywords();
    StatusFromKeywords(Some("Offline"), "offline");
    ColourFromKeywords("Offline", "offline");
    assert Lower("Deactivated") == "deactivated";
    DeactivatedKeywords();
    StatusFromKeywords(Some("Deactivated"), "deactivated");
    ColourFromKeywords("Deactivated", "deactivated");
    MappedStatusColours();
  }

  /** The eCommerce status of a value, from the keywords its lower case holds. */
  lemma StatusFromKeywords(value: Option<string>, l: string)
    requires l == Lower(Stringify(value))
    ensures Includes(l, "pending") ==> ECommerceStatusOf(value) == "pending"
    ensures !Includes(l, "pending") && NegativeStatus(l) ==> ECommerceStatusOf(value) == "not active"
    ensures !Includes(l, "pending") && !NegativeStatus(l) && PositiveStatus(l) ==> ECommerceStatusOf(value) == "active"
    ensures !Includes(l, "pending") && !NegativeStatus(l) && !PositiveStatus(l) ==> ECommerceStatusOf(value) == "unknown"
  {
  }

  lemma OfflineKeywords()
    ensures !Includes("offline", "pending") && !NegativeStatus("offline") && !PositiveStatus("offline")
    ensures RedKeyword("offline")
  {
    var l := "offline";
    NotIncludesMissingChar(l, "pending", 'p');
    NotIncludesLonger(l, "not active");
    NotIncludesLonger(l, "not approved");
    NotIncludesLonger(l, "not available");
    NotIncludesMissingChar(l, "active", 'a');
    NotIncludesLonger(l, "approved");
    IncludesPrefix(l, "offline");
  }

  lemma DeactivatedKeywords()
    ensures !Includes("deactivated", "pending") && !NegativeStatus("deactivated") && !PositiveStatus("deactivated")
    ensures RedKeyword("deactivated")
  {
    var l := "deactivated";
    NotIncludesMissingChar(l, "pending", 'p');
    NotIncludesMissingChar(l, "not active", 'n');
    NotIncludesLonger(l, "not approved");
    NotIncludesLonger(l, "not available");
    NotIncludesMissingChar(l, "approved", 'p');
    forall i: nat | i <= |l| ensures !OccursAt(l, "active", i) {
      if i + 6 <= |l| {
        assert l[i..i + 6][0] == l[i] && l[i..i + 6][5] == l[i + 5];
      }
    }
    IncludesPrefix(l, "deactivated");
  }

  /** The eCommerce status with the two red keywords the negative group
      misses ("offline", "deactivated") added to it. */
  function ECommerceStatusIntended(value: Option<string>): string {
    var l := Lower(Stringify(value));
    if Includes(l, "pending") then "pending"
    else if RedKeyword(l) then "not active"
    else if PositiveStatus(l) then "active"
    else "unknown"
  }

  /** With the corrected grouping, the dot of a status cell has the colour
      the raw value would have, except for a value that is both red and
      pending, which shows as pending. */
  lemma IntendedStatusMatchesDot(s: string)
    requires !(RedKeyword(Lower(s)) && Includes(Lower(s), "pending"))
    ensures DotColour(Some(ECommerceStatusIntended(Some(s)))) == DotColour(Some(s))
  {
    MappedStatusColours();
    if s == "" {
      MissingStatusIsGrey(Some(s));
      NotIncludesLonger("", "pending");
      NotIncludesLonger("", "not approved");
      NotIncludesLonger("", "offline");
      NotIncludesLonger("", "deactivated");
      NotIncludesLonger("", "not active");
      NotIncludesLonger("", "not available");
      NotIncludesLonger("", "approved");
      NotIncludesLonger("", "active");
    }
  }

  /** The dot of an eCommerce cell as written: in a status column, orange
      for "pending", red only for the three negative phrases, green for the
      positive words and grey otherwise; no dot in any other column. */
  function ECommerceCellDot(key: string, value: Option<string>): (c: Option<Colour>)
    ensures c.Some? <==> IsStatusColumn(key)
    ensures var l := Lower(Stringify(value)); IsStatusColumn(key) ==>
      && (c == Some(Orange) <==> Includes(l, "pending"))
      && (c == Some(Red) <==> !Includes(l, "pending") && NegativeStatus(l))
      && (c == Some(Green) <==> !Includes(l, "pending") && !NegativeStatus(l) && PositiveStatus(l))
      && (c == Some(Grey) <==> !Includes(l, "pending") && !NegativeStatus(l) && !PositiveStatus(l))
  {
    if IsStatusColumn(key) then
      StatusFromKeywords(value, Lower(Stringify(value)));
      MappedStatusColours();
      Some(DotColour(Some(ECommerceStatusOf(value))))
    else None
  }

  /** The dot of an eCommerce cell with the corrected status grouping: as
      written, except that every red keyword of the dot, "offline" and
      "deactivated" among them, gives red. */
  function ECommerceCellDotIntended(key: string, value: Option<string>): (c: Option<Colour>)
    ensures c.Some? <==> IsStatusColumn(key)
    ensures var l := Lower(Stringify(value)); IsStatusColumn(key) ==>
      && (c == Some(Orange) <==> Includes(l, "pending"))
      && (c == Some(Red) <==> !Includes(l, "pending") && RedKeyword(l))
      && (c == Some(Green) <==> !Includes(l, "pending") && !RedKeyword(l) && PositiveStatus(l))
      && (c == Some(Grey) <==> !Includes(l, "pending") && !RedKeyword(l) && !PositiveStatus(l))
  {
    if IsStatusColumn(key) then
      MappedStatusColours();
      Some(DotColour(Some(ECommerceStatusIntended(value))))
    else None
  }

  /** In a status column, the cell as written shows an "Offline" value grey;
      the corrected cell shows it red, as its raw text would be. */
  lemma OfflineCellDots()
    ensures ECommerceCellDot("PRODUCT CATALOG", Some("Offline")) == Some(Grey)
    ensures ECommerceCellDotIntended("PRODUCT CATALOG", Some("Offline")) == Some(Red)
    ensures ECommerceCellDot("DIRECT TO CART SUPPORT", Some("Deactivated")) == Some(Grey)
    ensures ECommerceCellDotIntended("DIRECT TO CART SUPPORT", Some("Deactivated")) == Some(Red)
  {
    assert Lower("PRODUCT CATALOG") == "product catalog";
    assert Lower("DIRECT TO CART SUPPORT") == "direct to cart support";
    OfflineAndDeactivatedShowGrey();
    assert Lower("Offline") == "offline";
    assert Lower("Deactivated") == "deactivated";
    OfflineKeywords();
    DeactivatedKeywords();
    IntendedStatusMatchesDot("Offline");
    IntendedStatusMatchesDot("Deactivated");
  }

  /** With the corrected grouping, a status cell shows the colour of its raw
      text, unless that text is both red and pending. */
  lemma IntendedCellMatchesRawDot(key: string, s: string)
    requires IsStatusColumn(key) && !(RedKeyword(Lower(s)) && Includes(Lower(s), "pending"))
    ensures ECommerceCellDotIntended(key, Some(s)) == Some(DotColour(Some(s)))
  {
    IntendedStatusMatchesDot(s);
  }

  datatype TableType = ProductTable | ECommerceTable

  const ApprovalStatusKey := "APPROVAL STATUS"

  /** The lowercased approval status of a row, '' when it is missing. */
  function RowStatus(row: Record): string {
    Standardized(Get(row, ApprovalStatusKey))
  }

  /** Whether a product row passes the status filter. */
  predicate FilterKeeps(filter: string, row: Record) {
    var status := RowStatus(row);
    if filter == "approved" then Includes(status, "approved")
    else if filter == "deactivated" then
      Includes(status, "offline") || Includes(status, "deactivated") || Includes(status, "not approved")
    else if filter == "pending" then Includes(status, "pending")
    else false
  }

  function StatusFilter(filter: string): Record -> bool {
    (row: Record) => FilterKeeps(filter, row)
  }

  /** `filteredData`: only a product table with a filter other than 'all'
      filters; the rows kept stay in their order. */
  function FilteredData(data: seq<Record>, table: TableType, filter: string): (r: seq<Record>)
    ensures |r| <= |data|
    ensures table != ProductTable || filter == "all" ==> r == data
  {
    if table == ProductTable && filter != "all" then Filter(data, StatusFilter(filter)) else data
  }

  /** The filtered rows are the rows that pass the filter, in order. */
  lemma FilteredDataMembers(data: seq<Record>, filter: string)
    requires filter != "all"
    ensures forall row :: row in FilteredData(data, ProductTable, filter) <==> row in data && FilterKeeps(filter, row)
    ensures IsSubsequence(FilteredData(data, ProductTable, filter), data)
  {
    FilterMembers(data, StatusFilter(filter));
    FilterIsSubsequence(data, StatusFilter(filter));
  }

  /** A filter value the menu does not offer keeps nothing. */
  lemma UnknownFilterKeepsNothing(data: seq<Record>, filter: string)
    requires filter !in {"all", "approved", "deactivated", "pending"}
    ensures FilteredData(data, ProductTable, filter) == []
  {
    FilterNoneKept(data, StatusFilter(filter));
  }

  /** Every row the 'deactivated' filter keeps has a red dot; the 'approved'
      filter also keeps "Not Approved" rows, whose dot is red. */
  lemma FilterAgreesWithDots(row: Record)
    ensures FilterKeeps("deactivated", row) ==> DotColour(Get(row, ApprovalStatusKey)) == Red
    ensures FilterKeeps("approved", map[ApprovalStatusKey := "Not Approved"])
    ensures DotColour(Get(map[ApprovalStatusKey := "Not Approved"], ApprovalStatusKey)) == Red
  {
    NotApprovedIsRed();
    var r := map[ApprovalStatusKey := "Not Approved"];
    assert Get(r, ApprovalStatusKey) == Some("Not Approved");
    assert RowStatus(r) == "not approved";
    IncludesAt(RowStatus(r), "approved", 4);
  }

  /** `filtered.slice(page * rpp, page * rpp + rpp)`. */
  function PageRows(rows: seq<Record>, page: nat, rowsPerPage: nat): (r: seq<Record>)
    ensures |r| <= rowsPerPage
    ensures forall i :: 0 <= i < |r| ==> page * rowsPerPage + i < |rows| && r[i] == rows[page * rowsPerPage + i]
    ensures page * rowsPerPage < |rows| && 0 < rowsPerPage ==> r != []
  {
    Slice(rows, page * rowsPerPage, page * rowsPerPage + rowsPerPage)
  }

  /** The first `n` pages, one after the other. */
  function Pages(rows: seq<Record>, rowsPerPage: nat, n: nat): seq<Record> {
    if n == 0 then [] else Pages(rows, rowsPerPage, n - 1) + PageRows(rows, n - 1, rowsPerPage)
  }

  /** The first `n` pages are exactly the first `n * rpp` rows: pages do not
      overlap and skip nothing. */
  lemma {:induction false} PagesArePrefix(rows: seq<Record>, rowsPerPage: nat, n: nat)
    ensures Pages(rows, rowsPerPage, n) == rows[..Min(n * rowsPerPage, |rows|)]
  {
    if n > 0 {
      PagesArePrefix(rows, rowsPerPage, n - 1);
      var lo := (n - 1) * rowsPerPage;
      assert lo + rowsPerPage == n * rowsPerPage;
      if lo < |rows| {
        var hi := Min(n * rowsPerPage, |rows|);
        assert PageRows(rows, n - 1, rowsPerPage) == rows[lo..hi];
        assert rows[..lo] + rows[lo..hi] == rows[..hi];
      } else {
        assert PageRows(rows, n - 1, rowsPerPage) == [];
      }
    }
  }

  /** Enough pages show every filtered row once, in order. */
  lemma PagesCoverRows(rows: seq<Record>, rowsPerPage: nat, n: nat)
    requires |rows| <= n * rowsPerPage
    ensures Pages(rows, rowsPerPage, n) == rows
  {
    PagesArePrefix(rows, rowsPerPage, n);
  }

  datatype Column = Column(id: string, header: string)

  /** `key.replace(/_/g, ' ')`. */
  function Spaced(key: string): (r: string)
    ensures |r| == |key|
    ensures forall i :: 0 <= i < |key| ==> r[i] == if key[i] == '_' then ' ' else key[i]
  {
    seq(|key|, i requires 0 <= i < |key| => if key[i] == '_' then ' ' else key[i])
  }

  /** A character `\w` matches. */
  predicate IsWordChar(c: char) {
    ('a' <= c <= 'z') || ('A' <= c <= 'Z') || ('0' <= c <= '9') || c == '_'
  }

  /** Position `i` of `s` is where `\b\w` matches: a word character with no
      word character before it. */
  predicate WordStart(s: string, i: int)
    requires 0 <= i < |s|
  {
    IsWordChar(s[i]) && (i == 0 || !IsWordChar(s[i - 1]))
  }

  /** `s.replace(/\b\w/g, l => l.toUpperCase())`. */
  function Capitalized(s: string): (r: string)
    ensures |r| == |s|
    ensures forall i :: 0 <= i < |s| ==> r[i] == if WordStart(s, i) then UpperChar(s[i]) else s[i]
  {
    seq(|s|, i requires 0 <= i < |s| => if WordStart(s, i) then UpperChar(s[i]) else s[i])
  }

  /** The header of an eCommerce column. */
  function ColumnLabel(key: string): string {
    Capitalized(Spaced(key))
  }

  /** A label has no underscores, starts each word with a character that is
      not a lower-case letter, and differs from its key only in letter case
      and in underscores turned into spaces. */
  lemma ColumnLabelShape(key: string)
    ensures |ColumnLabel(key)| == |key|
    ensures forall i :: 0 <= i < |key| ==> ColumnLabel(key)[i] != '_'
    ensures forall i :: 0 <= i < |key| && WordStart(Spaced(key), i) ==> !('a' <= ColumnLabel(key)[i] <= 'z')
    ensures Lower(ColumnLabel(key)) == Lower(Spaced(key))
    ensures forall i :: 0 <= i < |key| && WordStart(Spaced(key), i) ==> ColumnLabel(key)[i] == UpperChar(Spaced(key)[i])
    ensures forall i :: 0 <= i < |key| && !WordStart(Spaced(key), i) ==> ColumnLabel(key)[i] == Spaced(key)[i]
  {
  }

  /** Relabelling a label changes nothing. */
  lemma ColumnLabelIdempotent(key: string)
    ensures ColumnLabel(ColumnLabel(key)) == ColumnLabel(key)
  {
    var s := Spaced(key);
    var l := ColumnLabel(key);
    assert Spaced(l) == l;
    forall i | 0 <= i < |l|
      ensures WordStart(l, i) == WordStart(s, i)
    {
    }
  }

  /** `Object.keys(data[0])` is `firstKeys`: the keys of the first row, each
      once, in the row's own order. */
  ghost predicate KeysOfFirstRow(data: seq<Record>, firstKeys: seq<string>) {
    && data != []
    && (forall k :: k in firstKeys <==> k in data[0])
    && (forall i, j :: 0 <= i < j < |firstKeys| ==> firstKeys[i] != firstKeys[j])
  }

  predicate NonEmptyKey(k: string) {
    k != ""
  }

  function KeyColumns(keys: seq<string>): (r: seq<Column>)
    ensures |r| == |keys|
    ensures forall i :: 0 <= i < |keys| ==> r[i] == Column(keys[i], ColumnLabel(keys[i]))
  {
    seq(|keys|, i requires 0 <= i < |keys| => Column(keys[i], ColumnLabel(keys[i])))
  }

  /** `eCommerceColumns`: none for an empty table, otherwise one column per
      non-empty key of the first row, in key order. */
  function ECommerceColumns(data: seq<Record>, firstKeys: seq<string>): (r: seq<Column>)
    requires data != [] ==> KeysOfFirstRow(data, firstKeys)
    ensures data == [] ==> r == []
  {
    if data == [] then [] else KeyColumns(Filter(firstKeys, NonEmptyKey))
  }

  function ColumnIds(cols: seq<Column>): (ids: seq<string>)
    ensures |ids| == |cols| && forall i :: 0 <= i < |cols| ==> ids[i] == cols[i].id
  {
    seq(|cols|, i requires 0 <= i < |cols| => cols[i].id)
  }

  /** The column ids are the first row's non-empty keys in key order, and
      each column is headed by its key's label. */
  lemma ECommerceColumnsIds(data: seq<Record>, firstKeys: seq<string>)
    requires KeysOfFirstRow(data, firstKeys)
    ensures ColumnIds(ECommerceColumns(data, firstKeys)) == Filter(firstKeys, NonEmptyKey)
    ensures forall k :: k in ColumnIds(ECommerceColumns(data, firstKeys)) <==> k in data[0] && k != ""
    ensures forall i :: 0 <= i < |ECommerceColumns(data, firstKeys)| ==>
      ECommerceColumns(data, firstKeys)[i].header == ColumnLabel(ECommerceColumns(data, firstKeys)[i].id)
  {
    FilterMembers(firstKeys, NonEmptyKey);
    assert ColumnIds(ECommerceColumns(data, firstKeys)) == Filter(firstKeys, NonEmptyKey);
  }

  const ProductColumns := [
    Column("RETAILER", "Retailer Name"),
    Column(ApprovalStatusKey, "Approval Status"),
    Column("APPLICABLE PRODUCTS", "Applicable Product")
  ]

  /** The columns a table shows: the three fixed product columns, or for an
      eCommerce table one column per non-empty key of its first row, none
      while the table is empty. */
  function Columns(table: TableType, data: seq<Record>, firstKeys: seq<string>): (r: seq<Column>)
    requires data != [] ==> KeysOfFirstRow(data, firstKeys)
    ensures table == ProductTable ==>
      && ColumnIds(r) == ["RETAILER", ApprovalStatusKey, "APPLICABLE PRODUCTS"]
      && r[0].header == "Retailer Name" && r[1].header == "Approval Status"
      && r[2].header == "Applicable Product"
    ensures table == ECommerceTable && data == [] ==> r == []
    ensures table == ECommerceTable && data != [] ==>
      && ColumnIds(r) == Filter(firstKeys, NonEmptyKey)
      && (forall i :: 0 <= i < |r| ==> r[i].header == ColumnLabel(r[i].id))
  {
    if table == ProductTable then
      assert ColumnIds(ProductColumns) == ["RETAILER", ApprovalStatusKey, "APPLICABLE PRODUCTS"];
      ProductColumns
    else
      if data != [] then
        ECommerceColumnsIds(data, firstKeys);
        ECommerceColumns(data, firstKeys)
      else ECommerceColumns(data, firstKeys)
  }

  /** The paging and filter state of one table. */
  class TableState {
    var page: nat
    var rowsPerPage: nat
    var statusFilter: string

    constructor ()
      ensures page == 0 && rowsPerPage == 20 && statusFilter == "all"
    {
      page := 0;
      rowsPerPage := 20;
      statusFilter := "all";
    }

    /** `handleChangePage`. */
    method ChangePage(newPage: nat)
      modifies this
      ensures page == newPage
      ensures rowsPerPage == old(rowsPerPage) && statusFilter == old(statusFilter)
    {
      page := newPage;
    }

    /** `handleChangeRowsPerPage`: also goes back to the first page. */
    method ChangeRowsPerPage(n: nat)
      modifies this
      ensures rowsPerPage == n && page == 0
      ensures statusFilter == old(statusFilter)
    {
      rowsPerPage := n;
      page := 0;
    }

    /** `handleStatusFilterChange`: also goes back to the first page. */
    method ChangeStatusFilter(filter: string)
      modifies this
      ensures statusFilter == filter && page == 0
      ensures rowsPerPage == old(rowsPerPage)
    {
      statusFilter := filter;
      page := 0;
    }

    /** The rows the table body shows: none while there are no columns,
        otherwise the current page of the filtered rows. */
    function VisibleRows(data: seq<Record>, table: TableType, columnCount: nat): (r: seq<Record>)
      reads this
      ensures |r| <= rowsPerPage
      ensures columnCount == 0 ==> r == []
      ensures forall i :: 0 <= i < |r| ==> r[i] in FilteredData(data, table, statusFilter)
      ensures var rows := FilteredData(data, table, statusFilter); var lo := page * rowsPerPage;
        columnCount > 0 && lo <= |rows| ==> r == rows[lo..Min(lo + rowsPerPage, |rows|)]
      ensures columnCount > 0 && |FilteredData(data, table, statusFilter)| <= page * rowsPerPage ==> r == []
    {
      if columnCount == 0 then [] else PageRows(FilteredData(data, table, statusFilter), page, rowsPerPage)
    }

    /** The row count the pager shows. */
    function RowCount(data: seq<Record>, table: TableType): (n: nat)
      reads this
      ensures n == |FilteredData(data, table, statusFilter)|
      ensures n <= |data|
      ensures table == ECommerceTable || statusFilter == "all" ==> n == |data|
    {
      |FilteredData(data, table, statusFilter)|
    }
  }

  /** The body gate on the columns the table has: a product table always has
      columns, so its body is the current page of its filtered rows; an empty
      eCommerce table has none and shows no rows. */
  lemma ColumnsGateVisibleRows(t: TableState, data: seq<Record>, firstKeys: seq<string>)
    requires data != [] ==> KeysOfFirstRow(data, firstKeys)
    ensures t.VisibleRows(data, ProductTable, |Columns(ProductTable, data, firstKeys)|)
      == PageRows(FilteredData(data, ProductTable, t.statusFilter), t.page, t.rowsPerPage)
    ensures t.VisibleRows([], ECommerceTable, |Columns(ECommerceTable, [], firstKeys)|) == []
  {
    assert |Columns(ProductTable, data, firstKeys)| == 3 by {
      assert |ColumnIds(Columns(ProductTable, data, firstKeys))| == 3;
    }
  }
}
