/** The two record stores (product catalog and eCommerce), their seeding from
    the bundled data, and add / update / delete, each of which reports to the
    audit log. The updaters handed to the state setters run synchronously. */
module DataContext {
  import opened JsStrings
  import opened Seqs
  import opened Records
  import opened IdUtils
  import opened LogContext

  datatype Dataset = Products | ECommerce {
    function Other(): Dataset {
      if this == Products then ECommerce else Products
    }
    function AddAction(): ActionType {
      if this == Products then ProductCatalogAdd else ECommerceAdd
    }
    function UpdateAction(): ActionType {
      if this == Products then ProductCatalogUpdate else ECommerceUpdate
    }
    function DeleteAction(): ActionType {
      if this == Products then ProductCatalogDelete else ECommerceDelete
    }
  }

  /** Seeding keeps a product row when its RETAILER is present and not blank. */
  predicate ProductSeedValid(row: Record) {
    HasRetailer(row)
  }

  /** Seeding keeps an eCommerce row when some field is non-null and not blank. */
  predicate ECommerceSeedValid(row: Record) {
    exists k | k in row :: Trim(row[k]) != ""
  }

  function SeedValid(ds: Dataset): Record -> bool {
    if ds == Products then ProductSeedValid else ECommerceSeedValid
  }

  /** A row with a usable retailer also passes the eCommerce seeding test. */
  lemma RetailerRowsPassECommerceSeeding(row: Record)
    requires HasRetailer(row)
    ensures ECommerceSeedValid(row)
  {
    assert RetailerKey in row && Trim(row[RetailerKey]) != "";
  }

  /** The converse fails: a row with no RETAILER field but another non-blank
      field is kept by eCommerce seeding and dropped by product seeding. */
  lemma SeedingTestsDiffer()
    ensures var row := map["PRODUCT CATALOG" := "Active"];
      ECommerceSeedValid(row) && !ProductSeedValid(row)
  {
    var row := map["PRODUCT CATALOG" := "Active"];
    TrimKeepsNonWhitespace(row["PRODUCT CATALOG"], 0);
    assert RetailerKey !in row;
  }

  /** `{ ...item, ...patch, _id: itemId }`. */
  function Merged(item: Record, patch: Record, itemId: string): (r: Record)
    ensures HasId(r, itemId)
    ensures forall k :: k != IdKey ==> (k in r <==> k in item || k in patch)
    ensures forall k :: k != IdKey && k in patch ==> r[k] == patch[k]
    ensures forall k :: k != IdKey && k !in patch && k in item ==> r[k] == item[k]
  {
    item + patch + map[IdKey := itemId]
  }

  /** The collection after `update(itemId, patch)`: every record with that id
      merged with the patch, every other record as it was. */
  ghost function Updated(data: seq<Record>, itemId: string, patch: Record): (r: seq<Record>)
    ensures |r| == |data|
  {
    seq(|data|, i requires 0 <= i < |data| =>
      if HasId(data[i], itemId) then Merged(data[i], patch, itemId) else data[i])
  }

  function KeepOthers(itemId: string): Record -> bool {
    (r: Record) => !HasId(r, itemId)
  }

  /** The collection after `delete(itemId)`. */
  function Deleted(data: seq<Record>, itemId: string): seq<Record> {
    Filter(data, KeepOthers(itemId))
  }

  /** Index of the last record with this id, which the callbacks capture. */
  ghost predicate LastMatch(data: seq<Record>, itemId: string, i: int) {
    0 <= i < |data| && HasId(data[i], itemId)
    && forall j :: i < j < |data| ==> !HasId(data[j], itemId)
  }

  ghost predicate Captured(data: seq<Record>, itemId: string, found: Option<Record>) {
    && (found.None? <==> forall i :: 0 <= i < |data| ==> !HasId(data[i], itemId))
    && (found.Some? ==> exists i :: LastMatch(data, itemId, i) && found.value == data[i])
  }

  /** The updater of `updateProductItem`: maps the collection, remembering the
      record it replaced in `oldItem`. */
  method UpdateTraversal(data: seq<Record>, itemId: string, patch: Record)
    returns (newData: seq<Record>, oldItem: Option<Record>)
    ensures newData == Updated(data, itemId, patch)
    ensures Captured(data, itemId, oldItem)
  {
    newData := [];
    oldItem := None;
    ghost var at := -1;
    var i := 0;
    while i < |data|
      invariant 0 <= i <= |data|
      invariant newData == Updated(data[..i], itemId, patch)
      invariant oldItem.None? <==> forall j :: 0 <= j < i ==> !HasId(data[j], itemId)
      invariant oldItem.Some? ==> LastMatch(data[..i], itemId, at) && oldItem.value == data[at]
    {
      if HasId(data[i], itemId) {
        oldItem := Some(data[i]);
        at := i;
        newData := newData + [Merged(data[i], patch, itemId)];
      } else {
        newData := newData + [data[i]];
      }
      i := i + 1;
    }
    assert data[..i] == data;
  }

  /** The updater of `deleteProductItem`: filters the collection, remembering
      the record it dropped in `deletedItem`. */
  method DeleteTraversal(data: seq<Record>, itemId: string)
    returns (kept: seq<Record>, deletedItem: Option<Record>)
    ensures kept == Deleted(data, itemId)
    ensures Captured(data, itemId, deletedItem)
  {
    kept := [];
    deletedItem := None;
    ghost var at := -1;
    var i := 0;
    while i < |data|
      invariant 0 <= i <= |data|
      invariant kept == Deleted(data[..i], itemId)
      invariant deletedItem.None? <==> forall j :: 0 <= j < i ==> !HasId(data[j], itemId)
      invariant deletedItem.Some? ==> LastMatch(data[..i], itemId, at) && deletedItem.value == data[at]
    {
      assert data[..i + 1] == data[..i] + [data[i]];
      FilterSnoc(data[..i], data[i], KeepOthers(itemId));
      if HasId(data[i], itemId) {
        deletedItem := Some(data[i]);
        at := i;
      } else {
        kept := kept + [data[i]];
      }
      i := i + 1;
    }
    assert data[..i] == data;
  }

  /** Update keeps every record's `_id`, so a well-keyed collection stays so. */
  lemma UpdatedKeepsIds(data: seq<Record>, itemId: string, patch: Record, ids: set<string>)
    requires IdsWithin(data, ids) && DistinctIds(data)
    ensures IdsWithin(Updated(data, itemId, patch), ids) && DistinctIds(Updated(data, itemId, patch))
    ensures forall i :: 0 <= i < |data| ==> Updated(data, itemId, patch)[i][IdKey] == data[i][IdKey]
  {
  }

  /** Updating an id that no record has changes nothing. */
  lemma UpdateMissingIsNoOp(data: seq<Record>, itemId: string, patch: Record)
    requires forall i :: 0 <= i < |data| ==> !HasId(data[i], itemId)
    ensures Updated(data, itemId, patch) == data
  {
  }

  /** With distinct ids, an update changes exactly the one record with that
      id, into its old fields overridden by the patch. */
  lemma UpdateChangesOneRecord(data: seq<Record>, itemId: string, patch: Record, i: int)
    requires DistinctIds(data) && 0 <= i < |data| && HasId(data[i], itemId)
    ensures Updated(data, itemId, patch)[i] == data[i] + patch + map[IdKey := itemId]
    ensures forall j :: 0 <= j < |data| && j != i ==> Updated(data, itemId, patch)[j] == data[j]
  {
  }

  /** Delete drops the records with that id and keeps the others in order. */
  lemma DeletedKeepsOthersInOrder(data: seq<Record>, itemId: string)
    ensures forall r :: r in Deleted(data, itemId) <==> r in data && !HasId(r, itemId)
    ensures IsSubsequence(Deleted(data, itemId), data)
  {
    FilterMembers(data, KeepOthers(itemId));
    FilterIsSubsequence(data, KeepOthers(itemId));
  }

  /** Deleting an id that no record has changes nothing. */
  lemma DeleteMissingIsNoOp(data: seq<Record>, itemId: string)
    requires forall i :: 0 <= i < |data| ==> !HasId(data[i], itemId)
    ensures Deleted(data, itemId) == data
  {
    FilterAllKept(data, KeepOthers(itemId));
  }

  /** With distinct ids, deleting an id that is present removes one record. */
  lemma {:induction false} DeleteRemovesOne(data: seq<Record>, itemId: string, i: int)
    requires DistinctIds(data) && 0 <= i < |data| && HasId(data[i], itemId)
    ensures Deleted(data, itemId) == data[..i] + data[i + 1..]
    ensures |Deleted(data, itemId)| == |data| - 1
  {
    var keep := KeepOthers(itemId);
    OnlyOneWithId(data, i);
    var pre, post := data[..i], data[i + 1..];
    assert data == pre + ([data[i]] + post);
    FilterAppend(pre, [data[i]] + post, keep);
    FilterAppend([data[i]], post, keep);
    assert Filter([data[i]], keep) == [] by {
      assert [data[i]][1..] == [];
    }
    forall j | 0 <= j < |pre| ensures keep(pre[j]) {
      assert pre[j] == data[j];
    }
    forall j | 0 <= j < |post| ensures keep(post[j]) {
      assert post[j] == data[i + 1 + j];
    }
    FilterAllKept(pre, keep);
    FilterAllKept(post, keep);
  }

  /** A second delete of the same id finds nothing and changes nothing. */
  lemma DeleteTwiceIsNoOp(data: seq<Record>, itemId: string)
    ensures forall i :: 0 <= i < |Deleted(data, itemId)| ==> !HasId(Deleted(data, itemId)[i], itemId)
    ensures Deleted(Deleted(data, itemId), itemId) == Deleted(data, itemId)
  {
    FilterIdempotent(data, KeepOthers(itemId));
    FilterMembers(data, KeepOthers(itemId));
    var d := Deleted(data, itemId);
    assert forall i :: 0 <= i < |d| ==> d[i] in d;
  }

  /** Deleting keeps the surviving records' ids. */
  lemma DeletedKeepsIds(data: seq<Record>, itemId: string, ids: set<string>)
    requires IdsWithin(data, ids) && DistinctIds(data)
    ensures IdsWithin(Deleted(data, itemId), ids) && DistinctIds(Deleted(data, itemId))
  {
    var d := Deleted(data, itemId);
    DeletedKeepsOthersInOrder(data, itemId);
    SubsequenceKeepsIds(d, data, ids);
  }

  lemma {:induction false} SubsequenceKeepsIds(r: seq<Record>, s: seq<Record>, ids: set<string>)
    requires IsSubsequence(r, s) && IdsWithin(s, ids) && DistinctIds(s)
    ensures IdsWithin(r, ids) && DistinctIds(r)
    decreases |s|
  {
    if r != [] {
      if r[0] == s[0] && IsSubsequence(r[1..], s[1..]) {
        SubsequenceKeepsIds(r[1..], s[1..], ids);
        SubsequenceMembers(r[1..], s[1..]);
        forall j | 0 < j < |r| ensures r[0][IdKey] != r[j][IdKey] {
          assert r[1..][j - 1] in s[1..];
          var k :| 0 <= k < |s[1..]| && s[1..][k] == r[j];
          assert s[k + 1] == r[j];
        }
      } else {
        SubsequenceKeepsIds(r, s[1..], ids);
      }
    }
  }

  lemma {:induction false} SubsequenceMembers<T>(r: seq<T>, s: seq<T>)
    requires IsSubsequence(r, s)
    ensures forall x :: x in r ==> x in s
    decreases |s|
  {
    if r != [] {
      if r[0] == s[0] && IsSubsequence(r[1..], s[1..]) {
        SubsequenceMembers(r[1..], s[1..]);
        assert forall x :: x in r ==> x == r[0] || x in r[1..];
      } else {
        SubsequenceMembers(r, s[1..]);
      }
    }
  }

  /** The update log's RETAILER: `updatedItemData.RETAILER || oldItem.RETAILER`. */
  function UpdateRetailer(patch: Record, oldItem: Record): (r: Option<string>)
    ensures Truthy(Get(patch, RetailerKey)) ==> r == Get(patch, RetailerKey)
    ensures !Truthy(Get(patch, RetailerKey)) ==> r == Get(oldItem, RetailerKey)
  {
    if Truthy(Get(patch, RetailerKey)) then Get(patch, RetailerKey) else Get(oldItem, RetailerKey)
  }

  /** The log after `update(itemId, patch)` on `data`: unchanged when no
      record has that id, otherwise one `*_UPDATE` entry in front carrying
      the patch and the record it replaced. */
  ghost predicate UpdateLogged(ds: Dataset, data: seq<Record>, itemId: string, patch: Record, stamp: Stamp,
                               before: seq<LogEntry>, after: seq<LogEntry>) {
    && ((forall i :: 0 <= i < |data| ==> !HasId(data[i], itemId)) ==> after == before)
    && (forall i :: 0 <= i < |data| && HasId(data[i], itemId) ==>
          after == [NewEntry(stamp, ds.UpdateAction(), Some(itemId),
            ItemUpdated(UpdateRetailer(patch, data[i]), patch, data[i]))] + before)
  }

  /** The log after `delete(itemId)` on `data`: unchanged when no record has
      that id, otherwise one `*_DELETE` entry in front carrying the record
      it removed. */
  ghost predicate DeleteLogged(ds: Dataset, data: seq<Record>, itemId: string, stamp: Stamp,
                               before: seq<LogEntry>, after: seq<LogEntry>) {
    && ((forall i :: 0 <= i < |data| ==> !HasId(data[i], itemId)) ==> after == before)
    && (forall i :: 0 <= i < |data| && HasId(data[i], itemId) ==>
          after == [NewEntry(stamp, ds.DeleteAction(), Some(itemId),
            ItemDeleted(Get(data[i], RetailerKey), data[i]))] + before)
  }

  /** The collection and log after `add(newItem)` on `data`: one record
      appended, the input fields under an `_id` outside `issued`, and one
      `*_ADD` entry in front of the log carrying that id and record. */
  ghost predicate AddLogged(ds: Dataset, data: seq<Record>, newItem: Record, stamp: Stamp, issued: set<string>,
                            after: seq<Record>, logBefore: seq<LogEntry>, logAfter: seq<LogEntry>) {
    var n := |data|;
    && |after| == n + 1
    && after[..n] == data
    && IdKey in after[n] && after[n][IdKey] !in issued
    && after[n] == newItem[IdKey := after[n][IdKey]]
    && logAfter == [NewEntry(stamp, ds.AddAction(), Some(after[n][IdKey]),
         ItemAdded(Get(after[n], RetailerKey), after[n]))] + logBefore
  }

  /** Both collections hold records with distinct ids handed out by `gen`. */
  ghost predicate WellKeyed(data: seq<Record>, gen: RowIdGenerator)
    reads gen
  {
    IdsWithin(data, gen.Issued()) && DistinctIds(data)
  }

  class DataProvider {
    var productData: seq<Record>
    var eCommerceData: seq<Record>
    const gen: RowIdGenerator
    const log: LogProvider

    function Data(ds: Dataset): seq<Record>
      reads this
    {
      if ds == Products then productData else eCommerceData
    }

    ghost predicate Valid()
      reads this, gen, log
    {
      log.Valid() && WellKeyed(productData, gen) && WellKeyed(eCommerceData, gen)
    }

    /** Mounting: both collections are seeded from the bundled rows that pass
        their dataset's test, in order, each with a fresh `_id`. */
    constructor (log: LogProvider, gen: RowIdGenerator, initialProducts: seq<Record>, initialECommerce: seq<Record>)
      requires log.Valid()
      modifies gen
      ensures Valid() && this.log == log && this.gen == gen
      ensures Rekeyed(Filter(initialProducts, ProductSeedValid), productData)
      ensures Rekeyed(Filter(initialECommerce, ECommerceSeedValid), eCommerceData)
      ensures IdsWithin(productData, gen.Issued() - old(gen.Issued()))
      ensures IdsWithin(eCommerceData, gen.Issued() - old(gen.Issued()))
    {
      var products := AttachIds(gen, Filter(initialProducts, ProductSeedValid));
      var eCommerce := AttachIds(gen, Filter(initialECommerce, ECommerceSeedValid));
      this.log := log;
      this.gen := gen;
      productData := products;
      eCommerceData := eCommerce;
    }

    method SetData(ds: Dataset, rows: seq<Record>)
      requires Valid() && WellKeyed(rows, gen)
      modifies this
      ensures Valid()
      ensures Data(ds) == rows && Data(ds.Other()) == old(Data(ds.Other()))
    {
      if ds == Products {
        productData := rows;
      } else {
        eCommerceData := rows;
      }
    }

    /** `addProductItem` / `addECommerceItem`: the record, with a fresh `_id`
        overriding any it carried, is appended, and an `*_ADD` entry logged. */
    method AddItem(ds: Dataset, newItem: Record, stamp: Stamp) returns (id: string)
      requires Valid() && log.FreshStamp(stamp)
      modifies this, gen, log
      ensures Valid()
      ensures !log.storageAccepts ==> log.slot == old(log.slot)
      ensures UniqueEntryIds(old(log.logEntries)) ==> UniqueEntryIds(log.logEntries)
      ensures id !in old(gen.Issued())
      ensures Data(ds) == old(Data(ds)) + [newItem[IdKey := id]]
      ensures Data(ds.Other()) == old(Data(ds.Other()))
      ensures log.logEntries == [NewEntry(stamp, ds.AddAction(), Some(id),
        ItemAdded(Get(newItem[IdKey := id], RetailerKey), newItem[IdKey := id]))] + old(log.logEntries)
    {
      id := gen.Generate();
      var item := newItem[IdKey := id];
      var rows := Data(ds) + [item];
      AppendFreshId(Data(ds), item, old(gen.Issued()));
      SetData(ds, rows);
      log.AddLogEntry(stamp, ds.AddAction(), Some(id), ItemAdded(Get(item, RetailerKey), item));
    }

    /** `updateProductItem` / `updateECommerceItem`: records with that id take
        the patch over their fields and keep the id; an `*_UPDATE` entry is
        logged only when a record was found. */
    method UpdateItem(ds: Dataset, itemId: string, patch: Record, stamp: Stamp)
      requires Valid() && log.FreshStamp(stamp)
      modifies this, log
      ensures Valid()
      ensures !log.storageAccepts ==> log.slot == old(log.slot)
      ensures UniqueEntryIds(old(log.logEntries)) ==> UniqueEntryIds(log.logEntries)
      ensures Data(ds) == Updated(old(Data(ds)), itemId, patch)
      ensures Data(ds.Other()) == old(Data(ds.Other()))
      ensures UpdateLogged(ds, old(Data(ds)), itemId, patch, stamp, old(log.logEntries), log.logEntries)
      ensures (forall i :: 0 <= i < |old(Data(ds))| ==> !HasId(old(Data(ds))[i], itemId)) ==>
        Data(ds) == old(Data(ds)) && log.slot == old(log.slot)
    {
      var newData, oldItem := UpdateTraversal(Data(ds), itemId, patch);
      UpdatedKeepsIds(Data(ds), itemId, patch, gen.Issued());
      SetData(ds, newData);
      if oldItem.Some? {
        log.AddLogEntry(stamp, ds.UpdateAction(), Some(itemId),
          ItemUpdated(UpdateRetailer(patch, oldItem.value), patch, oldItem.value));
      }
      forall i | 0 <= i < |old(Data(ds))| && HasId(old(Data(ds))[i], itemId)
        ensures oldItem == Some(old(Data(ds))[i])
      {
        var at :| LastMatch(old(Data(ds)), itemId, at) && oldItem.value == old(Data(ds))[at];
        assert at == i by {
          assert old(Data(ds))[i][IdKey] == old(Data(ds))[at][IdKey];
        }
      }
    }

    /** `deleteProductItem` / `deleteECommerceItem`: the records with that id
        are dropped; a `*_DELETE` entry is logged only when one was found. */
    method DeleteItem(ds: Dataset, itemId: string, stamp: Stamp)
      requires Valid() && log.FreshStamp(stamp)
      modifies this, log
      ensures Valid()
      ensures !log.storageAccepts ==> log.slot == old(log.slot)
      ensures UniqueEntryIds(old(log.logEntries)) ==> UniqueEntryIds(log.logEntries)
      ensures Data(ds) == Deleted(old(Data(ds)), itemId)
      ensures Data(ds.Other()) == old(Data(ds.Other()))
      ensures DeleteLogged(ds, old(Data(ds)), itemId, stamp, old(log.logEntries), log.logEntries)
      ensures (forall i :: 0 <= i < |old(Data(ds))| ==> !HasId(old(Data(ds))[i], itemId)) ==>
        Data(ds) == old(Data(ds)) && log.slot == old(log.slot)
      ensures forall i :: 0 <= i < |old(Data(ds))| && HasId(old(Data(ds))[i], itemId) ==>
        |Data(ds)| == |old(Data(ds))| - 1
    {
      var kept, deletedItem := DeleteTraversal(Data(ds), itemId);
      DeletedKeepsIds(Data(ds), itemId, gen.Issued());
      if forall i :: 0 <= i < |Data(ds)| ==> !HasId(Data(ds)[i], itemId) {
        DeleteMissingIsNoOp(Data(ds), itemId);
      }
      SetData(ds, kept);
      if deletedItem.Some? {
        log.AddLogEntry(stamp, ds.DeleteAction(), Some(itemId),
          ItemDeleted(Get(deletedItem.value, RetailerKey), deletedItem.value));
      }
      forall i | 0 <= i < |old(Data(ds))| && HasId(old(Data(ds))[i], itemId)
        ensures deletedItem == Some(old(Data(ds))[i]) && |Data(ds)| == |old(Data(ds))| - 1
      {
        var at :| LastMatch(old(Data(ds)), itemId, at) && deletedItem.value == old(Data(ds))[at];
        assert at == i by {
          assert old(Data(ds))[i][IdKey] == old(Data(ds))[at][IdKey];
        }
        DeleteRemovesOne(old(Data(ds)), itemId, i);
      }
    }
  }
}
