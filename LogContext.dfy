/** The audit log: a most-recent-first sequence of entries, mirrored to one
    browser storage slot after every change and reloaded when the provider
    mounts. The slot is abstract: it holds the sequence itself rather than
    its JSON text. */
module LogContext {
  import opened Records

  datatype ActionType =
    | ProductCatalogAdd | ProductCatalogUpdate | ProductCatalogDelete | ProductCatalogCsvUpload
    | ECommerceAdd | ECommerceUpdate | ECommerceDelete | ECommerceCsvUpload
  {
    /** The tag stored in the entry's `actionType` field. */
    function Tag(): string {
      match this
      case ProductCatalogAdd => "PRODUCT_CATALOG_ADD"
      case ProductCatalogUpdate => "PRODUCT_CATALOG_UPDATE"
      case ProductCatalogDelete => "PRODUCT_CATALOG_DELETE"
      case ProductCatalogCsvUpload => "PRODUCT_CATALOG_CSV_UPLOAD"
      case ECommerceAdd => "ECOMMERCE_ADD"
      case ECommerceUpdate => "ECOMMERCE_UPDATE"
      case ECommerceDelete => "ECOMMERCE_DELETE"
      case ECommerceCsvUpload => "ECOMMERCE_CSV_UPLOAD"
    }
  }

  /** The `details` object of an entry, one shape per kind of caller;
      `NoDetails` is the default `{}`. */
  datatype Details =
    | NoDetails
    | ItemAdded(retailer: Option<string>, newItemData: Record)
    | ItemUpdated(retailer: Option<string>, updatedFields: Record, oldItemData: Record)
    | ItemDeleted(retailer: Option<string>, deletedItemData: Record)
    | CsvUploaded(message: string, fileName: string)

  datatype LogEntry = LogEntry(timestamp: string, actionType: ActionType, itemId: Option<string>, details: Details, id: string)

  /** What the environment supplies when an entry is made: the ISO clock
      reading and the entry's own random id. */
  datatype Stamp = Stamp(timestamp: string, entryId: string)

  /** The storage slot: absent or empty, a stored log, or content that cannot
      be read back (a read that throws or text that does not parse). */
  datatype Slot = Missing | Saved(entries: seq<LogEntry>) | Broken

  function NewEntry(stamp: Stamp, actionType: ActionType, itemId: Option<string> := None, details: Details := NoDetails): (e: LogEntry)
    ensures e.actionType == actionType && e.itemId == itemId && e.details == details
    ensures e.timestamp == stamp.timestamp && e.id == stamp.entryId
  {
    LogEntry(stamp.timestamp, actionType, itemId, details, stamp.entryId)
  }

  /** An entry made without an item id or details gets null and `{}`. */
  lemma NewEntryDefaults(stamp: Stamp, actionType: ActionType)
    ensures NewEntry(stamp, actionType) == LogEntry(stamp.timestamp, actionType, None, NoDetails, stamp.entryId)
  {
  }

  /** The ids carried by the entries of a log. */
  ghost function EntryIds(entries: seq<LogEntry>): set<string> {
    set e | e in entries :: e.id
  }

  /** No two entries of a log share an id. */
  ghost predicate UniqueEntryIds(entries: seq<LogEntry>) {
    forall i, j :: 0 <= i < j < |entries| ==> entries[i].id != entries[j].id
  }

  /** An entry whose id is new to a log of distinct ids keeps the ids
      distinct when it is put at the head. */
  lemma FreshEntryKeepsIdsUnique(e: LogEntry, entries: seq<LogEntry>)
    requires UniqueEntryIds(entries) && e.id !in EntryIds(entries)
    ensures UniqueEntryIds([e] + entries)
  {
    var s := [e] + entries;
    forall i, j | 0 <= i < j < |s| ensures s[i].id != s[j].id {
      if i == 0 {
        assert s[j] == entries[j - 1];
        assert entries[j - 1] in entries;
      } else {
        assert s[i] == entries[i - 1] && s[j] == entries[j - 1];
      }
    }
  }

  /** Putting an entry at the head adds exactly its id to the log's ids. */
  lemma EntryIdsOfHead(e: LogEntry, entries: seq<LogEntry>)
    ensures EntryIds([e] + entries) == EntryIds(entries) + {e.id}
  {
    var s := [e] + entries;
    forall x | x in s ensures x == e || x in entries {
      var k :| 0 <= k < |s| && s[k] == x;
      if k > 0 {
        assert s[k] == entries[k - 1];
      }
    }
    assert e in s;
    forall x | x in entries ensures x in s {
      var k :| 0 <= k < |entries| && entries[k] == x;
      assert s[k + 1] == x;
    }
  }

  /** The log the mount effect starts from: a failure to read or to parse is
      swallowed and leaves the log empty. */
  function Loaded(slot: Slot): (entries: seq<LogEntry>)
    ensures slot.Saved? ==> entries == slot.entries
    ensures !slot.Saved? ==> entries == []
  {
    match slot
    case Saved(es) => es
    case _ => []
  }

  class LogProvider {
    var logEntries: seq<LogEntry>
    var slot: Slot
    /** Whether the storage accepts writes; a rejected write (quota exceeded)
        is caught and leaves the slot as it was. */
    const storageAccepts: bool

    /** When storage accepts writes, the slot mirrors the log. */
    ghost predicate Valid()
      reads this
    {
      storageAccepts ==> slot == Saved(logEntries)
    }

    /** Mounting: the load effect reads the slot, then the save effect
        writes the log back. */
    constructor (stored: Slot, storageAccepts: bool)
      ensures Valid()
      ensures logEntries == Loaded(stored)
      ensures this.storageAccepts == storageAccepts
      ensures slot == if storageAccepts then Saved(logEntries) else stored
    {
      this.storageAccepts := storageAccepts;
      logEntries := [];
      slot := stored;
      new;
      match stored {
        case Saved(es) => logEntries := es;
        case Missing =>
        case Broken =>
      }
      Save();
    }

    /** The save effect: `localStorage.setItem(key, JSON.stringify(log))`. */
    method Save()
      modifies this`slot
      ensures Valid()
      ensures slot == if storageAccepts then Saved(logEntries) else old(slot)
    {
      if storageAccepts {
        slot := Saved(logEntries);
      }
    }

    /** The stamp's id is one no entry of the log carries yet. */
    ghost predicate FreshStamp(stamp: Stamp)
      reads this
    {
      stamp.entryId !in EntryIds(logEntries)
    }

    /** `addLogEntry`: the new entry, under an id not yet in the log, goes
        to the head of the log. */
    method AddLogEntry(stamp: Stamp, actionType: ActionType, itemId: Option<string> := None, details: Details := NoDetails)
      requires FreshStamp(stamp)
      modifies this`logEntries, this`slot
      ensures logEntries == [NewEntry(stamp, actionType, itemId, details)] + old(logEntries)
      ensures Valid()
      ensures slot == if storageAccepts then Saved(logEntries) else old(slot)
      ensures EntryIds(logEntries) == EntryIds(old(logEntries)) + {stamp.entryId}
      ensures UniqueEntryIds(old(logEntries)) ==> UniqueEntryIds(logEntries)
    {
      var e := NewEntry(stamp, actionType, itemId, details);
      if UniqueEntryIds(logEntries) {
        FreshEntryKeepsIdsUnique(e, logEntries);
      }
      EntryIdsOfHead(e, logEntries);
      logEntries := [e] + logEntries;
      Save();
    }

    /** `clearLogEntries`: the log becomes empty, and so does the slot. */
    method ClearLogEntries()
      modifies this`logEntries, this`slot
      ensures logEntries == []
      ensures Valid()
      ensures slot == if storageAccepts then Saved([]) else old(slot)
    {
      logEntries := [];
      Save();
    }
  }

  /** Clearing the log and mounting again from the slot it left behind
      starts from an empty log. */
  method ClearThenReload(p: LogProvider) returns (q: LogProvider)
    requires p.Valid() && p.storageAccepts
    modifies p
    ensures fresh(q) && q.logEntries == [] && q.Valid()
  {
    p.ClearLogEntries();
    q := new LogProvider(p.slot, true);
  }

  /** Mounting again from a slot the log was saved to gives back the same log. */
  method SaveThenReload(p: LogProvider) returns (q: LogProvider)
    requires p.Valid() && p.storageAccepts
    ensures fresh(q) && q.logEntries == p.logEntries && q.Valid()
  {
    q := new LogProvider(p.slot, true);
  }
}
