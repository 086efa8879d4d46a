/** A stand-in for `generateRowId`. Its concrete format is not part of this
    model; what the dashboard relies on is that every call returns an id no
    earlier call returned, which this counter-based generator guarantees. */
module IdUtils {
  import opened JsStrings
  import opened Records

  function RowId(k: nat): string {
    "row-" + NatToDecimal(k)
  }

  lemma RowIdInjective(j: nat, k: nat)
    requires RowId(j) == RowId(k)
    ensures j == k
  {
    assert RowId(j)[4..] == NatToDecimal(j);
    assert RowId(k)[4..] == NatToDecimal(k);
    NatToDecimalInjective(j, k);
  }

  /** `recs` are `rows` with their `_id` field set, one by one, and nothing
      else changed: `rows.map(row => ({ ...row, _id: ... }))`. */
  ghost predicate Rekeyed(rows: seq<Record>, recs: seq<Record>) {
    && |recs| == |rows|
    && forall i :: 0 <= i < |recs| ==> IdKey in recs[i] && recs[i] == rows[i][IdKey := recs[i][IdKey]]
  }

  /** Every record of `recs` has an `_id`, and no two share one. */
  ghost predicate DistinctIds(recs: seq<Record>) {
    && (forall i :: 0 <= i < |recs| ==> IdKey in recs[i])
    && (forall i, j :: 0 <= i < j < |recs| ==> recs[i][IdKey] != recs[j][IdKey])
  }

  /** Every `_id` in `recs` belongs to `ids`. */
  ghost predicate IdsWithin(recs: seq<Record>, ids: set<string>) {
    forall i :: 0 <= i < |recs| ==> IdKey in recs[i] && recs[i][IdKey] in ids
  }

  /** Appending a record whose id is not yet used keeps the ids distinct. */
  lemma AppendFreshId(recs: seq<Record>, r: Record, ids: set<string>)
    requires IdsWithin(recs, ids) && DistinctIds(recs)
    requires IdKey in r && r[IdKey] !in ids
    ensures IdsWithin(recs + [r], ids + {r[IdKey]}) && DistinctIds(recs + [r])
  {
  }

  /** With distinct ids, only one record carries a given id. */
  lemma OnlyOneWithId(recs: seq<Record>, i: int)
    requires DistinctIds(recs) && 0 <= i < |recs|
    ensures forall j :: 0 <= j < |recs| && j != i ==> recs[j][IdKey] != recs[i][IdKey]
  {
    forall j | 0 <= j < |recs| && j != i
      ensures recs[j][IdKey] != recs[i][IdKey]
    {
      if j < i {
        assert recs[j][IdKey] != recs[i][IdKey];
      } else {
        assert recs[i][IdKey] != recs[j][IdKey];
      }
    }
  }

  class RowIdGenerator {
    var next: nat

    /** The ids handed out so far. */
    ghost function Issued(): set<string>
      reads this
    {
      set k | 0 <= k < next :: RowId(k)
    }

    constructor ()
      ensures Issued() == {}
    {
      next := 0;
    }

    /** `generateRowId()`: an id never handed out before. */
    method Generate() returns (id: string)
      modifies this
      ensures id !in old(Issued())
      ensures Issued() == old(Issued()) + {id}
    {
      id := RowId(next);
      forall k | 0 <= k < next
        ensures RowId(k) != id
      {
        if RowId(k) == id {
          RowIdInjective(k, next);
        }
      }
      next := next + 1;
    }
  }

  /** `rows.map(row => ({ ...row, _id: generateRowId() }))`: each row gets a
      fresh id, overriding any `_id` it already carried. */
  method AttachIds(gen: RowIdGenerator, rows: seq<Record>) returns (recs: seq<Record>)
    modifies gen
    ensures Rekeyed(rows, recs)
    ensures DistinctIds(recs)
    ensures IdsWithin(recs, gen.Issued() - old(gen.Issued()))
    ensures old(gen.Issued()) <= gen.Issued()
  {
    recs := [];
    var i := 0;
    while i < |rows|
      invariant 0 <= i <= |rows|
      invariant Rekeyed(rows[..i], recs)
      invariant DistinctIds(recs)
      invariant IdsWithin(recs, gen.Issued() - old(gen.Issued()))
      invariant old(gen.Issued()) <= gen.Issued()
    {
      ghost var before := gen.Issued();
      var id := gen.Generate();
      AppendFreshId(recs, rows[i][IdKey := id], before - old(gen.Issued()));
      recs := recs + [rows[i][IdKey := id]];
      i := i + 1;
    }
    assert rows[..i] == rows;
  }
}
