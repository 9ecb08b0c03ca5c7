/**
 * The record mutator: the id computation and append of `POST /` and the id
 * filter of `POST /delete/:id` (routes/index.mjs).
 */
module Mutations {
  import opened Wrappers
  import opened Sequences
  import opened Records

  /** No two records share an id. */
  ghost predicate UniqueIds(data: seq<Record>) {
    forall i, j :: 0 <= i < j < |data| ==> data[i].id != data[j].id
  }

  /** `Math.max(...data.map(item => item.id))` on a non-empty collection. */
  function MaxId(data: seq<Record>): (m: int)
    requires data != []
    ensures forall i :: 0 <= i < |data| ==> data[i].id <= m
    ensures exists i :: 0 <= i < |data| && data[i].id == m
  {
    if |data| == 1 then data[0].id
    else
      var rest := MaxId(data[1..]);
      if data[0].id >= rest then data[0].id else rest
  }

  /** The id of a new record: one past the largest id, or 1 for an empty collection. */
  function NextId(data: seq<Record>): (id: int)
    ensures forall i :: 0 <= i < |data| ==> data[i].id < id
    ensures data == [] ==> id == 1
    ensures data != [] ==> exists i :: 0 <= i < |data| && data[i].id == id - 1
  {
    if |data| > 0 then MaxId(data) + 1 else 1
  }

  /** The record built from the submitted form, with no validation of its fields. */
  function NewRecord(data: seq<Record>, form: Form): (r: Record)
    ensures forall i :: 0 <= i < |data| ==> data[i].id != r.id
    ensures r.fecha == form.fecha && r.departamento == form.departamento
    ensures r.municipio == form.municipio && r.descripcion == form.descripcion
  {
    Record(NextId(data), form.fecha, form.departamento, form.municipio, form.descripcion)
  }

  /** `data.push(newRecord)`: the collection grows by the new record at the end. */
  method AppendRecord(data: seq<Record>, form: Form) returns (updated: seq<Record>)
    ensures |updated| == |data| + 1
    ensures updated[..|data|] == data
    ensures updated[|data|] == NewRecord(data, form)
    ensures UniqueIds(data) ==> UniqueIds(updated)
  {
    var newRecord := NewRecord(data, form);
    updated := data + [newRecord];
  }

  /**
   * `data.filter(item => item.id !== id)` where `id` comes from `parseInt`;
   * `None` stands for NaN, which is unequal to every id.
   */
  function RemoveId(data: seq<Record>, target: Option<int>): (r: seq<Record>)
    ensures forall i :: 0 <= i < |r| ==> r[i] in data && (target.Some? ==> r[i].id != target.value)
    ensures forall i :: 0 <= i < |data| && (target.None? || data[i].id != target.value) ==> data[i] in r
  {
    Filter(data, (x: Record) => target.None? || x.id != target.value)
  }

  /** Delete keeps the other records in order, each as often as before. */
  lemma RemoveIdKeepsOthers(data: seq<Record>, target: Option<int>)
    ensures IsSubsequence(RemoveId(data, target), data)
    ensures forall x :: multiset(RemoveId(data, target))[x] ==
                       (if target.Some? && x.id == target.value then 0 else multiset(data)[x])
  {
    FilterIsSubsequence(data, (x: Record) => target.None? || x.id != target.value);
    FilterCounts(data, (x: Record) => target.None? || x.id != target.value);
  }

  /** Deleting NaN, or an id no record has, leaves the collection unchanged. */
  lemma RemoveAbsentId(data: seq<Record>, target: Option<int>)
    requires target.Some? ==> forall i :: 0 <= i < |data| ==> data[i].id != target.value
    ensures RemoveId(data, target) == data
  {
    FilterKeepsAll(data, (x: Record) => target.None? || x.id != target.value);
  }

  /** Deleting the same id twice is deleting it once. */
  lemma RemoveIdIdempotent(data: seq<Record>, target: Option<int>)
    ensures RemoveId(RemoveId(data, target), target) == RemoveId(data, target)
  {
    FilterIdempotent(data, (x: Record) => target.None? || x.id != target.value);
  }

  /** With unique ids, deleting a present id removes exactly one record, and uniqueness survives. */
  lemma {:induction false} RemovePresentId(data: seq<Record>, id: int)
    requires UniqueIds(data)
    requires exists i :: 0 <= i < |data| && data[i].id == id
    ensures |RemoveId(data, Some(id))| == |data| - 1
    ensures UniqueIds(RemoveId(data, Some(id)))
  {
    var rest := data[1..];
    assert UniqueIds(rest);
    if data[0].id == id {
      RemoveAbsentId(rest, Some(id));
      assert RemoveId(data, Some(id)) == RemoveId(rest, Some(id));
    } else {
      RemovePresentId(rest, id);
      assert RemoveId(data, Some(id)) == [data[0]] + RemoveId(rest, Some(id));
      var r := RemoveId(rest, Some(id));
      forall j | 0 <= j < |r|
        ensures data[0].id != r[j].id
      {
        assert r[j] in rest;
      }
    }
  }
}
