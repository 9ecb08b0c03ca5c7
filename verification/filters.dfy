/**
 * The filter chain of the list page (routes/index.mjs, `GET /`): up to three
 * exact-equality filters on `departamento`, `municipio` and `fecha`, each applied
 * only when its query value is present and non-empty.
 */
module Filters {
  import opened Wrappers
  import opened Sequences
  import opened Records

  /** The query string of the list page; `None` is an absent parameter. */
  datatype Query = Query(departamento: Option<string>, municipio: Option<string>, fecha: Option<string>)

  /** The three filterable fields. */
  datatype Field = Departamento | Municipio | Fecha

  /** A query value is applied when it is truthy: present and not the empty string. */
  predicate IsGiven(param: Option<string>) {
    param.Some? && param.value != ""
  }

  function Param(q: Query, f: Field): Option<string> {
    match f
    case Departamento => q.departamento
    case Municipio => q.municipio
    case Fecha => q.fecha
  }

  function ValueOf(r: Record, f: Field): string {
    match f
    case Departamento => r.departamento
    case Municipio => r.municipio
    case Fecha => r.fecha
  }

  /** `r` passes the filter on field `f`: the field is not filtered, or equals the query value. */
  predicate Admits(q: Query, f: Field, r: Record) {
    IsGiven(Param(q, f)) ==> ValueOf(r, f) == Param(q, f).value
  }

  /** `r` passes all three filters. */
  predicate Matches(r: Record, q: Query) {
    Admits(q, Departamento, r) && Admits(q, Municipio, r) && Admits(q, Fecha, r)
  }

  /** The records the list page shows: those matching the query, in stored order. */
  function Selected(data: seq<Record>, q: Query): (r: seq<Record>)
    ensures forall i :: 0 <= i < |r| ==> r[i] in data && Matches(r[i], q)
    ensures forall i :: 0 <= i < |data| && Matches(data[i], q) ==> data[i] in r
  {
    Filter(data, x => Matches(x, q))
  }

  /** One step of the chain: filter by field `f` if its query value is given, else keep everything. */
  function FilterStep(s: seq<Record>, q: Query, f: Field): seq<Record> {
    if IsGiven(Param(q, f)) then Filter(s, x => ValueOf(x, f) == Param(q, f).value) else s
  }

  /** The filter chain as the handler runs it, rebinding `filtered` after each given parameter. */
  method ApplyFilters(data: seq<Record>, q: Query) returns (filtered: seq<Record>)
    ensures filtered == Selected(data, q)
  {
    filtered := data;
    if IsGiven(q.departamento) {
      filtered := Filter(filtered, (x: Record) => x.departamento == q.departamento.value);
    }
    assert filtered == FilterStep(data, q, Departamento) by {
      if IsGiven(q.departamento) {
        FilterExtensional(data, (x: Record) => x.departamento == q.departamento.value,
                          x => ValueOf(x, Departamento) == Param(q, Departamento).value);
      }
    }
    ghost var afterDepartamento := filtered;
    if IsGiven(q.municipio) {
      filtered := Filter(filtered, (x: Record) => x.municipio == q.municipio.value);
    }
    assert filtered == FilterStep(afterDepartamento, q, Municipio) by {
      if IsGiven(q.municipio) {
        FilterExtensional(afterDepartamento, (x: Record) => x.municipio == q.municipio.value,
                          x => ValueOf(x, Municipio) == Param(q, Municipio).value);
      }
    }
    ghost var afterMunicipio := filtered;
    if IsGiven(q.fecha) {
      filtered := Filter(filtered, (x: Record) => x.fecha == q.fecha.value);
    }
    assert filtered == FilterStep(afterMunicipio, q, Fecha) by {
      if IsGiven(q.fecha) {
        FilterExtensional(afterMunicipio, (x: Record) => x.fecha == q.fecha.value,
                          x => ValueOf(x, Fecha) == Param(q, Fecha).value);
      }
    }
    AnyOrderSelects(data, q, Departamento, Municipio, Fecha);
  }

  /** A step of the chain is a filter by `Admits`, whether or not its parameter is given. */
  lemma StepIsFilter(s: seq<Record>, q: Query, f: Field)
    ensures FilterStep(s, q, f) == Filter(s, x => Admits(q, f, x))
  {
    if IsGiven(Param(q, f)) {
      FilterExtensional(s, x => ValueOf(x, f) == Param(q, f).value, x => Admits(q, f, x));
    } else {
      FilterKeepsAll(s, x => Admits(q, f, x));
    }
  }

  /** The three steps give the selection whatever order they run in. */
  lemma AnyOrderSelects(data: seq<Record>, q: Query, f1: Field, f2: Field, f3: Field)
    requires f1 != f2 && f2 != f3 && f1 != f3
    ensures FilterStep(FilterStep(FilterStep(data, q, f1), q, f2), q, f3) == Selected(data, q)
  {
    var a1 := x => Admits(q, f1, x);
    var a2 := x => Admits(q, f2, x);
    var a3 := x => Admits(q, f3, x);
    var a12 := x => Admits(q, f1, x) && Admits(q, f2, x);
    var a123 := x => Admits(q, f1, x) && Admits(q, f2, x) && Admits(q, f3, x);
    StepIsFilter(data, q, f1);
    var s1 := Filter(data, a1);
    StepIsFilter(s1, q, f2);
    var s2 := Filter(s1, a2);
    StepIsFilter(s2, q, f3);
    FilterFusion(data, a1, a2, a12);
    FilterFusion(data, a12, a3, a123);
    forall x | x in data
      ensures a123(x) == Matches(x, q)
    {
      assert f1 == Departamento || f2 == Departamento || f3 == Departamento;
      assert f1 == Municipio || f2 == Municipio || f3 == Municipio;
      assert f1 == Fecha || f2 == Fecha || f3 == Fecha;
    }
    FilterExtensional(data, a123, x => Matches(x, q));
  }

  /** The selection is an order-preserving subsequence holding every matching record as often as stored. */
  lemma SelectedIsSubsequence(data: seq<Record>, q: Query)
    ensures IsSubsequence(Selected(data, q), data)
    ensures forall r :: multiset(Selected(data, q))[r] == if Matches(r, q) then multiset(data)[r] else 0
  {
    FilterIsSubsequence(data, x => Matches(x, q));
    FilterCounts(data, x => Matches(x, q));
  }

  /** With no parameter given, the list shows every stored record. */
  lemma NoFilterKeepsAll(data: seq<Record>, q: Query)
    requires !IsGiven(q.departamento) && !IsGiven(q.municipio) && !IsGiven(q.fecha)
    ensures Selected(data, q) == data
  {
    FilterKeepsAll(data, x => Matches(x, q));
  }

  /** The query with parameter `f` removed. */
  function Without(q: Query, f: Field): Query {
    match f
    case Departamento => q.(departamento := None)
    case Municipio => q.(municipio := None)
    case Fecha => q.(fecha := None)
  }

  /** A parameter that is empty gives the same selection as one that is absent. */
  lemma UngivenParameterIsSkipped(data: seq<Record>, q: Query, f: Field)
    requires !IsGiven(Param(q, f))
    ensures Selected(data, q) == Selected(data, Without(q, f))
  {
    var unset := Without(q, f);
    FilterExtensional(data, x => Matches(x, q), x => Matches(x, unset));
  }
}
