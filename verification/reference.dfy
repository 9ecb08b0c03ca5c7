/**
 * The reference resolver of the list page (routes/index.mjs, `GET /`) and the
 * towns-by-department API (`GET /api/towns/:departmentCode`).
 */
module Reference {
  import opened Wrappers
  import opened Sequences
  import opened Records

  /** The fallback display name when a code matches no reference entry. */
  const UNKNOWN_NAME: string := "Desconocido"

  /** `departments.find(d => d.code === code)`, then its name or the fallback. */
  function DepartmentName(departments: seq<Department>, code: string): (name: string)
    ensures (forall j :: 0 <= j < |departments| ==> departments[j].code != code) ==> name == UNKNOWN_NAME
    ensures forall i :: 0 <= i < |departments| && departments[i].code == code ==>
      (exists j :: 0 <= j < i && departments[j].code == code) || name == departments[i].name
  {
    match FindIndex(departments, (d: Department) => d.code == code)
    case Some(i) => departments[i].name
    case None => UNKNOWN_NAME
  }

  /** `towns.find(t => t.code === code)`, then its name or the fallback; the town's department is not consulted. */
  function TownName(towns: seq<Town>, code: string): (name: string)
    ensures (forall j :: 0 <= j < |towns| ==> towns[j].code != code) ==> name == UNKNOWN_NAME
    ensures forall i :: 0 <= i < |towns| && towns[i].code == code ==>
      (exists j :: 0 <= j < i && towns[j].code == code) || name == towns[i].name
  {
    match FindIndex(towns, (t: Town) => t.code == code)
    case Some(i) => towns[i].name
    case None => UNKNOWN_NAME
  }

  /** The object spread `{ ...item, departamentoNombre, municipioNombre }`. */
  function EnrichRecord(item: Record, departments: seq<Department>, towns: seq<Town>): (e: EnrichedRecord)
    ensures e.Base() == item
    ensures e.departamentoNombre == DepartmentName(departments, item.departamento)
    ensures e.municipioNombre == TownName(towns, item.municipio)
  {
    EnrichedRecord(item.id, item.fecha, item.departamento, item.municipio, item.descripcion,
                   DepartmentName(departments, item.departamento), TownName(towns, item.municipio))
  }

  /** `data.map(...)`: every record, in order, with its two display names. */
  function Enrich(data: seq<Record>, departments: seq<Department>, towns: seq<Town>): (r: seq<EnrichedRecord>)
    ensures |r| == |data|
    ensures forall i :: 0 <= i < |data| ==> r[i].Base() == data[i]
    ensures forall i :: 0 <= i < |data| ==>
      r[i].departamentoNombre == DepartmentName(departments, data[i].departamento) &&
      r[i].municipioNombre == TownName(towns, data[i].municipio)
  {
    if data == [] then []
    else [EnrichRecord(data[0], departments, towns)] + Enrich(data[1..], departments, towns)
  }

  /** Filtering then enriching, as the page does, equals enriching then filtering on the original fields. */
  lemma {:induction false} EnrichCommutesWithFilter(
    data: seq<Record>, departments: seq<Department>, towns: seq<Town>, keep: Record -> bool)
    ensures Enrich(Filter(data, keep), departments, towns)
         == Filter(Enrich(data, departments, towns), (e: EnrichedRecord) => keep(e.Base()))
  {
    if data != [] {
      EnrichCommutesWithFilter(data[1..], departments, towns, keep);
    }
  }

  /** The town name depends on the municipality code alone, not on the record's department. */
  lemma TownNameIgnoresDepartment(a: Record, b: Record, departments: seq<Department>, towns: seq<Town>)
    requires a.municipio == b.municipio
    ensures EnrichRecord(a, departments, towns).municipioNombre == EnrichRecord(b, departments, towns).municipioNombre
  {
  }

  /** `towns.filter(town => town.department === departmentCode)`. */
  function TownsOfDepartment(towns: seq<Town>, code: string): (r: seq<Town>)
    ensures forall i :: 0 <= i < |r| ==> r[i] in towns && r[i].department == code
    ensures forall i :: 0 <= i < |towns| && towns[i].department == code ==> towns[i] in r
  {
    Filter(towns, (t: Town) => t.department == code)
  }

  /** The towns of a department, in stored order, each as often as stored; none for an unknown code. */
  lemma TownsOfDepartmentIsSubsequence(towns: seq<Town>, code: string)
    ensures IsSubsequence(TownsOfDepartment(towns, code), towns)
    ensures forall t :: multiset(TownsOfDepartment(towns, code))[t] == if t.department == code then multiset(towns)[t] else 0
    ensures (forall j :: 0 <= j < |towns| ==> towns[j].department != code) ==> TownsOfDepartment(towns, code) == []
  {
    FilterIsSubsequence(towns, (t: Town) => t.department == code);
    FilterCounts(towns, (t: Town) => t.department == code);
  }
}
