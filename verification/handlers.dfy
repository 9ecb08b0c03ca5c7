/**
 * The four routes of routes/index.mjs that touch the records, with the Express
 * response reduced to a value: a rendered list, a redirect, a server error or a
 * JSON array. Each handler receives the documents it reads and, when it writes,
 * how the write ends.
 */
module Handlers {
  import opened Wrappers
  import opened Records
  import opened Storage
  import opened Filters
  import opened Reference
  import opened Mutations
  import opened JsParseInt

  datatype Response =
    | RenderIndex(data: seq<EnrichedRecord>, departments: seq<Department>,
                  selectedDepartment: string, selectedMunicipio: string, selectedFecha: string)
    | RenderAddRecord(formDepartments: seq<Department>)
    | Redirect(location: string)
    | ServerError(status: int, message: string)
    | TownsJson(towns: seq<Town>)

  const SAVE_ERROR: string := "Error al guardar el registro"
  const DELETE_ERROR: string := "Error al eliminar el registro"

  /** `param || ''`: the value echoed back into the filter form. */
  function Selection(param: Option<string>): (s: string)
    ensures IsGiven(param) ==> s == param.value
    ensures !IsGiven(param) ==> s == ""
  {
    if IsGiven(param) then param.value else ""
  }

  /** `GET /`: load the three documents, filter, enrich, render. */
  method ListRecords(dataDoc: Document<Record>, departmentsDoc: Document<Department>,
                     townsDoc: Document<Town>, q: Query) returns (resp: Response)
    ensures resp.RenderIndex? && resp.departments == ReadJsonFile(departmentsDoc)
    ensures resp.data == Enrich(Selected(ReadJsonFile(dataDoc), q), resp.departments, ReadJsonFile(townsDoc))
    ensures |resp.data| <= |ReadJsonFile(dataDoc)|
    ensures forall i :: 0 <= i < |resp.data| ==>
              resp.data[i].Base() in ReadJsonFile(dataDoc) && Matches(resp.data[i].Base(), q)
    ensures resp.selectedDepartment == Selection(q.departamento)
    ensures resp.selectedMunicipio == Selection(q.municipio)
    ensures resp.selectedFecha == Selection(q.fecha)
  {
    var data := ReadJsonFile(dataDoc);
    var departments := ReadJsonFile(departmentsDoc);
    var towns := ReadJsonFile(townsDoc);
    var filteredData := ApplyFilters(data, q);
    var enriched := Enrich(filteredData, departments, towns);
    resp := RenderIndex(enriched, departments,
                        Selection(q.departamento), Selection(q.municipio), Selection(q.fecha));
  }

  /** `GET /new-record`: the creation form, offered the stored departments (none when unreadable). */
  function NewRecordForm(departmentsDoc: Document<Department>): (resp: Response)
    ensures resp.RenderAddRecord?
    ensures departmentsDoc.Stored? ==> resp.formDepartments == departmentsDoc.items
    ensures !departmentsDoc.Stored? ==> resp.formDepartments == []
  {
    RenderAddRecord(ReadJsonFile(departmentsDoc))
  }

  /** `POST /`: load, append the new record, write back; redirect on success. */
  method CreateRecord(dataDoc: Document<Record>, form: Form, outcome: WriteOutcome<Record>)
    returns (saved: Document<Record>, resp: Response)
    ensures outcome.Completed? ==>
              resp == Redirect("/") &&
              saved == Stored(ReadJsonFile(dataDoc) + [NewRecord(ReadJsonFile(dataDoc), form)])
    ensures outcome.Failed? ==> resp == ServerError(500, SAVE_ERROR) && saved == outcome.leftBehind
    ensures outcome.Completed? && UniqueIds(ReadJsonFile(dataDoc)) ==> UniqueIds(saved.items)
    ensures outcome.Completed? && !dataDoc.Stored? ==>
              saved == Stored([Record(1, form.fecha, form.departamento, form.municipio, form.descripcion)])
  {
    var data := ReadJsonFile(dataDoc);
    data := AppendRecord(data, form);
    var written := WriteJsonFile(data, outcome);
    saved := written.0;
    if written.1 {
      resp := Redirect("/");
    } else {
      resp := ServerError(500, SAVE_ERROR);
    }
  }

  /** `POST /delete/:id`: parse the id, load, drop the records with that id, write back. */
  function DeleteRecord(idParam: string, dataDoc: Document<Record>, outcome: WriteOutcome<Record>)
    : (r: (Document<Record>, Response))
    ensures r.1 == Redirect("/") <==> outcome.Completed?
    ensures outcome.Failed? ==> r == (outcome.leftBehind, ServerError(500, DELETE_ERROR))
    ensures outcome.Completed? ==> r.0 == Stored(RemoveId(ReadJsonFile(dataDoc), ParseInt(idParam)))
    ensures outcome.Completed? && ParseInt(idParam).None? ==> r.0 == Stored(ReadJsonFile(dataDoc))
  {
    var id := ParseInt(idParam);
    var data := ReadJsonFile(dataDoc);
    var filteredData := RemoveId(data, id);
    var written := WriteJsonFile(filteredData, outcome);
    assert id.None? ==> filteredData == data by {
      if id.None? {
        RemoveAbsentId(data, id);
      }
    }
    (written.0, if written.1 then Redirect("/") else ServerError(500, DELETE_ERROR))
  }

  /** `GET /api/towns/:departmentCode`. */
  function TownsByDepartment(departmentCode: string, townsDoc: Document<Town>): (resp: Response)
    ensures resp.TownsJson?
    ensures resp.towns == TownsOfDepartment(ReadJsonFile(townsDoc), departmentCode)
    ensures forall i :: 0 <= i < |resp.towns| ==>
              resp.towns[i] in ReadJsonFile(townsDoc) && resp.towns[i].department == departmentCode
    ensures forall t :: t in ReadJsonFile(townsDoc) && t.department == departmentCode ==> t in resp.towns
    ensures !townsDoc.Stored? ==> resp.towns == []
  {
    TownsJson(TownsOfDepartment(ReadJsonFile(townsDoc), departmentCode))
  }

  /** The list page for one stored record filtered by its department shows both resolved names. */
  lemma ListExample()
    ensures Enrich(Selected([Record(1, "2024-01-01", "01", "001", "x")], Query(Some("01"), None, None)),
                   [Department("01", "Antioquia")], [Town("001", "01", "Medellín")])
         == [EnrichedRecord(1, "2024-01-01", "01", "001", "x", "Antioquia", "Medellín")]
  {
    var data := [Record(1, "2024-01-01", "01", "001", "x")];
    var q := Query(Some("01"), None, None);
    assert Matches(data[0], q);
    assert Selected(data, q) == data;
  }

  /** A town is named even when it belongs to another department than the record's. */
  lemma TownOfOtherDepartmentExample()
    ensures EnrichRecord(Record(2, "2024-02-02", "02", "001", "y"), [Department("01", "Antioquia")],
                         [Town("001", "01", "Medellín")])
         == EnrichedRecord(2, "2024-02-02", "02", "001", "y", UNKNOWN_NAME, "Medellín")
  {
  }
}
