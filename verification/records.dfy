/** The three kinds of JSON object the routes handle, and the enriched record they render. */
module Records {

  /** An entry of the data document. */
  datatype Record = Record(id: int, fecha: string, departamento: string, municipio: string, descripcion: string)

  /** An entry of the departments reference document. */
  datatype Department = Department(code: string, name: string)

  /** An entry of the towns reference document; `department` is the owning department's code. */
  datatype Town = Town(code: string, department: string, name: string)

  /** `{ ...item, departamentoNombre, municipioNombre }`: a record with the two display names added. */
  datatype EnrichedRecord = EnrichedRecord(
    id: int, fecha: string, departamento: string, municipio: string, descripcion: string,
    departamentoNombre: string, municipioNombre: string)
  {
    /** The fields the record had before enrichment. */
    function Base(): Record {
      Record(id, fecha, departamento, municipio, descripcion)
    }
  }

  /** The fields of the creation form. */
  datatype Form = Form(fecha: string, departamento: string, municipio: string, descripcion: string)
}
