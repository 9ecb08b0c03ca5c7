# Incident records: data access, filtering and mutation

A Dafny model of the record-handling logic of a small Express application
(routes/index.mjs). The application keeps incident records (`id`, `fecha`,
`departamento`, `municipio`, `descripcion`) in a JSON document, together with two
read-only reference documents of departments and towns. Its routes list the
records filtered by query parameters and enriched with department and town
names, create a record with the next id, delete the records with a given id,
and return the towns of one department.

The model has one module per component:

- `Storage` (storage.dfy): `readJSONFile` and `writeJSONFile` over an abstract
  document state (`Missing`, `Malformed` or `Stored(items)`). A failed read is
  the empty collection. A write reports success as a boolean. After a failed
  write, the file state is an input chosen by the environment.
- `Filters` (filters.dfy): the `GET /` filter chain. `Selected` is its
  specification and `ApplyFilters` is the step-by-step rebinding the handler
  performs. A parameter counts only when it is present and non-empty, which is
  JavaScript truthiness for a string.
- `Reference` (reference.dfy): the `find`-by-code name resolution with the
  `'Desconocido'` fallback, the enrichment `map`, and the towns-by-department filter.
- `Mutations` (mutations.dfy): `Math.max(...ids) + 1` (or 1 when empty), the
  append of `POST /`, and the id filter of `POST /delete/:id`.
- `JsParseInt` (parse_int.dfy): `parseInt` with no radix, as applied to the
  delete path parameter. `None` stands for NaN.
- `Handlers` (handlers.dfy): the routes, with the response reduced to a
  datatype (rendered list, creation form, redirect, server error, JSON towns).
- `Sequences` (sequences.dfy): `filter` and `find` on sequences, with their
  general laws: subsequence, multiplicities, fusion, commutation, idempotence.
- `Records` and `Wrappers`: the datatypes.

Behaviour of the code worth knowing:

- Delete removes every record whose id equals the target. It removes exactly
  one record when exactly one record has that id; unique ids guarantee this
  for any present id (`RemovePresentId`).
- `parseInt` accepts more than plain numerals. `/delete/12abc` deletes id 12
  and `/delete/0x1A` deletes id 26. Text with no digit is NaN, and NaN deletes nothing.
- When the data document is missing or malformed, the read degrades to `[]`.
  A create or delete then overwrites the document: a create leaves only the
  new record, with id 1 (`CreateRecord`), and a delete leaves `[]`.
- The town name is resolved by the municipality code alone. A town of another
  department is still named (`TownOfOtherDepartmentExample`).

## Model

| member | source | states |
|---|---|---|
| `Sequences.Filter` | routes/index.mjs:42 | every kept element is an input element satisfying the predicate, and every input element that satisfies it is kept |
| `Sequences.FilterIsSubsequence` | routes/index.mjs:42 | `filter` returns an order-preserving subsequence of its input |
| `Sequences.FilterCounts` | routes/index.mjs:42 | `filter` keeps each accepted value exactly as often as the input holds it, and no rejected value |
| `Sequences.FilterCommutes` | routes/index.mjs:41-51 | two filters applied in either order give the same sequence |
| `Sequences.FilterIdempotent` | routes/index.mjs:42 | filtering twice by one predicate equals filtering once (the law behind `RemoveIdIdempotent`) |
| `Sequences.FindIndex` | routes/index.mjs:55-56 | `find` yields the first matching position, and nothing exactly when no element matches |
| `Storage.ReadJsonFile` | routes/index.mjs:8-16 | a failed read or parse yields `[]`; otherwise the stored array |
| `Storage.WriteJsonFile` | routes/index.mjs:19-27 | the result is `true` exactly when the write completes; the document then reads back as what was written; after a failure the file is left as the environment leaves it |
| `Storage.SaveThenLoad` | routes/index.mjs:8-27 | loading right after a successful save returns the saved sequence (the round trip named on its own; it follows directly from `WriteJsonFile`'s contract) |
| `Filters.Selected` | routes/index.mjs:41-51 | the list holds only stored records that pass every given filter, and every stored record that passes them |
| `Filters.ApplyFilters` | routes/index.mjs:36-51 | the chain of up to three rebinding filters computes exactly `Selected` |
| `Filters.StepIsFilter` | routes/index.mjs:41-51 | each step of the chain is a filter by its field test, and a skipped step keeps everything |
| `Filters.AnyOrderSelects` | routes/index.mjs:41-51 | running the three steps in any order gives the same selection (AND semantics) |
| `Filters.SelectedIsSubsequence` | routes/index.mjs:41-51 | the selection preserves stored order and keeps every matching record with its multiplicity |
| `Filters.NoFilterKeepsAll` | routes/index.mjs:41-51 | with no parameter given the list shows all stored records unchanged |
| `Filters.UngivenParameterIsSkipped` | routes/index.mjs:41-51 | an empty parameter selects the same records as an absent one |
| `Reference.DepartmentName` | routes/index.mjs:55-60 | the name of the first department with the record's code, or `'Desconocido'` when none has it |
| `Reference.TownName` | routes/index.mjs:56-61 | the name of the first town with the record's municipality code, or `'Desconocido'` when none has it |
| `Reference.EnrichRecord` | routes/index.mjs:58-62 | the enriched record keeps all original fields and carries the resolved department and town names |
| `Reference.Enrich` | routes/index.mjs:54-63 | enrichment preserves length, order and every original field, and adds the two resolved names |
| `Reference.EnrichCommutesWithFilter` | routes/index.mjs:41-63 | filtering then enriching equals enriching then filtering on the original fields |
| `Reference.TownNameIgnoresDepartment` | routes/index.mjs:56-61 | two records with the same municipality code get the same town name whatever their department |
| `Reference.TownsOfDepartment` | routes/index.mjs:152 | exactly the stored towns whose `department` equals the code |
| `Reference.TownsOfDepartmentIsSubsequence` | routes/index.mjs:152 | stored order and multiplicities are kept, and an unknown code gives `[]` |
| `Mutations.MaxId` | routes/index.mjs:103 | the result is an id of the collection and no id exceeds it |
| `Mutations.NextId` | routes/index.mjs:103 | 1 for an empty collection, otherwise one more than an existing id; always greater than every existing id |
| `Mutations.NewRecord` | routes/index.mjs:102-108 | the new record carries the submitted fields unvalidated and an id no stored record has |
| `Mutations.AppendRecord` | routes/index.mjs:102-110 | exactly one record is added at the end, every prior record is unchanged, and unique ids stay unique |
| `Mutations.RemoveId` | routes/index.mjs:131 | no remaining record has the target id, and every record with another id remains |
| `Mutations.RemoveIdKeepsOthers` | routes/index.mjs:131 | the remaining records keep their order and multiplicities |
| `Mutations.RemoveAbsentId` | routes/index.mjs:128-131 | NaN, or an id no record has, leaves the collection unchanged |
| `Mutations.RemoveIdIdempotent` | routes/index.mjs:131 | deleting an id twice equals deleting it once |
| `Mutations.RemovePresentId` | routes/index.mjs:131 | with unique ids, deleting a present id removes exactly one record and keeps ids unique |
| `JsParseInt.ParseInt` | routes/index.mjs:128 | skips leading ECMAScript white space, takes one optional sign, switches to radix 16 after `0x`/`0X`, reads the longest digit run, and gives `None` (NaN) exactly when that run is empty; a negative result comes only from a `-` sign |
| `JsParseInt.ParseIntOfNumberString` | routes/index.mjs:128 | the decimal form of an integer, followed by text that does not continue the number, parses back to that integer |
| `JsParseInt.ParseIntWithoutDigits` | routes/index.mjs:128 | a parameter without decimal digits parses to NaN |
| `JsParseInt.ParseIntIgnoresTrailingText` | routes/index.mjs:128 | `"12abc"` parses to 12 |
| `JsParseInt.ParseIntReadsHexPrefix` | routes/index.mjs:128 | `"0x1A"` parses to 26 |
| `Handlers.Selection` | routes/index.mjs:68-70 | a given parameter is echoed back, anything else as `''` |
| `Handlers.ListRecords` | routes/index.mjs:30-71 | renders the enriched selection of the stored records with the stored departments; every row matches the query and comes from the data |
| `Handlers.NewRecordForm` | routes/index.mjs:85-93 | the form is offered the stored departments, or none when they cannot be read |
| `Handlers.CreateRecord` | routes/index.mjs:96-118 | on a completed write: redirect, and the document holds the old records plus the new one, with unique ids preserved, or only the new record with id 1 after a failed read; on a failed write: the save error |
| `Handlers.DeleteRecord` | routes/index.mjs:126-139 | on a completed write: redirect, and the document holds the records without the parsed id, unchanged for NaN; on a failed write: the delete error |
| `Handlers.TownsByDepartment` | routes/index.mjs:147-153 | the JSON array is `TownsOfDepartment` of the stored towns, so it holds exactly the towns of the department in stored order, and is empty when the towns cannot be read |
| `Handlers.ListExample` | routes/index.mjs:41-63 | one record filtered by its department shows the names `Antioquia` and `Medellín` |
| `Handlers.TownOfOtherDepartmentExample` | routes/index.mjs:54-63 | a record of department `02` with town `001` of department `01` gets the town's name and `'Desconocido'` for the department |

## Left out

- File I/O, `JSON.parse`/`JSON.stringify`, and the file paths taken from the environment are not modelled. A document is only its abstract state.
- A document that parses to something other than an array is left out. So are the handlers' `catch` branches that it (or any other exception) would reach, which render an empty page or answer `Error interno del servidor`.
- Stored objects are assumed to have the five record fields with a numeric `id` and string fields. Extra fields that the object spread would copy are not modelled.
- Form fields are strings. A field missing from the request body, which would be stored as absent, is not modelled.
- Query parameters are single strings. A repeated parameter, which Express gives as an array, is not modelled.
- `console.error` logging is not modelled.
- Concurrency is not modelled. Two requests can interleave their read-modify-write sequences and lose an update. No write is atomic.
- index.js (server bootstrap, static files, view engine, middleware) is not part of this model. Neither are the views.
- `JsParseInt.ParseInt`: returns the exact integer, whereas JavaScript rounds numbers beyond 2^53 to the nearest double and gives `Infinity` for very long digit strings. Ids are assumed small.
- `Mutations.MaxId`: ids are unbounded integers. `Math.max` spread over a very large array and non-numeric ids are not modelled.
