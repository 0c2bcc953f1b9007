# Sporte: a verified model of the support-ticket front end and its schema migrations

Sporte records technical-support tickets ("soportes") for an office. Each ticket
(`historial` record) has a subject (`asunto`), a status, a description, a support
date (`fecha_soporte`), a department and a list of associated technicians. The
front end is a React application backed by PocketBase. This project models its
logic-bearing core in Dafny:

- **Stores** (`HistorialStore`, `TecnicosStore`, `DepartamentosStore`). Each is a
  class with the store's list, `loading` and `error` fields. Fetch has a
  re-entrancy guard on `loading`. Create prepends the saved record. Update
  replaces by id. Delete filters by id. On failure the list is left as it was
  and an error message is recorded. The ticket store also computes the most
  frequent technician and department, with ties going to the first seen. The
  department store builds a multipart payload when an image is present. Every
  network answer is a parameter (`Response`).
- **Statistics components**: one class per chart component, holding its state
  fields, with a `Refresh` method for the component's effect. The counting,
  grouping, sorting and colour assignment are methods with loops, proved
  against specification functions (`RadarData`, `PieData`, `DeptData`,
  `MonthData`, `TecnicosList`). Lemmas then state what those functions mean:
  counts equal occurrences, totals equal the number of counted tickets, entries
  are distinct, the sort order holds, and every key appears.
- **Forms and tables** (`DataForm`, `DataTable`, `EditableCell`, `NuevoSoporte`).
  These cover required-field validation, the multi-select toggle, the pagination
  window, date formatting for edit inputs, and the inline editor's state
  machine. They also cover the "new ticket" dialog: its field list, its initial
  data and the rewrite of the date on submit.
- **Schema migrations** (`Schema`, `PocketBase`, `Migrations`).
  - The PocketBase app handle used by the migrations (`App`) is a class over the
    list of collections; a collection's field list (`FieldsList`) is a class too.
  - Each migration file becomes an `Up…`/`Down…` method, proved against a pure
    `Run` of its step.
  - Lemmas prove that every file's `down` undoes its `up`.
  - Further lemmas prove that applying the five files in timestamp order yields
    the nine fields in the order `Migrations.FinalFields` lists, and that
    rolling them all back restores the store.

Shared modules: `Seqs` (Option, distinctness, dedup, filter, a stable insertion
sort), `Assoc` (an insertion-ordered dictionary, for JavaScript objects and
`Map`), `Js` (JavaScript values, truthiness, `split(/[T ]/)[0]`, capitalisation,
decimal strings), `Counting` (tallies, maximum, first arg-max, `fullMark`),
`Grouping` (grouping tickets by a key with per-group technician counts),
`Entities` (the records), `Periods` (the date-window filters), `Forms` (field
specifications and the `initialData` reduce), `Lists` (replace and remove by id).

`1763128641_updated_historial.js` drops "problemas de red" from the subject
list, so the later list is not a superset of the earlier one
(`Migrations.SubjectLists`).

## Model

| member | source | states |
|---|---|---|
| Lists.ReplaceById | frontend/src/stores/historialStore.js:112 | same length; each element whose id matches is the new record, every other element is unchanged |
| Lists.RemoveById | frontend/src/stores/historialStore.js:132 | no element with the id is left and the list does not grow |
| Lists.RemoveByIdKeeps | frontend/src/stores/tecnicosStore.js:72 | an element with another id keeps its multiplicity |
| Lists.RemoveByIdMember | frontend/src/stores/departamentosStore.js:103 | x survives the filter exactly when it was present and its id differs |
| Lists.RemoveCreated | frontend/src/stores/historialStore.js:91 | deleting a freshly prepended record by its id restores the list |
| Lists.ReplaceByIdIds | frontend/src/stores/tecnicosStore.js:52 | an update with a record of the same id leaves every position's id unchanged |
| HistorialStore.Store.constructor | frontend/src/stores/historialStore.js:5-11 | empty list, not loading, no error, no top technician or department |
| HistorialStore.Store.FetchHistorial | frontend/src/stores/historialStore.js:14-82 | returns at once while loading; on success stores the records and their top technician and department and clears the error; on failure keeps the list and records the message |
| HistorialStore.Store.CreateHistorial | frontend/src/stores/historialStore.js:85-103 | success prepends the record; failure keeps the list, records "Failed to create record: …" and rethrows |
| HistorialStore.Store.UpdateHistorial | frontend/src/stores/historialStore.js:106-124 | success replaces every record with that id; failure keeps the list and records the prefixed message |
| HistorialStore.Store.DeleteHistorial | frontend/src/stores/historialStore.js:127-143 | success removes every record with that id; failure keeps the list, records the message and rethrows |
| HistorialStore.CountTecnicos | frontend/src/stores/historialStore.js:24-31 | the loop's object equals the tally of the technician ids over all tickets, in first-seen order |
| HistorialStore.CountDepartamentos | frontend/src/stores/historialStore.js:53-60 | the loop's object equals the tally of the department ids of the tickets that have one |
| HistorialStore.FindTecnico | frontend/src/stores/historialStore.js:39-48 | the first expanded technician, across all tickets, with that id |
| HistorialStore.FindDepartamento | frontend/src/stores/historialStore.js:68-73 | the first expanded department with that id |
| HistorialStore.ComputeTopTecnico | frontend/src/stores/historialStore.js:33-51 | the result equals the arg-max specification `TopTecnico` |
| HistorialStore.ComputeTopDepartamento | frontend/src/stores/historialStore.js:62-75 | the result equals the arg-max specification `TopDepartamento` |
| HistorialStore.TopTecnicoSpec | frontend/src/stores/historialStore.js:24-51 | none exactly when no ticket has a technician; otherwise a technician that occurs, whose count no other id exceeds, and every id first seen before it occurs strictly fewer times |
| HistorialStore.TopDepartamentoSpec | frontend/src/stores/historialStore.js:53-75 | none exactly when no ticket has a department; otherwise a most frequent department, with ties going to the first seen |
| HistorialStore.NoDepartamentos | frontend/src/stores/historialStore.js:53-60 | the department list is empty exactly when no ticket has a department |
| HistorialStore.FindTecnicoStep | frontend/src/stores/historialStore.js:39-48 | the nested search stops at the first ticket holding the id, and that hit is the global first |
| HistorialStore.FindDepartamentoStep | frontend/src/stores/historialStore.js:68-73 | the department search stops at the first ticket whose department has the id |
| TecnicosStore.Store.constructor | frontend/src/stores/tecnicosStore.js:6-9 | empty list, not loading, no error |
| TecnicosStore.Store.FetchTecnicos | frontend/src/stores/tecnicosStore.js:12-23 | returns at once while loading; otherwise stores the list or records the error |
| TecnicosStore.Store.CreateTecnico | frontend/src/stores/tecnicosStore.js:26-44 | success prepends; failure keeps the list, records the prefixed message and rethrows |
| TecnicosStore.Store.UpdateTecnico | frontend/src/stores/tecnicosStore.js:47-64 | success replaces by id; failure keeps the list and records the prefixed message |
| TecnicosStore.Store.DeleteTecnico | frontend/src/stores/tecnicosStore.js:67-83 | success filters out the id; failure keeps the list, records the message and rethrows |
| DepartamentosStore.Appended | frontend/src/stores/departamentosStore.js:37-42 | one part per key, in key order, each carrying that key's value |
| DepartamentosStore.BuildPayload | frontend/src/stores/departamentosStore.js:34-46 | the loop builds the payload `PayloadFor(data)` |
| DepartamentosStore.PayloadShape | frontend/src/stores/departamentosStore.js:34-46 | without an image the plain object is sent; with one, the other keys in their order and then `ubicacion_img` last, exactly once, each part carrying the data's value |
| DepartamentosStore.Store.constructor | frontend/src/stores/departamentosStore.js:8-11 | empty list, not loading, no error |
| DepartamentosStore.Store.FetchDepartamentos | frontend/src/stores/departamentosStore.js:14-26 | returns at once while loading; otherwise stores the list or records the error |
| DepartamentosStore.Store.CreateDepartamento | frontend/src/stores/departamentosStore.js:29-60 | sends the payload; success prepends, failure keeps the list and records the prefixed message |
| DepartamentosStore.Store.UpdateDepartamento | frontend/src/stores/departamentosStore.js:63-95 | sends the payload; success replaces by id, failure keeps the list and records the prefixed message |
| DepartamentosStore.Store.DeleteDepartamento | frontend/src/stores/departamentosStore.js:98-114 | success filters out the id; failure keeps the list, records the message and rethrows |
| Assoc.Keys | frontend/src/stores/historialStore.js:24-31 | one key per entry, in insertion order |
| Assoc.Lookup | frontend/src/stores/historialStore.js:27-29 | a value is found exactly when the key is present |
| Assoc.LookupPut | frontend/src/stores/historialStore.js:27-29 | after a write, the key reads the new value and every other key reads as before |
| Assoc.KeysPut | frontend/src/pages/EstadisticasTecnicosPage.jsx:25 | writing an existing key keeps the key order; writing a new key appends it |
| Assoc.PutAt | frontend/src/stores/historialStore.js:27-29 | with distinct keys, writing the key at index i changes that entry only |
| Assoc.LookupAt | frontend/src/stores/historialStore.js:62-75 | with distinct keys, the key at index i reads that entry's value |
| Assoc.KeysPutAll | frontend/src/pages/EstadisticasTecnicosPage.jsx:20-28 | the keys after a sequence of writes are the written keys, deduplicated, in first-write order |
| Assoc.LookupPutAll | frontend/src/pages/EstadisticasTecnicosPage.jsx:20-28 | a key reads the last value written for it |
| Counting.TallyOfSnoc | frontend/src/stores/historialStore.js:24-31 | counting one more element bumps its entry |
| Counting.TallyCount | frontend/src/stores/historialStore.js:24-31 | the tally of k equals the number of occurrences of k |
| Counting.TallyKeys | frontend/src/stores/historialStore.js:24-31 | the tally's keys are the elements deduplicated in first-seen order, hence distinct |
| Counting.TallyPositive | frontend/src/stores/historialStore.js:24-31 | every tally entry is at least one |
| Counting.TallyTotal | frontend/src/components/EstadisticasTecnicosRadar.jsx:111 | the counts add up to the number of elements |
| Counting.TallyEntry | frontend/src/stores/historialStore.js:24-31 | each entry's count is that key's number of occurrences |
| Counting.TallyMax | frontend/src/components/EstadisticasAsuntos.jsx:40-46 | the maximum bounds every count, is attained when there are elements, and is zero exactly for no elements |
| Counting.MaxCount | frontend/src/components/EstadisticasAsuntos.jsx:38-46 | an upper bound of every count that some entry attains; zero for an empty tally |
| Counting.FirstMaxKeySpec | frontend/src/stores/historialStore.js:62-75 | the strict-greater scan picks the first entry with the maximum count, and nothing when the maximum is zero |
| Counting.ScanStep | frontend/src/stores/historialStore.js:33-38 | one more entry in the scan replaces the leader only when its count is strictly greater |
| Counting.ArgMax | frontend/src/stores/historialStore.js:33-38 | the scan loop returns the first key with the maximum count and that count |
| Counting.FullMark | frontend/src/components/EstadisticasAsuntos.jsx:50 | `Math.ceil(max * 1.2)`, or 10 when the maximum is 0: at least max, and the least integer at or above 1.2 times max |
| Counting.MaxCountBump | frontend/src/components/EstadisticasAsuntos.jsx:43-44 | bumping a key raises the maximum only when that key's new count exceeds it |
| Counting.MostFrequent | frontend/src/stores/historialStore.js:24-51 | the first arg-max of a tally occurs, is maximal, and beats every key first seen earlier |
| Counting.TopBySpec | frontend/src/stores/historialStore.js:24-51 | the most frequent element by key, with ties going to the first seen; none exactly for no elements |
| Counting.CountEach | frontend/src/stores/historialStore.js:25-30 | the inner loop adds the tally of the elements' keys to the running tally |
| Counting.FirstWith | frontend/src/stores/historialStore.js:39-48 | something is found exactly when some element has that key, and what is found has it and occurs |
| Counting.FirstWithConcat | frontend/src/stores/historialStore.js:39-48 | searching a concatenation finds a hit in the first part before any in the second |
| Counting.MapKeys | frontend/src/stores/historialStore.js:24-31 | one key per element, in order |
| Js.GetPut | frontend/src/components/DataForm.jsx:24-26 | `{ ...prev, [key]: value }` reads value at key and the old value elsewhere |
| Js.DatePart | frontend/src/components/DataTable.jsx:114 | `split(/[T ]/)[0]`: a prefix holding no `T` and no space, cut at the first separator |
| Js.DatePartIdempotent | frontend/src/components/EditableCell.jsx:165 | taking the date part twice gives the same as once |
| Js.NoSeparatorDatePart | frontend/src/components/EditableCell.jsx:165 | a string without separators is its own date part |
| Js.Capitalize | frontend/src/components/EstadisticasAsuntos.jsx:59-61 | same length, the first character upper-cased and the rest lower-cased, for ASCII letters |
| Js.CapitalizeIdempotent | frontend/src/components/EstadisticasAsuntos.jsx:59-61 | capitalising is idempotent and leaves no lower-case first or upper-case later ASCII letter |
| Js.DecimalString | frontend/src/components/EstadisticasSoportesMensuales.jsx:66 | `String(n)`: non-empty, all digits, with the usual lengths |
| Js.DecimalRoundTrip | frontend/src/components/EstadisticasSoportesMensuales.jsx:66 | parsing `String(n)` gives back n |
| Js.PadTwo | frontend/src/components/NuevoSoporteDialog.jsx:70 | `padStart(2, '0')` of a number below 100: two digits that parse back to it |
| Entities.AllTecnicosMembers | frontend/src/stores/historialStore.js:24-31 | a technician is in the flattened list exactly when some ticket's expanded list holds it |
| Entities.AllDepartamentos | frontend/src/stores/historialStore.js:53-60 | at most one department per ticket |
| Entities.AllTecnicosConcat | frontend/src/stores/historialStore.js:24-31 | the technicians of concatenated ticket lists concatenate |
| Entities.AllDepartamentosConcat | frontend/src/stores/historialStore.js:53-60 | the departments of concatenated ticket lists concatenate |
| Periods.FilterByPeriod | frontend/src/components/EstadisticasAsuntos.jsx:31-34 | keeps only tickets whose support date is within the last `days` days |
| Periods.FilterByPeriodExact | frontend/src/components/EstadisticasDepartamentos.jsx:59-62 | a ticket keeps all its copies when its support date is in the window and none otherwise |
| Periods.FilterByPeriodMonotone | frontend/src/components/EstadisticasAsuntos.jsx:18-20 | a wider window never keeps fewer copies of a ticket (7 ⊆ 30 ⊆ 365 days) |
| Periods.FilterByCreated | frontend/src/components/EstadisticasTecnicos.jsx:46-49 | keeps only tickets whose creation time is within the window |
| Periods.FilterByCreatedExact | frontend/src/components/EstadisticasTecnicos.jsx:46-49 | a ticket is kept exactly when it has a creation time inside the window |
| Periods.FilterByDate | frontend/src/components/EstadisticasTecnicosRadar.jsx:20-35 | never longer than the input |
| Periods.FilterByDateAll | frontend/src/components/EstadisticasTecnicosRadar.jsx:21 | year "all" keeps every ticket, whatever the month |
| Periods.FilterByDateExact | frontend/src/components/EstadisticasTecnicosRadar.jsx:23-34 | otherwise a ticket is kept exactly when it has a date in that year and, unless the month is "all", in that month |
| Periods.FilterByDateNaN | frontend/src/components/EstadisticasTecnicosRadar.jsx:30-31 | a year or month that does not parse as a number keeps nothing |
| Seqs.Dedup | frontend/src/components/EstadisticasSoportesMensuales.jsx:60-64 | `new Set`: distinct, holding exactly the input's elements, no longer than it |
| Seqs.DedupOfDistinct | frontend/src/components/EstadisticasSoportesMensuales.jsx:60-64 | deduplicating a list without repeats changes nothing |
| Seqs.DistinctMultiplicity | frontend/src/components/EstadisticasDepartamentos.jsx:89-106 | in a distinct list every element occurs at most once |
| Seqs.PermutationDistinct | frontend/src/components/EstadisticasDepartamentos.jsx:109 | a permutation of a distinct list is distinct |
| Seqs.Filter | frontend/src/components/EstadisticasAsuntos.jsx:31-34 | every kept element satisfies the predicate, and the result is no longer than the input |
| Seqs.FilterMultiset | frontend/src/components/EstadisticasAsuntos.jsx:31-34 | an element keeps all its copies when it satisfies the predicate, none otherwise |
| Seqs.FilterConcat | frontend/src/components/EstadisticasAsuntos.jsx:31-34 | filtering distributes over concatenation |
| Seqs.FilterAll | frontend/src/components/EstadisticasTecnicosRadar.jsx:21 | a predicate true of all elements keeps the list |
| Seqs.FilterExt | frontend/src/components/EstadisticasTecnicosRadar.jsx:20-35 | predicates that agree on the list filter it alike |
| Seqs.FilterNone | frontend/src/components/EstadisticasTecnicosRadar.jsx:30-31 | a predicate false of all elements keeps nothing |
| Seqs.SumByConcat | frontend/src/components/EstadisticasTecnicosRadar.jsx:111 | `reduce((acc, x) => acc + x.count, 0)` distributes over concatenation |
| Seqs.InsertBy | frontend/src/components/EstadisticasDepartamentos.jsx:109 | inserting into a key-sorted list keeps it sorted and adds exactly that element |
| Seqs.SortBy | frontend/src/components/EstadisticasDepartamentos.jsx:109 | `Array.prototype.sort` with a numeric comparator: sorted by key and a permutation of the input |
| Seqs.SumBySort | frontend/src/components/EstadisticasDepartamentos.jsx:149 | sorting does not change a sum |
| Grouping.TallyOfConcat | frontend/src/components/EstadisticasDepartamentos.jsx:79-85 | counting a concatenation continues the first part's tally |
| Grouping.TicketsWith | frontend/src/components/EstadisticasDepartamentos.jsx:67-87 | the tickets of a group all have its key and come from the input |
| Grouping.AddKeys | frontend/src/components/EstadisticasDepartamentos.jsx:68-77 | a ticket with a new key opens a new group at the end; one with a known key or none keeps the keys |
| Grouping.GroupKeys | frontend/src/components/EstadisticasDepartamentos.jsx:67-87 | the groups' keys are the tickets' keys, deduplicated in first-seen order |
| Grouping.GroupStat | frontend/src/components/EstadisticasDepartamentos.jsx:67-87 | each group holds the count, the first ticket and the technician-name tally of exactly the tickets with its key |
| Grouping.TicketsWithCount | frontend/src/components/EstadisticasDepartamentos.jsx:67-87 | a group has as many tickets as its key has occurrences |
| Grouping.GroupTotal | frontend/src/components/EstadisticasDepartamentos.jsx:149 | the group counts add up to the number of keyed tickets |
| Grouping.SumCounts | frontend/src/components/EstadisticasDepartamentos.jsx:149 | group counts and a matching tally have the same total |
| Grouping.CountNames | frontend/src/components/EstadisticasDepartamentos.jsx:79-85 | the inner loop bumps the tally once per technician with a name |
| Grouping.GroupTickets | frontend/src/components/EstadisticasDepartamentos.jsx:67-87 | the grouping loop builds `GroupOf` |
| Grouping.Summaries | frontend/src/components/EstadisticasDepartamentos.jsx:89-106 | one summary per group, in group order |
| Grouping.Summarize | frontend/src/components/EstadisticasDepartamentos.jsx:89-106 | the summary loop computes `Summaries` |
| Grouping.SummaryOf | frontend/src/components/EstadisticasDepartamentos.jsx:67-106 | each summary's key occurs; its count is the number of tickets with the key, its first ticket is the first of them, and its top technician is their first most frequent name with that name's count |
| RadarChart.SelectedLength | frontend/src/components/EstadisticasAsuntos.jsx:36-57 | one counted key per ticket that has one |
| RadarChart.SelectedCount | frontend/src/components/EstadisticasAsuntos.jsx:36-57 | a key is counted once per ticket carrying it |
| RadarChart.Points | frontend/src/components/EstadisticasAsuntos.jsx:52-56 | one chart point per tally entry |
| RadarChart.CountSelected | frontend/src/components/EstadisticasTecnicosRadar.jsx:37-50 | the counting loop yields the tally of the selected keys and its maximum |
| RadarChart.ProcessData | frontend/src/components/EstadisticasTecnicosRadar.jsx:37-61 | the method computes `RadarData` |
| RadarChart.SumPoints | frontend/src/components/EstadisticasTecnicosRadar.jsx:111 | the points' counts add up to the tally total |
| RadarChart.RadarDataSpec | frontend/src/components/EstadisticasAsuntos.jsx:36-57 | one point per distinct key in first-seen order, empty exactly when nothing is counted; capitalised subject, the key's number of occurrences, a shared `fullMark` no smaller than any count; the counts add up to the counted tickets |
| RadarChart.FullMarkSpec | frontend/src/components/EstadisticasAsuntos.jsx:38-50 | the maximum is attained and bounds every count; `fullMark` is ceil(1.2 × max), or 10 when nothing is counted |
| EstadisticasAsuntos.AsuntoCounts | frontend/src/components/EstadisticasAsuntos.jsx:40-43 | empty subjects are not counted; any other subject is counted once per ticket with it |
| EstadisticasAsuntos.Chart.constructor | frontend/src/components/EstadisticasAsuntos.jsx:9 | four empty charts |
| EstadisticasAsuntos.Chart.Refresh | frontend/src/components/EstadisticasAsuntos.jsx:15-29 | with tickets, the 7-day, 30-day, 365-day and all-time radar data; without tickets the charts stay |
| EstadisticasTecnicosRadar.TotalSoportesSpec | frontend/src/components/EstadisticasTecnicosRadar.jsx:37-61 | the shown total is the number of tickets in the date filter that list the technician and have a subject |
| EstadisticasTecnicosRadar.Chart.constructor | frontend/src/components/EstadisticasTecnicosRadar.jsx:8 | no chart data |
| EstadisticasTecnicosRadar.Chart.Refresh | frontend/src/components/EstadisticasTecnicosRadar.jsx:14-18 | with a selected technician and tickets, the technician's subject radar for the year and month; otherwise unchanged |
| EstadisticasTecnicosDepartamentos.TotalSoportesSpec | frontend/src/components/EstadisticasTecnicosDepartamentos.jsx:37-62 | the total is the number of the technician's tickets with a named department, and each department is counted once per such ticket |
| EstadisticasTecnicosDepartamentos.Chart.constructor | frontend/src/components/EstadisticasTecnicosDepartamentos.jsx:8 | no chart data |
| EstadisticasTecnicosDepartamentos.Chart.Refresh | frontend/src/components/EstadisticasTecnicosDepartamentos.jsx:14-18 | with a selected technician and tickets, the technician's department radar; otherwise unchanged |
| EstadisticasTecnicos.Slices | frontend/src/components/EstadisticasTecnicos.jsx:61 | one slice per tally entry |
| EstadisticasTecnicos.ProcessData | frontend/src/components/EstadisticasTecnicos.jsx:51-62 | the nested counting loop computes `PieData` |
| EstadisticasTecnicos.SumSlices | frontend/src/components/EstadisticasTecnicos.jsx:51-62 | the slice values add up to the tally total |
| EstadisticasTecnicos.PieDataSpec | frontend/src/components/EstadisticasTecnicos.jsx:51-62 | one slice per distinct technician name in first-seen order, each valued at that name's occurrences; the values add up to the number of listed technicians |
| EstadisticasTecnicos.FillCycle | frontend/src/components/EstadisticasTecnicos.jsx:78 | `COLORS[index % 10]` repeats every ten and differs within any ten consecutive slices |
| EstadisticasTecnicos.Chart.constructor | frontend/src/components/EstadisticasTecnicos.jsx:24 | three empty charts |
| EstadisticasTecnicos.Chart.Refresh | frontend/src/components/EstadisticasTecnicos.jsx:31-44 | with tickets and technicians, the pies of the last 7, 30 and 365 days by creation time; otherwise unchanged |
| EstadisticasDepartamentos.WithFills | frontend/src/components/EstadisticasDepartamentos.jsx:110-113 | each entry keeps its summary and takes colour `COLORS[i % 21]` |
| EstadisticasDepartamentos.ProcessData | frontend/src/components/EstadisticasDepartamentos.jsx:64-114 | the method computes `DeptData` |
| EstadisticasDepartamentos.SummariesDistinct | frontend/src/components/EstadisticasDepartamentos.jsx:89-106 | distinct group keys give distinct summaries |
| EstadisticasDepartamentos.SortedFrom | frontend/src/components/EstadisticasDepartamentos.jsx:109 | every sorted summary is one of the unsorted ones |
| EstadisticasDepartamentos.DeptOrder | frontend/src/components/EstadisticasDepartamentos.jsx:108-109 | entries go by descending count, and no department appears twice |
| EstadisticasDepartamentos.DeptCovers | frontend/src/components/EstadisticasDepartamentos.jsx:64-114 | one entry per distinct department name, and every named department has an entry |
| EstadisticasDepartamentos.DeptEntries | frontend/src/components/EstadisticasDepartamentos.jsx:64-114 | each entry's count is its number of tickets (positive); its top technician and count are the first most frequent name among them; its colour is `COLORS[i % 21]` |
| EstadisticasDepartamentos.DeptTotal | frontend/src/components/EstadisticasDepartamentos.jsx:149 | the counts add up to the number of tickets with a named department |
| EstadisticasDepartamentos.SumEntries | frontend/src/components/EstadisticasDepartamentos.jsx:149 | adding colours does not change the total |
| EstadisticasDepartamentos.SumSummaries | frontend/src/components/EstadisticasDepartamentos.jsx:149 | the summaries' counts add up to the group counts |
| EstadisticasDepartamentos.Chart.constructor | frontend/src/components/EstadisticasDepartamentos.jsx:36 | four empty charts |
| EstadisticasDepartamentos.Chart.Refresh | frontend/src/components/EstadisticasDepartamentos.jsx:43-57 | with tickets and departments, the 7-day, 30-day, 365-day and all-time department data; otherwise unchanged |
| EstadisticasSoportesMensuales.YearStrings | frontend/src/components/EstadisticasSoportesMensuales.jsx:66 | `years.map(String)`, element by element |
| EstadisticasSoportesMensuales.AvailableYearsSpec | frontend/src/components/EstadisticasSoportesMensuales.jsx:60-64 | strictly descending, exactly the years of dated tickets, empty exactly when none is dated |
| EstadisticasSoportesMensuales.AvailableYearsOrder | frontend/src/components/EstadisticasSoportesMensuales.jsx:60-64 | the years are strictly descending |
| EstadisticasSoportesMensuales.AvailableYearsMembers | frontend/src/components/EstadisticasSoportesMensuales.jsx:60-64 | a year is listed exactly when some dated ticket has it |
| EstadisticasSoportesMensuales.YearStringsDistinct | frontend/src/components/EstadisticasSoportesMensuales.jsx:66 | distinct years give distinct strings |
| EstadisticasSoportesMensuales.ReconcileSpec | frontend/src/components/EstadisticasSoportesMensuales.jsx:69-71 | a listed selected year is kept; an unlisted one becomes the most recent year; reconciling twice changes nothing |
| EstadisticasSoportesMensuales.FilterByYear | frontend/src/components/EstadisticasSoportesMensuales.jsx:74-79 | every kept ticket is dated in the selected year |
| EstadisticasSoportesMensuales.FilterByYearExact | frontend/src/components/EstadisticasSoportesMensuales.jsx:74-79 | a ticket is kept exactly when it is dated in the selected year |
| EstadisticasSoportesMensuales.MonthEntries | frontend/src/components/EstadisticasSoportesMensuales.jsx:133-149 | one entry per group summary |
| EstadisticasSoportesMensuales.ProcessData | frontend/src/components/EstadisticasSoportesMensuales.jsx:85-153 | the method computes `MonthData` |
| EstadisticasSoportesMensuales.SortedFrom | frontend/src/components/EstadisticasSoportesMensuales.jsx:152 | every sorted entry comes from a summary |
| EstadisticasSoportesMensuales.MonthOrder | frontend/src/components/EstadisticasSoportesMensuales.jsx:152 | ascending by the month's first support date, no month twice |
| EstadisticasSoportesMensuales.MonthsDiffer | frontend/src/components/EstadisticasSoportesMensuales.jsx:100-130 | when the monthly buckets have distinct months, two sorted entries never share a year and month |
| EstadisticasSoportesMensuales.MonthEntriesDistinct | frontend/src/components/EstadisticasSoportesMensuales.jsx:100-130 | distinct groups give distinct entries |
| EstadisticasSoportesMensuales.MonthCovers | frontend/src/components/EstadisticasSoportesMensuales.jsx:100-130 | one entry per distinct month, and every dated month has one |
| EstadisticasSoportesMensuales.MonthEntriesSpec | frontend/src/components/EstadisticasSoportesMensuales.jsx:100-149 | each entry counts its month's tickets (positive), sorts by the first ticket's date, and names the first most frequent technician with that technician's count |
| EstadisticasSoportesMensuales.MonthsInYear | frontend/src/components/EstadisticasSoportesMensuales.jsx:74-81 | after the year filter, every entry belongs to the selected year |
| EstadisticasSoportesMensuales.MonthTotal | frontend/src/components/EstadisticasSoportesMensuales.jsx:85-153 | the monthly counts add up to the number of dated tickets |
| EstadisticasSoportesMensuales.SumMonthEntries | frontend/src/components/EstadisticasSoportesMensuales.jsx:133-149 | the entries' counts add up to the group counts |
| EstadisticasSoportesMensuales.Chart.constructor | frontend/src/components/EstadisticasSoportesMensuales.jsx:49-51 | no data, selected year the current year, no years listed |
| EstadisticasSoportesMensuales.Chart.Refresh | frontend/src/components/EstadisticasSoportesMensuales.jsx:57-83 | with tickets, the years listed, the reconciled selection, and the months of the year selected before the effect ran; otherwise unchanged |
| EstadisticasSoportesMensuales.Chart.SelectYear | frontend/src/components/EstadisticasSoportesMensuales.jsx:50 | only the selection changes |
| EstadisticasTecnicosPage.FromMap | frontend/src/pages/EstadisticasTecnicosPage.jsx:30 | `Array.from(map)`: one technician per entry, in map order |
| EstadisticasTecnicosPage.ListedIsFilter | frontend/src/pages/EstadisticasTecnicosPage.jsx:24-26 | the pairs written are those of the technicians with both an id and a name |
| EstadisticasTecnicosPage.ListedInIsFilter | frontend/src/pages/EstadisticasTecnicosPage.jsx:20-28 | across the tickets, the written pairs are the listed technicians of all tickets |
| EstadisticasTecnicosPage.PutAllConcat | frontend/src/pages/EstadisticasTecnicosPage.jsx:20-28 | writing two batches of entries is writing their concatenation |
| EstadisticasTecnicosPage.SetListed | frontend/src/pages/EstadisticasTecnicosPage.jsx:23-27 | the inner loop writes each listed technician into the map |
| EstadisticasTecnicosPage.ExtractTecnicos | frontend/src/pages/EstadisticasTecnicosPage.jsx:20-31 | the nested loop and `Array.from` compute `TecnicosList` |
| EstadisticasTecnicosPage.TecnicosListSpec | frontend/src/pages/EstadisticasTecnicosPage.jsx:20-31 | the ids are those of listed technicians, deduplicated in first-seen order; each name is non-empty and is the last one written for that id |
| EstadisticasTecnicosPage.LastValueListed | frontend/src/pages/EstadisticasTecnicosPage.jsx:24-26 | only non-empty ids with non-empty names are written |
| EstadisticasTecnicosPage.AutoSelectSpec | frontend/src/pages/EstadisticasTecnicosPage.jsx:34-36 | a non-empty selection is kept; nothing changes without technicians; otherwise the first technician is chosen; auto-selecting twice is auto-selecting once |
| EstadisticasTecnicosPage.SelectedNameSpec | frontend/src/pages/EstadisticasTecnicosPage.jsx:40 | an unknown id shows "Técnico"; a known one shows the last name written for it |
| EstadisticasTecnicosPage.FirstWithSpecOn | frontend/src/pages/EstadisticasTecnicosPage.jsx:40 | the `find` succeeds exactly on a listed id and returns a technician with that id |
| EstadisticasTecnicosPage.FirstWithFound | frontend/src/pages/EstadisticasTecnicosPage.jsx:40 | a technician at some index makes the `find` succeed |
| EstadisticasTecnicosPage.FirstWithAbsent | frontend/src/pages/EstadisticasTecnicosPage.jsx:40 | an id not listed makes the `find` fail |
| EstadisticasTecnicosPage.PageChartsAlwaysEmpty | frontend/src/pages/EstadisticasTecnicosPage.jsx:60-61 | as written, both charts on the page are empty for every input |
| EstadisticasTecnicosPage.PageChartsCounterexample | frontend/src/pages/EstadisticasTecnicosPage.jsx:60-61 | a single dated ticket of the selected technician: the page shows nothing, though it should count one |
| EstadisticasTecnicosPage.PageChartsSpec | frontend/src/pages/EstadisticasTecnicosPage.jsx:60-61 | with year and month "all", the charts count every ticket of the technician with a subject or a named department |
| EstadisticasTecnicosPage.Page.constructor | frontend/src/pages/EstadisticasTecnicosPage.jsx:10-11 | nothing selected, no technicians |
| EstadisticasTecnicosPage.Page.Refresh | frontend/src/pages/EstadisticasTecnicosPage.jsx:17-38 | with tickets, the technicians list and the auto-selection; otherwise unchanged |
| EstadisticasTecnicosPage.Page.Select | frontend/src/pages/EstadisticasTecnicosPage.jsx:46 | only the selection changes |
| Forms.FieldKeys | frontend/src/components/DataTable.jsx:102 | one key per field, in order |
| Forms.DefaultEntries | frontend/src/components/DataTable.jsx:102 | each field contributes its default value, or '' |
| Forms.InitialFormDataKeys | frontend/src/components/NuevoSoporteDialog.jsx:105-108 | the initial object's keys are the field keys, deduplicated in order |
| Forms.InitialFormDataValue | frontend/src/components/DataTable.jsx:102 | with distinct keys, each key holds its field's default or '' |
| Forms.InitialFormDataOther | frontend/src/components/DataTable.jsx:102 | any other key is undefined |
| Forms.LastValueAt | frontend/src/components/NuevoSoporteDialog.jsx:105-108 | the last entry written for a key is what the reduce leaves |
| Forms.Toggle | frontend/src/components/DataForm.jsx:104-106 | checking appends the value; unchecking removes every copy and keeps every other value's multiplicity |
| Forms.UncheckPreservesOrder | frontend/src/components/DataForm.jsx:106 | unchecking keeps the remaining values in order |
| Forms.ToggleRoundTrip | frontend/src/components/EditableCell.jsx:196-199 | checking a new value and then unchecking it restores the selection |
| Forms.Chars | frontend/src/components/DataForm.jsx:103 | `[...str]` of a string selection gives its characters in order |
| Forms.ToggledValue | frontend/src/components/DataForm.jsx:102-107 | a falsy current value starts from []; an array is toggled; when the toggle succeeds, a checked value ends the array and an unchecked one is absent; an uncheck on a string throws |
| DataForm.Form.constructor | frontend/src/components/DataForm.jsx:21-22 | the form data starts as the initial data |
| DataForm.Form.HandleInputChange | frontend/src/components/DataForm.jsx:24-26 | the key takes the new value; every other key is unchanged |
| DataForm.Form.HandleToggle | frontend/src/components/DataForm.jsx:102-107 | the field takes the toggled selection; a value the toggle cannot spread leaves the form as it was |
| DataForm.Form.HandleSubmit | frontend/src/components/DataForm.jsx:28-44 | submits the data exactly when no required field is missing; otherwise reports the first missing field's message |
| DataForm.MissingIgnoresOtherKeys | frontend/src/components/DataForm.jsx:32-41 | changing another key never changes whether a field is missing |
| DataForm.FilledAfterInput | frontend/src/components/DataForm.jsx:35 | a field given a filled value is no longer missing |
| DataForm.CheckFills | frontend/src/components/DataForm.jsx:102-107 | checking an option always fills a multi-select |
| DataTable.Run | frontend/src/components/DataTable.jsx:152-154 | the consecutive page numbers from lo to hi |
| DataTable.GetPageNumbers | frontend/src/components/DataTable.jsx:136-161 | the loops compute `PageWindow` |
| DataTable.SmallWindow | frontend/src/components/DataTable.jsx:141-144 | up to seven pages: every page, in order |
| DataTable.WindowShape | frontend/src/components/DataTable.jsx:145-159 | more than seven: first page, optional start ellipsis, the neighbours of the current page, optional end ellipsis, last page |
| DataTable.LargeWindow | frontend/src/components/DataTable.jsx:145-159 | at most seven items, from the first to the last page, increasing, in range, and containing the current page |
| DataTable.WindowEllipses | frontend/src/components/DataTable.jsx:147-157 | the start ellipsis appears exactly when the current page is past 2, the end one exactly when it is before the last three; each at most once |
| DataTable.FormatForEdit | frontend/src/components/DataTable.jsx:110-116 | keeps the keys; each truthy date value becomes its date part; a non-string date value makes `split` throw |
| DataTable.EditValueStable | frontend/src/components/DataTable.jsx:114 | formatting an already formatted value changes nothing |
| DataTable.TableDialog.constructor | frontend/src/components/DataTable.jsx:52-59 | dialog closed, create mode, nothing selected |
| DataTable.TableDialog.HandleCreate | frontend/src/components/DataTable.jsx:99-104 | create mode, nothing selected, initial data from the field defaults, dialog open |
| DataTable.TableDialog.HandleEdit | frontend/src/components/DataTable.jsx:106-119 | edit mode with the item; the dialog opens on the formatted item unless formatting throws |
| DataTable.TableDialog.HandleFormSubmit | frontend/src/components/DataTable.jsx:127-134 | create mode calls create; edit mode calls update with the item's id; with no item selected it throws and the dialog stays; after the handlers (`Valid`) it never throws |
| EditableCell.FinalValue | frontend/src/components/EditableCell.jsx:80-85 | a truthy date becomes its noon ISO timestamp; anything else is sent as is |
| EditableCell.SaveRequest | frontend/src/components/EditableCell.jsx:69-87 | no request exactly when the value is unchanged; otherwise `{ [field]: finalValue }` |
| EditableCell.KeyActionOf | frontend/src/components/EditableCell.jsx:95-104 | Enter without Shift saves except in textareas and multi or searchable selects; Escape cancels |
| EditableCell.DateInputText | frontend/src/components/EditableCell.jsx:165 | an empty value shows ''; a string shows its date part, free of separators |
| EditableCell.Cell.constructor | frontend/src/components/EditableCell.jsx:44-45 | not editing; the draft is the value |
| EditableCell.Cell.ValueChanged | frontend/src/components/EditableCell.jsx:48-50 | a new value prop resets the draft |
| EditableCell.Cell.HandleDoubleClick | frontend/src/components/EditableCell.jsx:58-61 | starts editing |
| EditableCell.Cell.HandleCancel | frontend/src/components/EditableCell.jsx:63-66 | stops editing and resets the draft |
| EditableCell.Cell.SetTemp | frontend/src/components/EditableCell.jsx:155 | only the draft changes |
| EditableCell.Cell.HandleSave | frontend/src/components/EditableCell.jsx:68-93 | sends the request for the override or the draft; an unchanged value just stops editing; a failed save keeps editing |
| EditableCell.Cell.HandleKeyDown | frontend/src/components/EditableCell.jsx:95-104 | Enter saves the draft, Escape cancels, other keys change nothing |
| EditableCell.Cell.Choose | frontend/src/components/EditableCell.jsx:113-116 | a chosen option becomes the draft and is saved at once |
| EditableCell.Cell.CloseDropdown | frontend/src/components/EditableCell.jsx:132-134 | closing the dropdown stops editing |
| EditableCell.Cell.ToggleOption | frontend/src/components/EditableCell.jsx:195-201 | the draft takes the toggled selection |
| EditableCell.SaveAfterCancel | frontend/src/components/EditableCell.jsx:69-76 | saving a draft equal to the value sends nothing |
| NuevoSoporte.LocalTodayFormat | frontend/src/components/NuevoSoporteDialog.jsx:69-70 | `YYYY-MM-DD` of the local date: ten characters, digits and dashes, parsing back to year, month + 1 and day |
| NuevoSoporte.DepartamentoOptions | frontend/src/components/NuevoSoporteDialog.jsx:66 | one option per department: id and name |
| NuevoSoporte.TecnicoOptions | frontend/src/components/NuevoSoporteDialog.jsx:67 | one option per technician: id and name |
| NuevoSoporte.DynamicFields | frontend/src/components/NuevoSoporteDialog.jsx:72-86 | six fields in order; the date gets today's local date as default and maximum; department and technicians take the options; only the description is optional |
| NuevoSoporte.InitialData | frontend/src/components/NuevoSoporteDialog.jsx:105-108 | the initial data has the six keys, today's date and '' everywhere else |
| NuevoSoporte.DescriptionNeverBlocks | frontend/src/components/NuevoSoporteDialog.jsx:44 | the description never changes whether any field is missing |
| NuevoSoporte.FormatSubmission | frontend/src/components/NuevoSoporteDialog.jsx:91-94 | only `fecha_soporte` is rewritten, and only when truthy; every key is kept |
| Schema.Names | dbserve/pb_migrations/1762788936_created_historial.js:6-74 | the field names in order |
| Schema.Ids | dbserve/pb_migrations/1762788936_created_historial.js:6-74 | the field ids in order |
| Schema.RemoveAbsent | dbserve/pb_migrations/1769009758_updated_historial.js:25 | removing an id that no field has changes nothing |
| Schema.RemoveConcat | db/pb_migrations/1763128207_updated_historial.js:27 | removal distributes over concatenation |
| Schema.AddAtFresh | db/pb_migrations/1763128207_updated_historial.js:6-20 | a field with a new id goes in at the index and the later fields shift right |
| Schema.IdsConcat | dbserve/pb_migrations/1762788936_created_historial.js:6-74 | ids distribute over concatenation |
| Schema.AbsentSlices | db/pb_migrations/1763128207_updated_historial.js:27 | removing an absent id leaves both halves of a list |
| Schema.AddAtThenRemove | db/pb_migrations/1763128207_updated_historial.js:6-27 | `removeById` undoes `addAt` of a new field at any position |
| Schema.AddAtIdsMultiset | db/pb_migrations/1763128641_updated_historial.js:6-27 | the ids after `addAt` are those left by removing the id, plus that id |
| Schema.AddAtOnce | db/pb_migrations/1763128641_updated_historial.js:6-27 | after `addAt` exactly one field has the id |
| Schema.AddAtDistinct | db/pb_migrations/1763128641_updated_historial.js:6-27 | `addAt` keeps field ids distinct, so the save's validation passes |
| Schema.KeptIdsBound | db/pb_migrations/1763128207_updated_historial.js:27 | removing from a list with distinct ids keeps each id at most once |
| Schema.KeptIdsSubset | db/pb_migrations/1763128207_updated_historial.js:27 | removal adds no id |
| Schema.RemovedGone | db/pb_migrations/1763128207_updated_historial.js:27 | no field with the removed id is left |
| Schema.RemoveAt | dbserve/pb_migrations/1769009758_updated_historial.js:25 | with distinct ids, removing the id at index i takes out that field only |
| Schema.AddAtReplace | db/pb_migrations/1763128641_updated_historial.js:6-27 | `addAt` at the index of the field with the same id replaces it in place |
| PocketBase.Find | dbserve/pb_migrations/1762788936_created_historial.js:87 | nothing found exactly when no collection has the key as id or name; otherwise the first that does |
| PocketBase.FindOnly | dbserve/pb_migrations/1762788936_created_historial.js:87 | the lone collection answering to the key is found |
| PocketBase.SaveNewSpec | dbserve/pb_migrations/1762788936_created_historial.js:85 | a new collection is saved exactly when its field ids are distinct and its id and name are unused; it is then appended |
| PocketBase.DeleteOnly | dbserve/pb_migrations/1762788936_created_historial.js:89 | deleting the lone collection with the key removes just it |
| PocketBase.ReplaceOnly | db/pb_migrations/1763128207_updated_historial.js:22 | saving a looked-up collection replaces its position only |
| PocketBase.FieldsList.constructor | db/pb_migrations/1763128207_updated_historial.js:3 | the list holds the collection's fields |
| PocketBase.FieldsList.AddAt | db/pb_migrations/1763128207_updated_historial.js:6 | the fields become `addAt` of the old fields |
| PocketBase.FieldsList.RemoveById | db/pb_migrations/1763128207_updated_historial.js:27 | the fields lose every field with the id |
| PocketBase.App.constructor | dbserve/pb_migrations/1762788936_created_historial.js:2 | the app holds the given collections |
| PocketBase.App.FindCollectionByNameOrId | dbserve/pb_migrations/1762788936_created_historial.js:87 | fails exactly when nothing answers to the key; otherwise the first collection that does |
| PocketBase.App.Save | dbserve/pb_migrations/1762788936_created_historial.js:85 | the store becomes the save's outcome, or is unchanged with the error |
| PocketBase.App.Delete | dbserve/pb_migrations/1762788936_created_historial.js:89 | the collection with that id is removed |
| Migrations.Up1762788936 | dbserve/pb_migrations/1762788936_created_historial.js:2-85 | the store after `up` is `Run` of the create step, or unchanged with the error |
| Migrations.Down1762788936 | dbserve/pb_migrations/1762788936_created_historial.js:86-90 | the store after `down` is `Run` of the delete step |
| Migrations.EditHistorial | db/pb_migrations/1763128207_updated_historial.js:3-22 | look up, edit the field list in place, save: the store is `Run` of the edit step |
| Migrations.Up1763128207 | db/pb_migrations/1763128207_updated_historial.js:2-22 | adds the `asunto` select at index 4 |
| Migrations.Down1763128207 | db/pb_migrations/1763128207_updated_historial.js:23-30 | removes `asunto` by id |
| Migrations.Up1763128641 | db/pb_migrations/1763128641_updated_historial.js:2-29 | puts the ten-subject `asunto` at index 4 |
| Migrations.Down1763128641 | db/pb_migrations/1763128641_updated_historial.js:30-51 | puts the three-subject `asunto` back at index 4 |
| Migrations.Up1769009758 | dbserve/pb_migrations/1769009758_updated_historial.js:2-20 | adds the `departamento` relation at index 5 |
| Migrations.Down1769009758 | dbserve/pb_migrations/1769009758_updated_historial.js:21-28 | removes `departamento` by id |
| Migrations.Up1770039471 | dbserve/pb_migrations/1770039471_updated_historial.js:2-18 | adds the `fecha_soporte` date at index 6 |
| Migrations.Down1770039471 | dbserve/pb_migrations/1770039471_updated_historial.js:19-26 | removes `fecha_soporte` by id |
| Migrations.HistorialSchema | dbserve/pb_migrations/1762788936_created_historial.js:3-84 | the created collection: its id and name, six fields in order with distinct ids, the 15-character primary key, and the autodate flags |
| Migrations.CreateSpec | dbserve/pb_migrations/1762788936_created_historial.js:2-85 | `up` succeeds exactly when neither the id nor the name is taken, and then appends the collection |
| Migrations.DeleteSpec | dbserve/pb_migrations/1762788936_created_historial.js:86-90 | `down` fails exactly when nothing answers to the id; otherwise a collection goes and none with its id remains |
| Migrations.FilterLength | dbserve/pb_migrations/1762788936_created_historial.js:89 | deleting a present collection shortens the store |
| Migrations.CreateThenDelete | dbserve/pb_migrations/1762788936_created_historial.js:2-90 | `down` after `up` restores the store |
| Migrations.EditAt | db/pb_migrations/1763128207_updated_historial.js:3-22 | editing the lone collection with the key changes its fields only |
| Migrations.AddRoundTrip | db/pb_migrations/1763128207_updated_historial.js:2-30 | adding a new field and then removing it by id restores the store; the field lands at the index |
| Migrations.AsuntoRoundTrip | db/pb_migrations/1763128207_updated_historial.js:2-30 | `down` undoes `up`; `asunto` lands at index 4 with the later fields shifted right |
| Migrations.DepartamentoRoundTrip | dbserve/pb_migrations/1769009758_updated_historial.js:2-28 | `down` undoes `up`; `departamento` lands at index 5 |
| Migrations.FechaRoundTrip | dbserve/pb_migrations/1770039471_updated_historial.js:2-26 | `down` undoes `up`; `fecha_soporte` lands at index 6 |
| Migrations.SubjectLists | db/pb_migrations/1763128641_updated_historial.js:15-26 | the new subject list is the form's ten subjects; the old list is not a subset of it ("problemas de red" goes) |
| Migrations.SubjectsUpdate | db/pb_migrations/1763128641_updated_historial.js:2-51 | `up` replaces field 4 in place; `down` then restores the store when field 4 was the old `asunto` |
| Migrations.InstalledOnly | dbserve/pb_migrations/1762788936_created_historial.js:85 | after the create, the collection is the only one answering to its id |
| Migrations.StepInstalled | db/pb_migrations/1763128207_updated_historial.js:2-22 | an edit of the installed collection changes only its fields |
| Migrations.AsuntoStep | db/pb_migrations/1763128207_updated_historial.js:6-27 | on the created fields, add and remove of `asunto` give the seven fields in order |
| Migrations.SubjectsStep | db/pb_migrations/1763128641_updated_historial.js:6-48 | the subject update and its rollback replace field 4 in place |
| Migrations.DepartamentoStep | dbserve/pb_migrations/1769009758_updated_historial.js:6-25 | `departamento` lands right after `asunto`, and removing it restores the list |
| Migrations.FechaStep | dbserve/pb_migrations/1770039471_updated_historial.js:6-23 | the final nine field names in order, with distinct ids, and removing `fecha_soporte` restores the list |
| Migrations.UpChain | dbserve/pb_migrations/1770039471_updated_historial.js:2-18 | `up` steps that each succeed from one store to the next run through to the last store |
| Migrations.DownChain | dbserve/pb_migrations/1762788936_created_historial.js:86-90 | `down` steps that each undo one stage run from the last store back to the first |
| Migrations.Stage1 | dbserve/pb_migrations/1762788936_created_historial.js:2-90 | on a store without the collection, `up` appends it with the six created fields and `down` takes it away again |
| Migrations.Stage2 | db/pb_migrations/1763128207_updated_historial.js:2-30 | on the installed collection, `up` gives the seven fields with `asunto` and `down` gives back the six |
| Migrations.Stage3 | db/pb_migrations/1763128641_updated_historial.js:2-51 | `up` swaps in the ten-subject `asunto` and `down` the three-subject one |
| Migrations.Stage4 | dbserve/pb_migrations/1769009758_updated_historial.js:2-28 | `up` adds `departamento` after `asunto` and `down` removes it |
| Migrations.Stage5 | dbserve/pb_migrations/1770039471_updated_historial.js:2-26 | `up` adds `fecha_soporte` and gives the final nine fields; `down` removes it |
| Migrations.FreshInstall | dbserve/pb_migrations/1770039471_updated_historial.js:2-18 | applying the five files in timestamp order to a store without the collection installs it with the final nine fields |
| Migrations.FullRollback | dbserve/pb_migrations/1762788936_created_historial.js:86-90 | rolling the five files back in reverse order restores the original store |

## Left out

- Rendering: JSX, recharts, tabs, dialogs, popovers, CSS, `alert`, `console.*`. These are presentation only.
- `DataTable.handleDelete` (`frontend/src/components/DataTable.jsx:121-125`): only a `window.confirm` guard around the caller's `onDelete`, a user interaction.
- Network calls (`getFullList`, `create`, `update`, `delete`, `pb.files.getUrl`): their answers are `Response` parameters. The `await` points where another call could interleave are not modelled; each store method runs start to end.
- Clocks: `Date.now()`, `new Date()` and the local calendar date are parameters (`now`, `currentYear`, the year/month/day of `LocalToday`).
- `new Date(s + 'T12:00:00').toISOString()` is a symbolic value (`NoonIso`): the time-zone arithmetic is not modelled.
- Dates are records of year, 1-based month and epoch milliseconds. An unparseable date is `None`. `getMonth()`/`getFullYear()` time-zone effects are not modelled.
- The month key of the monthly chart is the (year, month) pair, not the `toLocaleDateString` label. The `Intl` month names are not modelled.
- A missing `expand.departamento.nombre` is the empty string.
- Js.Capitalize: changes the case of ASCII letters only. `toUpperCase`/`toLowerCase` map Unicode case, so an accented capital such as the `Á` of "REDES INALÁMBRICAS" stays upper case in the model, because the model has no Unicode case tables.
- EstadisticasTecnicos.ProcessData: a technician without `nombre` is counted under `""`, where `tecnicoCount[t.nombre]` files it under the key `"undefined"`, because the records model a missing `nombre` as the empty string.
- JavaScript's ordering of integer-like object keys before other keys is not modelled: objects keep insertion order.
- React's effect scheduling and identity of state objects are not modelled. Each effect is one method call with the props of that render; the monthly chart's effect therefore reads the selected year from before its own update, as the code does.
- `EstadisticasDepartamentos`: the group's first ticket (`Stat.first`) is computed but not shown by the department chart.
- PocketBase library code is not part of this model: the migration runner, its ledger of applied files, collection rules and indexes, and all save validations except distinct field ids and an unused collection id and name. `addAt` is taken to drop a field with the same id and insert at the index, or at the end when the index is past it. `removeById` of an absent id is a no-op. `findCollectionByNameOrId` matches the exact id or name in store order.
- Seqs.SortBy: the contract states sortedness and permutation, not stability; the definition is a stable insertion sort, as `Array.prototype.sort` is.
- PocketBase.App.Delete: never fails, because the collection it receives was just looked up.
- Migrations.FreshInstall: starts from a store that does not yet hold the collection. The `created`/`updated` autodate fields are taken as not required.

## Findings

| source | as written | input that shows it | evidently intended | confidence | as-written member | corrected member |
|---|---|---|---|---|---|---|
| frontend/src/pages/EstadisticasTecnicosPage.jsx:60-61 | the page renders the radar and department charts without `selectedYear`/`selectedMonth`, so their date filter (frontend/src/components/EstadisticasTecnicosRadar.jsx:20-35) runs with `undefined`, `parseInt(undefined)` is `NaN`, and every ticket is dropped | one ticket dated 2025-03, subject "redes", technician t1 selected: both charts are empty | the page shows all of the technician's tickets (year and month "all") | not executed | EstadisticasTecnicosPage.PageChartsAlwaysEmpty | EstadisticasTecnicosPage.PageChartsSpec |
