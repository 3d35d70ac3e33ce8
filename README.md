# University records: a Dafny model

This project models the record-keeping core of a small university
administration service ("Sistema de Gestión Universitario"). The service keeps
three tables in one SQLite file, `Universidad.sqlite3`:

- `estudiante`, keyed by `cedula`, with a soft-delete flag `archivado`;
- `curso`, keyed by `id`;
- `matricula`, the many-to-many enrollment relation, keyed by the pair
  `(curso_id, estudiante_cedula)`, with a `fecha`.

The model holds the same three tables as maps from primary key to row. A map
holds at most one row per key, which is what a primary key means. The
enrollment table maps each `(curso_id, estudiante_cedula)` pair to its
`fecha`, so it has at most one row per pair by construction.

- `models.dfy` (module `Models`) holds the row shapes, the request bodies and
  the attribute assignments an update performs. Nullable columns are
  `Option`. Whether a request field was sent is `Patch` (`Unset | Set`).
- `utils.dfy` (module `Utils`) holds the enrollment helpers as
  specification functions: the rows each cascade deletion selects, the table
  it leaves behind, and the two inner-join projections. The lemmas about
  counts, idempotence, membership and cardinality are also here.
- `store.dfy` (module `Store`) holds the class `Database`, with the three
  tables as fields. Its methods are the two cascade deletions, which loop
  over the fetched rows and delete them one at a time, and the create, get
  and update handlers for students and courses. Update applies the setattr
  loop to the stored row. Each handler is one atomic step: add, commit and
  refresh together.
- `scenarios.dfy` (module `Scenarios`) holds client methods that chain
  handler calls. They state what a caller can rely on across several calls.

Behaviour the code settles in a way that may be surprising. The model
follows the code in each case:

- `update_estudiante` and `update_curso` declare the *Create* schemas, not
  the unused *Update* schemas (estudiante.py:24, curso.py:24). In those
  schemas `nombre`, `email`, `semestre`, `Creditos` and `Horario` are
  declared with `Field(description=...)` and no default. The model assumes
  Pydantic 2, which the handlers' `model_dump` and `model_validate` calls
  point to. Under Pydantic 2 a field without a default is required, so a
  validated body always carries these fields. (Under Pydantic 1 an `Optional`
  field without a default would default to None, and the update would be a
  true partial update.) Only the primary key may
  be left out. An update therefore rewrites every non-key column. When the
  body sends a key, the row moves to that key. `UpdateEstudianteFromCreate`
  and `UpdateCursoFromCreate` state this. `UpdateEstudianteFromUpdateSchema`
  and `UpdateCursoFromUpdateSchema` state what the all-optional *Update*
  schemas would do instead.
- `get_one_estudiante` returns archived students like any other.
- Neither create handler checks for a key already in use. SQLite rejects the
  insert at commit. The model returns `IntegrityError` and leaves the table
  unchanged; the handlers give no 409. An update that would move a row onto
  a used key, or set its key to NULL, is rejected at commit in the same way.
- An update that sends no field besides the required ones is not rejected.
  There is no 400.
- When a create body sends no key, or a NULL key, SQLite assigns one:
  one more than the largest key, or 1 in an empty table (`NextRowId`). The
  rest of the model relies only on that key being fresh.
- `db.py` never turns on SQLite's foreign-key enforcement, so the declared
  foreign keys of `matricula` are not checked. `ForeignKeysHold` is a
  predicate over the tables. Every operation preserves it, except an update
  that moves a referenced row to a new key.

## Model

| member | source | states |
|---|---|---|
| `Models.MatriculaUnicaPorPar` | models.py:28-31 | two enrollment rows with the same `(curso_id, estudiante_cedula)` are the same row |
| `Models.CursoCreate.UpdateData` | curso.py:29 | the dumped items of a CursoCreate body name each column at most once, name the id exactly when it was sent, and always name `nombre`, `Creditos` and `Horario` |
| `Models.EstudianteCreate.UpdateData` | estudiante.py:29 | the dumped items of an EstudianteCreate body name each column at most once, name the cedula exactly when it was sent, and always name `nombre`, `email` and `semestre` |
| `Models.CursoUpdate.UpdateData` | models.py:43-47 | the dumped items of a CursoUpdate body name exactly the fields sent, each once, and never the id |
| `Models.EstudianteUpdate.UpdateData` | models.py:49-53 | the dumped items of an EstudianteUpdate body name exactly the fields sent, each once, and never the cedula |
| `Models.SetCursoAttrs` | curso.py:30-31 | a column that no assigned item names keeps its stored value |
| `Models.SetEstudianteAttrs` | estudiante.py:30-31 | no sequence of attribute assignments changes `archivado`, because the body schema has no such field; any other column no item names keeps its value |
| `Models.UpdateCursoIsCreateRow` | curso.py:7-31 | a PUT with a CursoCreate body leaves the row that a POST of the same body would create, except that an unsent id keeps the stored one |
| `Models.UpdateEstudianteIsCreateRow` | estudiante.py:7-31 | a PUT with an EstudianteCreate body leaves the row a POST of the same body would create, except that an unsent cedula and `archivado` keep their stored values |
| `Models.UpdateEstudianteFromCreate` | estudiante.py:24-31 | the setattr loop over an EstudianteCreate dump changes the key only when one is sent and overwrites nombre, email and semestre |
| `Models.UpdateCursoFromCreate` | curso.py:24-31 | the setattr loop over a CursoCreate dump changes the id only when one is sent and overwrites nombre, Creditos and Horario |
| `Models.UpdateEstudianteFromUpdateSchema` | models.py:49-53 | with the EstudianteUpdate schema exactly the sent fields change; an empty update changes nothing; key and `archivado` never change |
| `Models.UpdateCursoFromUpdateSchema` | models.py:43-47 | with the CursoUpdate schema exactly the sent fields change; an empty update changes nothing; the id never changes |
| `Utils.MatriculasDeEstudiante` | utils.py:19-20 | the rows fetched for a student and the rows the deletion keeps are disjoint and together make up the table |
| `Utils.MatriculasDeCurso` | utils.py:39-40 | the rows fetched for a course and the rows the deletion keeps are disjoint and together make up the table |
| `Utils.CascadaEstudianteCuenta` | utils.py:19-25 | the rows left plus the rows counted for a student equal the rows before: every deleted row is counted once and no other row is lost |
| `Utils.CascadaCursoCuenta` | utils.py:39-45 | the same for the deletion by course |
| `Utils.CascadaEstudianteIdempotente` | utils.py:19-25 | after the deletion no row of the student remains, and a second deletion changes nothing |
| `Utils.CascadaCursoIdempotente` | utils.py:39-45 | after the deletion no row of the course remains, and a second deletion changes nothing |
| `Utils.CascadaPreservaReferencias` | utils.py:19-45 | deleting enrollments never leaves a dangling foreign key |
| `Utils.CursosDeEstudiante` | utils.py:60-65 | the join returns only stored courses, and an empty result, not an error, for a student without enrollments |
| `Utils.EstudiantesDeCurso` | utils.py:80-85 | the join returns only stored students, and an empty result for a course without enrollments |
| `Utils.CursosDeEstudianteMiembros` | utils.py:60-65 | a course is returned if and only if it is the stored course of its id and the student is enrolled in that id |
| `Utils.EstudiantesDeCursoMiembros` | utils.py:80-85 | a student is returned if and only if it is the stored student of its cedula and is enrolled in the course, archived or not |
| `Utils.CursosDeEstudianteCuenta` | utils.py:60-65 | the join yields exactly one course per enrollment of the student whose course exists: no duplicates |
| `Utils.EstudiantesDeCursoCuenta` | utils.py:80-85 | the join yields exactly one student per enrollment of the course whose student exists: no duplicates |
| `Utils.CursosDeEstudianteIgnoraHuerfanas` | utils.py:60-63 | inner join: enrollments that point at a missing course contribute nothing |
| `Utils.EstudiantesDeCursoIgnoraHuerfanas` | utils.py:80-83 | inner join: enrollments that point at a missing student contribute nothing |
| `Utils.JoinsEspejo` | utils.py:48-85 | a stored course is among a stored student's courses if and only if the student is among the course's students |
| `Utils.CursosTrasCascadaEstudiante` | utils.py:19-23 | after a student's enrollments are deleted the student's course list is empty and every other student's list is unchanged |
| `Utils.EstudiantesTrasCascadaCurso` | utils.py:39-43 | after a course's enrollments are deleted its student list is empty and every other course's list is unchanged |
| `Utils.CursosTrasCascadaCurso` | utils.py:39-43 | after a course's enrollments are deleted that course leaves every student's course list and nothing else does |
| `Store.NextRowId` | models.py:6 | the key given to a row inserted without one is unused, larger than every key, and one more than the largest (1 in an empty table) |
| `Store.SetEstudianteAttrsLoop` | estudiante.py:30-31 | the in-place setattr loop leaves the row the fold `SetEstudianteAttrs` specifies |
| `Store.SetCursoAttrsLoop` | curso.py:30-31 | the in-place setattr loop leaves the row the fold `SetCursoAttrs` specifies |
| `Store.Database.constructor` | db.py:12-14 | a new database has three empty tables |
| `Store.Database.EliminarMatriculasPorEstudiante` | utils.py:8-25 | removes exactly the student's enrollments, keeps every other row with its `fecha`, returns their number, preserves resolved foreign keys |
| `Store.Database.EliminarMatriculasPorCurso` | utils.py:28-45 | removes exactly the course's enrollments, keeps every other row, returns their number |
| `Store.Database.CreateEstudiante` | estudiante.py:7-14 | stores the body under the sent cedula, or a fresh one when none is sent, with `archivado` false, and returns the stored row; a used cedula fails and changes nothing |
| `Store.Database.GetOneEstudiante` | estudiante.py:16-21 | returns the stored row exactly when the key is present, archived or not, else 404 "Estudiante no encontrado" |
| `Store.Database.UpdateEstudiante` | estudiante.py:23-36 | 404 and no change when absent; otherwise the row with the body's fields and unchanged `archivado`, moved to a sent key unless that key is NULL or used; other rows untouched |
| `Store.Database.CreateCurso` | curso.py:7-14 | stores the body under the sent id, or a fresh one when none is sent, and returns it; a used id fails and changes nothing |
| `Store.Database.GetOneCurso` | curso.py:16-21 | returns the stored course exactly when the key is present, else 404 "Curso no encontrado" |
| `Store.Database.UpdateCurso` | curso.py:23-36 | 404 and no change when absent; otherwise the row with the body's fields, moved to a sent id unless NULL or used; other courses and the enrollment table untouched |
| `Scenarios.CascadasIdempotentes` | utils.py:8-45 | a second cascade deletion with the same key returns 0 and changes nothing |
| `Scenarios.CreateUpdateGetEstudiante` | estudiante.py:7-36 | a created student is what get returns under its key, unarchived; after an update, get returns the updated row |
| `Scenarios.CreateUpdateGetCurso` | curso.py:7-36 | a created course is what get returns under its id; after an update, get returns the updated row |

## Left out

- main.py and db.py are not part of this model: the FastAPI app, router
  wiring, the SQLite engine, session creation and the table-creation hook.
  The `Database` constructor stands for the empty tables.
- The handlers are `async`, and each opens its own session. Here each handler
  is one atomic step on the in-memory tables. Concurrent requests and the
  session's commit and refresh mechanics are not modelled.
- Request validation and serialisation (`model_dump`, `model_validate`, the
  422 response for a malformed body) are not modelled. Bodies enter the model
  already validated. The type of a Create body says which fields it must
  carry.
- `datetime.date.today()` is an input (`hoy`). Dates and strings are opaque
  values.
- Integers are unbounded. SQLite keys are 64-bit, and the case where the
  largest key is already the 64-bit maximum (SQLite then picks a random
  unused key) is not modelled.
- Models.NuevaMatricula: only a definition of a new enrollment row, with
  `fecha` defaulting to the date passed in. No operation in these handlers
  creates enrollments, so nothing is proved about it.
- Utils.CursosDeEstudiante: returns a set, not the query's list. The query
  has no ORDER BY, so the order is not specified. `Utils.CursosDeEstudianteCuenta`
  states that the list has no duplicates.
- Utils.EstudiantesDeCurso: returns a set, not the query's list, for the same
  reason. `Utils.EstudiantesDeCursoCuenta` states that it has no duplicates.
- Listing, deleting and archiving records, enrolling and unenrolling, and the
  409 conflict responses do not appear in these handlers. None of them is
  modelled. The cascade deletions are modelled as the helpers they are. Their
  callers are not part of this model.
