/** What a caller of the handlers can rely on across several calls, proved
 *  from the handlers' contracts alone. */
module Scenarios {
  import opened Models
  import Utils
  import opened Store

  /** Both cascade deletions are idempotent: a second call with the same key
   *  finds nothing, returns 0 and leaves the enrollment table as it was. */
  method CascadasIdempotentes(db: Database, cedula: int, cursoId: int)
    returns (n1: nat, n2: nat, m1: nat, m2: nat)
    modifies db
    ensures n2 == 0 && m2 == 0
    ensures n1 == |Utils.MatriculasDeEstudiante(old(db.matriculas), cedula)|
    ensures db.matriculas == Utils.SinCurso(Utils.SinEstudiante(old(db.matriculas), cedula), cursoId)
    ensures db.estudiantes == old(db.estudiantes) && db.cursos == old(db.cursos)
  {
    n1 := db.EliminarMatriculasPorEstudiante(cedula);
    var despues := db.matriculas;
    n2 := db.EliminarMatriculasPorEstudiante(cedula);
    Utils.CascadaEstudianteIdempotente(old(db.matriculas), cedula);
    assert db.matriculas == despues;
    m1 := db.EliminarMatriculasPorCurso(cursoId);
    despues := db.matriculas;
    m2 := db.EliminarMatriculasPorCurso(cursoId);
    Utils.CascadaCursoIdempotente(Utils.SinEstudiante(old(db.matriculas), cedula), cursoId);
    assert db.matriculas == despues;
  }

  /** A created student is found again under its key, unarchived, and a
   *  later update is what the next get returns. */
  method CreateUpdateGetEstudiante(db: Database, alta: EstudianteCreate, cambio: EstudianteCreate)
    returns (creado: Result<Estudiante>, leido: Result<Estudiante>, actualizado: Result<Estudiante>,
             releido: Result<Estudiante>)
    requires db.Valid()
    modifies db
    ensures creado.Ok? ==> creado.value.cedula.Some? && leido == creado && !leido.value.archivado
    ensures creado.Ok? && actualizado.Ok? ==>
              actualizado.value.cedula.Some? && releido == actualizado && !releido.value.archivado
  {
    creado := db.CreateEstudiante(alta);
    if creado.Err? {
      return creado, creado, creado, creado;
    }
    var cedula := creado.value.cedula.value;
    leido := db.GetOneEstudiante(cedula);
    actualizado := db.UpdateEstudiante(cedula, cambio);
    if actualizado.Err? {
      return creado, leido, actualizado, actualizado;
    }
    releido := db.GetOneEstudiante(actualizado.value.cedula.value);
  }

  /** A created course is found again under the key it was given, and a
   *  later update is what the next get returns. */
  method CreateUpdateGetCurso(db: Database, alta: CursoCreate, cambio: CursoCreate)
    returns (creado: Result<Curso>, leido: Result<Curso>, actualizado: Result<Curso>, releido: Result<Curso>)
    requires db.Valid()
    modifies db
    ensures creado.Ok? ==> creado.value.id.Some? && leido == creado
    ensures creado.Ok? && actualizado.Ok? ==> actualizado.value.id.Some? && releido == actualizado
  {
    creado := db.CreateCurso(alta);
    if creado.Err? {
      return creado, creado, creado, creado;
    }
    var id := creado.value.id.value;
    leido := db.GetOneCurso(id);
    actualizado := db.UpdateCurso(id, cambio);
    if actualizado.Err? {
      return creado, leido, actualizado, actualizado;
    }
    releido := db.GetOneCurso(actualizado.value.id.value);
  }
}
