/** The enrollment-relation helpers of utils.py: what the two cascade
 *  deletions select and leave behind, and the two inner-join projections. */
module Utils {
  import opened Models

  // ---------------------------------------------------------------------
  // eliminar_matriculas_por_estudiante / eliminar_matriculas_por_curso
  // ---------------------------------------------------------------------

  /** `select(Matricula).where(Matricula.estudiante_cedula == cedula)`: the
   *  fetched rows and the rows the deletion keeps split the table in two. */
  function MatriculasDeEstudiante(m: Matriculas, cedula: int): (r: set<MatriculaKey>)
    ensures r + SinEstudiante(m, cedula).Keys == m.Keys
    ensures r * SinEstudiante(m, cedula).Keys == {}
  {
    set k | k in m && k.1 == cedula
  }

  /** `select(Matricula).where(Matricula.curso_id == cursoId)`: the fetched
   *  rows and the rows the deletion keeps split the table in two. */
  function MatriculasDeCurso(m: Matriculas, cursoId: int): (r: set<MatriculaKey>)
    ensures r + SinCurso(m, cursoId).Keys == m.Keys
    ensures r * SinCurso(m, cursoId).Keys == {}
  {
    set k | k in m && k.0 == cursoId
  }

  /** The enrollment table once every row of `cedula` has been deleted. */
  function SinEstudiante(m: Matriculas, cedula: int): Matriculas
  {
    map k | k in m && k.1 != cedula :: m[k]
  }

  /** The enrollment table once every row of `cursoId` has been deleted. */
  function SinCurso(m: Matriculas, cursoId: int): Matriculas
  {
    map k | k in m && k.0 != cursoId :: m[k]
  }

  /** Deleting a student's enrollments loses no other row and removes exactly
   *  the rows it counts. */
  lemma CascadaEstudianteCuenta(m: Matriculas, cedula: int)
    ensures |m| == |SinEstudiante(m, cedula)| + |MatriculasDeEstudiante(m, cedula)|
  {
  }

  lemma CascadaCursoCuenta(m: Matriculas, cursoId: int)
    ensures |m| == |SinCurso(m, cursoId)| + |MatriculasDeCurso(m, cursoId)|
  {
  }

  /** A second deletion for the same student finds nothing to delete and
   *  leaves the table as the first one left it. */
  lemma CascadaEstudianteIdempotente(m: Matriculas, cedula: int)
    ensures MatriculasDeEstudiante(SinEstudiante(m, cedula), cedula) == {}
    ensures SinEstudiante(SinEstudiante(m, cedula), cedula) == SinEstudiante(m, cedula)
  {
  }

  lemma CascadaCursoIdempotente(m: Matriculas, cursoId: int)
    ensures MatriculasDeCurso(SinCurso(m, cursoId), cursoId) == {}
    ensures SinCurso(SinCurso(m, cursoId), cursoId) == SinCurso(m, cursoId)
  {
  }

  // ---------------------------------------------------------------------
  // obtener_cursos_de_estudiante / obtener_estudiantes_de_curso
  // ---------------------------------------------------------------------

  /** The enrollments of `cedula` that join with a stored course. */
  function CursoJoinRows(cursos: Cursos, m: Matriculas, cedula: int): set<MatriculaKey>
  {
    set k | k in m && k.1 == cedula && k.0 in cursos
  }

  /** The enrollments of `cursoId` that join with a stored student. */
  function EstudianteJoinRows(estudiantes: Estudiantes, m: Matriculas, cursoId: int): set<MatriculaKey>
  {
    set k | k in m && k.0 == cursoId && k.1 in estudiantes
  }

  /** `select(Curso).join(Matricula, Curso.id == Matricula.curso_id)
   *  .where(Matricula.estudiante_cedula == cedula)`: one course per joined
   *  enrollment. The query has no ORDER BY, so the result is a set. It only
   *  returns stored courses, and it is empty, not an error, when the student
   *  has no enrollment. */
  function CursosDeEstudiante(cursos: Cursos, m: Matriculas, cedula: int): (r: set<Curso>)
    ensures forall x :: x in r ==> x in cursos.Values
    ensures (forall k :: k in m ==> k.1 != cedula) ==> r == {}
  {
    CursosOf(cursos, CursoJoinRows(cursos, m, cedula))
  }

  /** `select(Estudiante).join(Matricula, Estudiante.cedula ==
   *  Matricula.estudiante_cedula).where(Matricula.curso_id == cursoId)`. */
  function EstudiantesDeCurso(estudiantes: Estudiantes, m: Matriculas, cursoId: int): (r: set<Estudiante>)
    ensures forall x :: x in r ==> x in estudiantes.Values
    ensures (forall k :: k in m ==> k.0 != cursoId) ==> r == {}
  {
    EstudiantesOf(estudiantes, EstudianteJoinRows(estudiantes, m, cursoId))
  }

  /** A course is in a student's list exactly when it is the stored course
   *  of its id and the student has an enrollment for that id. */
  lemma CursosDeEstudianteMiembros(cursos: Cursos, m: Matriculas, cedula: int, x: Curso)
    requires CursosKeyed(cursos)
    ensures x in CursosDeEstudiante(cursos, m, cedula)
        <==> x.id.Some? && x.id.value in cursos && cursos[x.id.value] == x && (x.id.value, cedula) in m
  {
    var rows := CursoJoinRows(cursos, m, cedula);
    if x in CursosDeEstudiante(cursos, m, cedula) {
      var k :| k in rows && cursos[k.0] == x;
      var i := k.0;
      assert i in cursos && cursos[i].id == Some(i);
    }
    if x.id.Some? && x.id.value in cursos && cursos[x.id.value] == x && (x.id.value, cedula) in m {
      var i := x.id.value;
      assert (i, cedula) in rows;
    }
  }

  /** A student is in a course's list exactly when it is the stored student
   *  of its cedula and has an enrollment in that course. Archived students
   *  are not filtered out. */
  lemma EstudiantesDeCursoMiembros(estudiantes: Estudiantes, m: Matriculas, cursoId: int, x: Estudiante)
    requires EstudiantesKeyed(estudiantes)
    ensures x in EstudiantesDeCurso(estudiantes, m, cursoId)
        <==> x.cedula.Some? && x.cedula.value in estudiantes && estudiantes[x.cedula.value] == x
             && (cursoId, x.cedula.value) in m
  {
    var rows := EstudianteJoinRows(estudiantes, m, cursoId);
    if x in EstudiantesDeCurso(estudiantes, m, cursoId) {
      var k :| k in rows && estudiantes[k.1] == x;
      var i := k.1;
      assert i in estudiantes && estudiantes[i].cedula == Some(i);
    }
    if x.cedula.Some? && x.cedula.value in estudiantes && estudiantes[x.cedula.value] == x
       && (cursoId, x.cedula.value) in m {
      var i := x.cedula.value;
      assert (cursoId, i) in rows;
    }
  }

  /** The course of each row of `rows`. */
  function CursosOf(cursos: Cursos, rows: set<MatriculaKey>): set<Curso>
    requires forall k :: k in rows ==> k.0 in cursos
  {
    set k | k in rows :: cursos[k.0]
  }

  /** The student of each row of `rows`. */
  function EstudiantesOf(estudiantes: Estudiantes, rows: set<MatriculaKey>): set<Estudiante>
    requires forall k :: k in rows ==> k.1 in estudiantes
  {
    set k | k in rows :: estudiantes[k.1]
  }

  /** Rows with distinct course ids name distinct stored courses. */
  lemma {:induction false} CursosOfCuenta(cursos: Cursos, rows: set<MatriculaKey>)
    requires CursosKeyed(cursos)
    requires forall k :: k in rows ==> k.0 in cursos
    requires forall a, b :: a in rows && b in rows && a.0 == b.0 ==> a == b
    ensures |CursosOf(cursos, rows)| == |rows|
    decreases |rows|
  {
    if rows != {} {
      var a :| a in rows;
      var rest := rows - {a};
      CursosOfCuenta(cursos, rest);
      var i := a.0;
      assert CursosOf(cursos, rows) == CursosOf(cursos, rest) + {cursos[i]};
    }
  }

  /** Rows with distinct cedulas name distinct stored students. */
  lemma {:induction false} EstudiantesOfCuenta(estudiantes: Estudiantes, rows: set<MatriculaKey>)
    requires EstudiantesKeyed(estudiantes)
    requires forall k :: k in rows ==> k.1 in estudiantes
    requires forall a, b :: a in rows && b in rows && a.1 == b.1 ==> a == b
    ensures |EstudiantesOf(estudiantes, rows)| == |rows|
    decreases |rows|
  {
    if rows != {} {
      var a :| a in rows;
      var rest := rows - {a};
      EstudiantesOfCuenta(estudiantes, rest);
      var i := a.1;
      assert EstudiantesOf(estudiantes, rows) == EstudiantesOf(estudiantes, rest) + {estudiantes[i]};
    }
  }

  /** The join yields one course per joined enrollment, with no duplicates:
   *  the list the query returns has as many entries as the enrollments of
   *  `cedula` whose course exists. */
  lemma CursosDeEstudianteCuenta(cursos: Cursos, m: Matriculas, cedula: int)
    requires CursosKeyed(cursos)
    ensures |CursosDeEstudiante(cursos, m, cedula)| == |CursoJoinRows(cursos, m, cedula)|
  {
    CursosOfCuenta(cursos, CursoJoinRows(cursos, m, cedula));
  }

  /** One student per joined enrollment, with no duplicates. */
  lemma EstudiantesDeCursoCuenta(estudiantes: Estudiantes, m: Matriculas, cursoId: int)
    requires EstudiantesKeyed(estudiantes)
    ensures |EstudiantesDeCurso(estudiantes, m, cursoId)| == |EstudianteJoinRows(estudiantes, m, cursoId)|
  {
    EstudiantesOfCuenta(estudiantes, EstudianteJoinRows(estudiantes, m, cursoId));
  }

  /** Inner join: an enrollment whose course is not stored contributes
   *  nothing, so dropping such rows does not change the result. */
  lemma CursosDeEstudianteIgnoraHuerfanas(cursos: Cursos, m: Matriculas, cedula: int)
    ensures CursosDeEstudiante(cursos, map k | k in m && k.0 in cursos :: m[k], cedula)
         == CursosDeEstudiante(cursos, m, cedula)
  {
  }

  lemma EstudiantesDeCursoIgnoraHuerfanas(estudiantes: Estudiantes, m: Matriculas, cursoId: int)
    ensures EstudiantesDeCurso(estudiantes, map k | k in m && k.1 in estudiantes :: m[k], cursoId)
         == EstudiantesDeCurso(estudiantes, m, cursoId)
  {
  }

  /** The two projections are two views of one relation: a stored course is
   *  among a stored student's courses exactly when the student is among the
   *  course's students. */
  lemma JoinsEspejo(estudiantes: Estudiantes, cursos: Cursos, m: Matriculas, cedula: int, cursoId: int)
    requires EstudiantesKeyed(estudiantes) && CursosKeyed(cursos)
    requires cedula in estudiantes && cursoId in cursos
    ensures cursos[cursoId] in CursosDeEstudiante(cursos, m, cedula)
        <==> estudiantes[cedula] in EstudiantesDeCurso(estudiantes, m, cursoId)
  {
  }

  /** After a student's enrollments are deleted the student has no course,
   *  and every other student keeps the courses it had. */
  lemma CursosTrasCascadaEstudiante(cursos: Cursos, m: Matriculas, cedula: int, otra: int)
    requires otra != cedula
    ensures CursosDeEstudiante(cursos, SinEstudiante(m, cedula), cedula) == {}
    ensures CursosDeEstudiante(cursos, SinEstudiante(m, cedula), otra) == CursosDeEstudiante(cursos, m, otra)
  {
  }

  /** After a course's enrollments are deleted the course has no student,
   *  and every other course keeps the students it had. */
  lemma EstudiantesTrasCascadaCurso(estudiantes: Estudiantes, m: Matriculas, cursoId: int, otro: int)
    requires otro != cursoId
    ensures EstudiantesDeCurso(estudiantes, SinCurso(m, cursoId), cursoId) == {}
    ensures EstudiantesDeCurso(estudiantes, SinCurso(m, cursoId), otro) == EstudiantesDeCurso(estudiantes, m, otro)
  {
  }

  /** After a course's enrollments are deleted, that course disappears from
   *  every student's list and nothing else does. */
  lemma CursosTrasCascadaCurso(cursos: Cursos, m: Matriculas, cursoId: int, cedula: int, x: Curso)
    requires CursosKeyed(cursos)
    ensures x in CursosDeEstudiante(cursos, SinCurso(m, cursoId), cedula)
        <==> x in CursosDeEstudiante(cursos, m, cedula) && x.id != Some(cursoId)
  {
  }

  /** Deleting enrollments never leaves a dangling foreign key behind. */
  lemma CascadaPreservaReferencias(estudiantes: Estudiantes, cursos: Cursos, m: Matriculas, cedula: int, cursoId: int)
    requires ReferencesResolve(estudiantes, cursos, m)
    ensures ReferencesResolve(estudiantes, cursos, SinEstudiante(m, cedula))
    ensures ReferencesResolve(estudiantes, cursos, SinCurso(m, cursoId))
  {
  }
}
