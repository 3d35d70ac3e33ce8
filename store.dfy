/** The in-memory view of the database `Universidad.sqlite3` and the
 *  operations that read and change it: the cascade deletions of utils.py and
 *  the create / get / update handlers of estudiante.py and curso.py, each
 *  one atomic step (the session's add, commit and refresh together). */
module Store {
  import opened Models
  import Utils

  /** How a handler fails: an `HTTPException` it raises itself, or an
   *  integrity error the database raises at commit, after which the unit of
   *  work is rolled back. */
  datatype Error = HttpException(statusCode: int, detail: string) | IntegrityError

  datatype Result<T> = Ok(value: T) | Err(error: Error)

  const EstudianteNoEncontrado := HttpException(404, "Estudiante no encontrado")
  const CursoNoEncontrado := HttpException(404, "Curso no encontrado")

  /** The key SQLite gives a row inserted with a NULL INTEGER PRIMARY KEY:
   *  one more than the largest key in the table, or 1 in an empty table. */
  method NextRowId(keys: set<int>) returns (k: int)
    ensures k !in keys
    ensures forall j :: j in keys ==> j < k
    ensures keys == {} ==> k == 1
    ensures keys != {} ==> k - 1 in keys
  {
    if keys == {} {
      return 1;
    }
    if forall j :: j !in keys {
      assert false;
    }
    var largest :| largest in keys;
    var rest := keys - {largest};
    while rest != {}
      invariant rest <= keys
      invariant largest in keys
      invariant forall j :: j in keys && j !in rest ==> j <= largest
      decreases rest
    {
      if forall j :: j !in rest {
        assert false;
      }
      var j :| j in rest;
      if j > largest {
        largest := j;
      }
      rest := rest - {j};
    }
    k := largest + 1;
  }

  /** `for key, value in update_data.items(): setattr(estudiante_db, key,
   *  value)`, on the row fetched by the update handler. */
  method SetEstudianteAttrsLoop(row: Estudiante, updateData: seq<EstudianteAttr>) returns (r: Estudiante)
    ensures r == SetEstudianteAttrs(row, updateData)
  {
    r := row;
    for i := 0 to |updateData|
      invariant r == SetEstudianteAttrs(row, updateData[..i])
    {
      assert updateData[..i + 1][..i] == updateData[..i];
      r := SetEstudianteAttr(r, updateData[i]);
    }
    assert updateData[..|updateData|] == updateData;
  }

  /** The same loop over a course row. */
  method SetCursoAttrsLoop(row: Curso, updateData: seq<CursoAttr>) returns (r: Curso)
    ensures r == SetCursoAttrs(row, updateData)
  {
    r := row;
    for i := 0 to |updateData|
      invariant r == SetCursoAttrs(row, updateData[..i])
    {
      assert updateData[..i + 1][..i] == updateData[..i];
      r := SetCursoAttr(r, updateData[i]);
    }
    assert updateData[..|updateData|] == updateData;
  }

  class Database {
    var estudiantes: Estudiantes
    var cursos: Cursos
    var matriculas: Matriculas

    /** Each row is stored under its own primary key. */
    ghost predicate Valid()
      reads this
    {
      EstudiantesKeyed(estudiantes) && CursosKeyed(cursos)
    }

    /** Every enrollment references a stored course and a stored student. */
    ghost predicate ForeignKeysHold()
      reads this
    {
      ReferencesResolve(estudiantes, cursos, matriculas)
    }

    /** The tables `create_tables` leaves in a fresh database file. */
    constructor ()
      ensures Valid() && ForeignKeysHold()
      ensures estudiantes == map[] && cursos == map[] && matriculas == map[]
    {
      estudiantes, cursos, matriculas := map[], map[], map[];
    }

    // -------------------------------------------------------------------
    // utils.py
    // -------------------------------------------------------------------

    /** `eliminar_matriculas_por_estudiante`: deletes every enrollment of
     *  `cedula`, one fetched row at a time, and returns how many it fetched. */
    method EliminarMatriculasPorEstudiante(cedula: int) returns (n: nat)
      modifies this`matriculas
      ensures matriculas == Utils.SinEstudiante(old(matriculas), cedula)
      ensures n == |Utils.MatriculasDeEstudiante(old(matriculas), cedula)|
      ensures n == |old(matriculas)| - |matriculas|
      ensures old(ForeignKeysHold()) ==> ForeignKeysHold()
    {
      var filas := Utils.MatriculasDeEstudiante(matriculas, cedula);
      var pendientes := filas;
      while pendientes != {}
        invariant pendientes <= filas
        invariant matriculas == map k | k in old(matriculas) && k !in filas - pendientes :: old(matriculas)[k]
        decreases pendientes
      {
        var fila :| fila in pendientes;
        matriculas := matriculas - {fila};
        pendientes := pendientes - {fila};
      }
      assert filas - pendientes == filas;
      n := |filas|;
      Utils.CascadaEstudianteCuenta(old(matriculas), cedula);
    }

    /** `eliminar_matriculas_por_curso`: deletes every enrollment of
     *  `cursoId` and returns how many it fetched. */
    method EliminarMatriculasPorCurso(cursoId: int) returns (n: nat)
      modifies this`matriculas
      ensures matriculas == Utils.SinCurso(old(matriculas), cursoId)
      ensures n == |Utils.MatriculasDeCurso(old(matriculas), cursoId)|
      ensures n == |old(matriculas)| - |matriculas|
      ensures old(ForeignKeysHold()) ==> ForeignKeysHold()
    {
      var filas := Utils.MatriculasDeCurso(matriculas, cursoId);
      var pendientes := filas;
      while pendientes != {}
        invariant pendientes <= filas
        invariant matriculas == map k | k in old(matriculas) && k !in filas - pendientes :: old(matriculas)[k]
        decreases pendientes
      {
        var fila :| fila in pendientes;
        matriculas := matriculas - {fila};
        pendientes := pendientes - {fila};
      }
      assert filas - pendientes == filas;
      n := |filas|;
      Utils.CascadaCursoCuenta(old(matriculas), cursoId);
    }

    // -------------------------------------------------------------------
    // estudiante.py
    // -------------------------------------------------------------------

    /** `create_estudiante`: inserts the body as a new row with `archivado`
     *  false, under the sent cedula or, when none is sent, under a fresh one;
     *  returns the stored row. A cedula already in use fails at commit. */
    method CreateEstudiante(body: EstudianteCreate) returns (r: Result<Estudiante>)
      requires Valid()
      modifies this`estudiantes
      ensures Valid()
      ensures body.ToRow().cedula.Some? && body.ToRow().cedula.value in old(estudiantes) ==>
                r == Err(IntegrityError) && estudiantes == old(estudiantes)
      ensures body.ToRow().cedula.Some? && body.ToRow().cedula.value !in old(estudiantes) ==>
                r == Ok(body.ToRow())
      ensures body.ToRow().cedula.None? ==> r.Ok? && r.value == body.ToRow().(cedula := r.value.cedula)
      ensures r.Ok? ==>
                && !r.value.archivado
                && r.value.cedula.Some? && r.value.cedula.value !in old(estudiantes)
                && estudiantes == old(estudiantes)[r.value.cedula.value := r.value]
      ensures old(ForeignKeysHold()) ==> ForeignKeysHold()
    {
      var estudiante := body.ToRow();
      match estudiante.cedula
      case None =>
        var cedula := NextRowId(estudiantes.Keys);
        estudiante := estudiante.(cedula := Some(cedula));
        estudiantes := estudiantes[cedula := estudiante];
        r := Ok(estudiante);
      case Some(cedula) =>
        if cedula in estudiantes {
          r := Err(IntegrityError);
        } else {
          estudiantes := estudiantes[cedula := estudiante];
          r := Ok(estudiante);
        }
    }

    /** `get_one_estudiante`: the stored row, archived or not, or 404. */
    method GetOneEstudiante(estudianteId: int) returns (r: Result<Estudiante>)
      ensures r.Ok? <==> estudianteId in estudiantes
      ensures r.Ok? ==> r.value == estudiantes[estudianteId]
      ensures r.Err? ==> r.error == EstudianteNoEncontrado
    {
      if estudianteId !in estudiantes {
        return Err(EstudianteNoEncontrado);
      }
      r := Ok(estudiantes[estudianteId]);
    }

    /** `update_estudiante`: 404 when absent; otherwise sets on the stored row
     *  each attribute the body carries, then commits. The body is an
     *  EstudianteCreate, so every column but `archivado` is rewritten and the
     *  key moves when the body sends a new one; a NULL key or one already in
     *  use fails at commit and nothing changes. */
    method UpdateEstudiante(estudianteId: int, body: EstudianteCreate) returns (r: Result<Estudiante>)
      requires Valid()
      modifies this`estudiantes
      ensures Valid()
      ensures estudianteId !in old(estudiantes) ==> r == Err(EstudianteNoEncontrado) && estudiantes == old(estudiantes)
      ensures estudianteId in old(estudiantes) ==>
        var row := Estudiante(body.cedula.Over(Some(estudianteId)), body.nombre, body.email, body.semestre,
                              old(estudiantes)[estudianteId].archivado);
        match row.cedula
        case None => r == Err(IntegrityError) && estudiantes == old(estudiantes)
        case Some(k) =>
          if k != estudianteId && k in old(estudiantes) then
            r == Err(IntegrityError) && estudiantes == old(estudiantes)
          else
            r == Ok(row) && estudiantes == (old(estudiantes) - {estudianteId})[k := row]
      ensures r.Ok? ==> r.value.archivado == old(estudiantes)[estudianteId].archivado
      ensures body.cedula.Unset? ==> r.Err? || r.value.cedula == Some(estudianteId)
      ensures forall k :: k in old(estudiantes) && k != estudianteId && (r.Err? || r.value.cedula != Some(k)) ==>
                k in estudiantes && estudiantes[k] == old(estudiantes)[k]
      ensures old(ForeignKeysHold()) && (r.Err? || r.value.cedula == Some(estudianteId)) ==> ForeignKeysHold()
    {
      if estudianteId !in estudiantes {
        return Err(EstudianteNoEncontrado);
      }
      var estudiante := SetEstudianteAttrsLoop(estudiantes[estudianteId], body.UpdateData());
      UpdateEstudianteFromCreate(old(estudiantes)[estudianteId], body);
      match estudiante.cedula
      case None =>
        r := Err(IntegrityError);
      case Some(k) =>
        if k != estudianteId && k in estudiantes {
          r := Err(IntegrityError);
        } else {
          estudiantes := (estudiantes - {estudianteId})[k := estudiante];
          r := Ok(estudiante);
        }
    }

    // -------------------------------------------------------------------
    // curso.py
    // -------------------------------------------------------------------

    /** `create_curso`: inserts the body as a new row under the sent id or,
     *  when none is sent, under a fresh one; returns the stored row. An id
     *  already in use fails at commit. */
    method CreateCurso(body: CursoCreate) returns (r: Result<Curso>)
      requires Valid()
      modifies this`cursos
      ensures Valid()
      ensures body.ToRow().id.Some? && body.ToRow().id.value in old(cursos) ==>
                r == Err(IntegrityError) && cursos == old(cursos)
      ensures body.ToRow().id.Some? && body.ToRow().id.value !in old(cursos) ==>
                r == Ok(body.ToRow())
      ensures body.ToRow().id.None? ==> r.Ok? && r.value == body.ToRow().(id := r.value.id)
      ensures r.Ok? ==>
                && r.value.id.Some? && r.value.id.value !in old(cursos)
                && cursos == old(cursos)[r.value.id.value := r.value]
      ensures old(ForeignKeysHold()) ==> ForeignKeysHold()
    {
      var curso := body.ToRow();
      match curso.id
      case None =>
        var id := NextRowId(cursos.Keys);
        curso := curso.(id := Some(id));
        cursos := cursos[id := curso];
        r := Ok(curso);
      case Some(id) =>
        if id in cursos {
          r := Err(IntegrityError);
        } else {
          cursos := cursos[id := curso];
          r := Ok(curso);
        }
    }

    /** `get_one_curso`: the stored row, or 404. */
    method GetOneCurso(cursoId: int) returns (r: Result<Curso>)
      ensures r.Ok? <==> cursoId in cursos
      ensures r.Ok? ==> r.value == cursos[cursoId]
      ensures r.Err? ==> r.error == CursoNoEncontrado
    {
      if cursoId !in cursos {
        return Err(CursoNoEncontrado);
      }
      r := Ok(cursos[cursoId]);
    }

    /** `update_curso`: 404 when absent; otherwise sets on the stored row each
     *  attribute the CursoCreate body carries, then commits. */
    method UpdateCurso(cursoId: int, body: CursoCreate) returns (r: Result<Curso>)
      requires Valid()
      modifies this`cursos
      ensures Valid()
      ensures cursoId !in old(cursos) ==> r == Err(CursoNoEncontrado) && cursos == old(cursos)
      ensures cursoId in old(cursos) ==>
        var row := Curso(body.id.Over(Some(cursoId)), body.nombre, body.creditos, body.horario);
        match row.id
        case None => r == Err(IntegrityError) && cursos == old(cursos)
        case Some(k) =>
          if k != cursoId && k in old(cursos) then
            r == Err(IntegrityError) && cursos == old(cursos)
          else
            r == Ok(row) && cursos == (old(cursos) - {cursoId})[k := row]
      ensures body.id.Unset? ==> r.Err? || r.value.id == Some(cursoId)
      ensures forall k :: k in old(cursos) && k != cursoId && (r.Err? || r.value.id != Some(k)) ==>
                k in cursos && cursos[k] == old(cursos)[k]
      ensures old(ForeignKeysHold()) && (r.Err? || r.value.id == Some(cursoId)) ==> ForeignKeysHold()
    {
      if cursoId !in cursos {
        return Err(CursoNoEncontrado);
      }
      var curso := SetCursoAttrsLoop(cursos[cursoId], body.UpdateData());
      UpdateCursoFromCreate(old(cursos)[cursoId], body);
      match curso.id
      case None =>
        r := Err(IntegrityError);
      case Some(k) =>
        if k != cursoId && k in cursos {
          r := Err(IntegrityError);
        } else {
          cursos := (cursos - {cursoId})[k := curso];
          r := Ok(curso);
        }
    }
  }
}
