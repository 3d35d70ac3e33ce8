/** Record shapes of the university database (models.py): the rows of the
 *  three tables, the request bodies the handlers accept, and the attribute
 *  assignments an update performs on a stored row. */
module Models {

  /** A nullable column or request field: Python's `None`, or a value. */
  datatype Option<T> = None | Some(value: T)

  /** Whether a request field was sent at all. `model_dump(exclude_unset=True)`
   *  keeps exactly the `Set` fields; `model_dump()` replaces an `Unset` one by
   *  the field's default. */
  datatype Patch<T> = Unset | Set(value: T)
  {
    /** The value a field holds after this patch is applied to `stored`. */
    function Over(stored: T): T
    {
      if Set? then value else stored
    }
  }

  /** A calendar date; the model never looks inside it. */
  datatype Date = Date(year: int, month: int, day: int)

  /** A row of table `curso` (CursoBase and Curso). `id` is the primary key. */
  datatype Curso = Curso(id: Option<int>, nombre: Option<string>, creditos: Option<int>, horario: Option<Date>)

  /** A row of table `estudiante` (EstudianteBase and Estudiante). `cedula` is
   *  the primary key; `archivado` is the soft-delete flag. */
  datatype Estudiante = Estudiante(cedula: Option<int>, nombre: Option<string>, email: Option<string>,
                                   semestre: Option<int>, archivado: bool)

  /** A row of table `matricula`, the many-to-many relation between the two. */
  datatype Matricula = Matricula(cursoId: Option<int>, estudianteCedula: Option<int>, fecha: Option<Date>)

  /** The composite primary key of `matricula`: (curso_id, estudiante_cedula). */
  type MatriculaKey = (int, int)

  /** The in-memory view of the three tables, each keyed by its primary key.
   *  A map holds at most one row per key, which is what a primary key means;
   *  the enrollment table keeps only `fecha`, its one non-key column. */
  type Cursos = map<int, Curso>
  type Estudiantes = map<int, Estudiante>
  type Matriculas = map<MatriculaKey, Option<Date>>

  /** Every stored course carries the key it is stored under. */
  ghost predicate CursosKeyed(t: Cursos)
  {
    forall i :: i in t ==> t[i].id == Some(i)
  }

  /** Every stored student carries the key it is stored under. */
  ghost predicate EstudiantesKeyed(t: Estudiantes)
  {
    forall i :: i in t ==> t[i].cedula == Some(i)
  }

  /** The two foreign keys of `matricula` (`curso.id`, `estudiante.cedula`)
   *  point at stored rows. */
  ghost predicate ReferencesResolve(estudiantes: Estudiantes, cursos: Cursos, matriculas: Matriculas)
  {
    forall k :: k in matriculas ==> k.0 in cursos && k.1 in estudiantes
  }

  /** The rows of the enrollment table, rebuilt from the keyed view. */
  function MatriculaRows(matriculas: Matriculas): set<Matricula>
  {
    set k | k in matriculas :: Matricula(Some(k.0), Some(k.1), matriculas[k])
  }

  /** The composite primary key allows at most one enrollment row per
   *  (curso_id, estudiante_cedula) pair. */
  lemma MatriculaUnicaPorPar(matriculas: Matriculas, a: Matricula, b: Matricula)
    requires a in MatriculaRows(matriculas) && b in MatriculaRows(matriculas)
    requires a.cursoId == b.cursoId && a.estudianteCedula == b.estudianteCedula
    ensures a == b
  {
  }

  /** A new enrollment row: `fecha` is the creation date unless the row is
   *  built with an explicit one (`default_factory=datetime.date.today`).
   *  The clock is read by the caller and passed in as `hoy`. */
  function NuevaMatricula(cursoId: int, cedula: int, fecha: Patch<Option<Date>>, hoy: Date): Matricula
  {
    Matricula(Some(cursoId), Some(cedula), fecha.Over(Some(hoy)))
  }

  // ---------------------------------------------------------------------
  // Request bodies
  // ---------------------------------------------------------------------

  /** A validated CursoCreate body. `id` has a default (None) and may be left
   *  out; `nombre`, `Creditos` and `Horario` have none, so a validated body
   *  always carries them (possibly as null). */
  datatype CursoCreate = CursoCreate(id: Patch<Option<int>>, nombre: Option<string>, creditos: Option<int>,
                                     horario: Option<Date>)
  {
    /** `Curso.model_validate(body.model_dump())`: the row to insert. */
    function ToRow(): Curso
    {
      Curso(id.Over(None), nombre, creditos, horario)
    }

    /** `body.model_dump(exclude_unset=True).items()`: the attribute
     *  assignments of an update. The dump is a dict, so it names each column
     *  at most once; it names the key exactly when the body sent one, and it
     *  always names the three required columns. */
    function UpdateData(): (r: seq<CursoAttr>)
      ensures OneCursoItemPerColumn(r)
      ensures id.Set? ==> CursoAttr.Id(id.value) in r
      ensures id.Unset? ==> forall a :: a in r ==> !a.Id?
      ensures CursoAttr.Nombre(nombre) in r && CursoAttr.Creditos(creditos) in r && CursoAttr.Horario(horario) in r
    {
      (if id.Set? then [CursoAttr.Id(id.value)] else [])
      + [CursoAttr.Nombre(nombre), CursoAttr.Creditos(creditos), CursoAttr.Horario(horario)]
    }
  }

  /** A validated EstudianteCreate body; as for courses, only the key may be
   *  left out. There is no `archivado` field. */
  datatype EstudianteCreate = EstudianteCreate(cedula: Patch<Option<int>>, nombre: Option<string>,
                                               email: Option<string>, semestre: Option<int>)
  {
    /** `Estudiante.model_validate(body.model_dump())`: the row to insert. */
    function ToRow(): Estudiante
    {
      Estudiante(cedula.Over(None), nombre, email, semestre, false)
    }

    /** `body.model_dump(exclude_unset=True).items()`: the key exactly when
     *  sent, and always the three required columns, each at most once. */
    function UpdateData(): (r: seq<EstudianteAttr>)
      ensures OneEstudianteItemPerColumn(r)
      ensures cedula.Set? ==> EstudianteAttr.Cedula(cedula.value) in r
      ensures cedula.Unset? ==> forall a :: a in r ==> !a.Cedula?
      ensures EstudianteAttr.Nombre(nombre) in r && EstudianteAttr.Email(email) in r
           && EstudianteAttr.Semestre(semestre) in r
    {
      (if cedula.Set? then [EstudianteAttr.Cedula(cedula.value)] else [])
      + [EstudianteAttr.Nombre(nombre), EstudianteAttr.Email(email), EstudianteAttr.Semestre(semestre)]
    }
  }

  /** The CursoUpdate schema: every field optional, none of them the key. */
  datatype CursoUpdate = CursoUpdate(nombre: Patch<Option<string>>, creditos: Patch<Option<int>>,
                                     horario: Patch<Option<Date>>)
  {
    /** `body.model_dump(exclude_unset=True).items()`: exactly the columns
     *  sent, each once, and never the key. */
    function UpdateData(): (r: seq<CursoAttr>)
      ensures OneCursoItemPerColumn(r)
      ensures forall a :: a in r ==> !a.Id?
      ensures nombre.Set? ==> CursoAttr.Nombre(nombre.value) in r
      ensures nombre.Unset? ==> forall a :: a in r ==> !a.Nombre?
      ensures creditos.Set? ==> CursoAttr.Creditos(creditos.value) in r
      ensures creditos.Unset? ==> forall a :: a in r ==> !a.Creditos?
      ensures horario.Set? ==> CursoAttr.Horario(horario.value) in r
      ensures horario.Unset? ==> forall a :: a in r ==> !a.Horario?
    {
      (if nombre.Set? then [CursoAttr.Nombre(nombre.value)] else [])
      + (if creditos.Set? then [CursoAttr.Creditos(creditos.value)] else [])
      + (if horario.Set? then [CursoAttr.Horario(horario.value)] else [])
    }
  }

  /** The EstudianteUpdate schema: every field optional, none of them the key. */
  datatype EstudianteUpdate = EstudianteUpdate(nombre: Patch<Option<string>>, email: Patch<Option<string>>,
                                               semestre: Patch<Option<int>>)
  {
    /** Exactly the columns sent, each once; never the key. */
    function UpdateData(): (r: seq<EstudianteAttr>)
      ensures OneEstudianteItemPerColumn(r)
      ensures forall a :: a in r ==> !a.Cedula?
      ensures nombre.Set? ==> EstudianteAttr.Nombre(nombre.value) in r
      ensures nombre.Unset? ==> forall a :: a in r ==> !a.Nombre?
      ensures email.Set? ==> EstudianteAttr.Email(email.value) in r
      ensures email.Unset? ==> forall a :: a in r ==> !a.Email?
      ensures semestre.Set? ==> EstudianteAttr.Semestre(semestre.value) in r
      ensures semestre.Unset? ==> forall a :: a in r ==> !a.Semestre?
    {
      (if nombre.Set? then [EstudianteAttr.Nombre(nombre.value)] else [])
      + (if email.Set? then [EstudianteAttr.Email(email.value)] else [])
      + (if semestre.Set? then [EstudianteAttr.Semestre(semestre.value)] else [])
    }
  }

  // ---------------------------------------------------------------------
  // setattr on a stored row
  // ---------------------------------------------------------------------

  /** One `(key, value)` item of a dumped course body. */
  datatype CursoAttr = Id(Option<int>) | Nombre(Option<string>) | Creditos(Option<int>) | Horario(Option<Date>)
  {
    /** The column this item assigns. */
    function Column(): nat
    {
      match this
      case Id(_) => 0
      case Nombre(_) => 1
      case Creditos(_) => 2
      case Horario(_) => 3
    }
  }

  /** One `(key, value)` item of a dumped student body. */
  datatype EstudianteAttr = Cedula(Option<int>) | Nombre(Option<string>) | Email(Option<string>) | Semestre(Option<int>)
  {
    function Column(): nat
    {
      match this
      case Cedula(_) => 0
      case Nombre(_) => 1
      case Email(_) => 2
      case Semestre(_) => 3
    }
  }

  /** The items of a dumped dict: no column appears twice. */
  predicate OneCursoItemPerColumn(data: seq<CursoAttr>)
  {
    forall i, j :: 0 <= i < j < |data| ==> data[i].Column() != data[j].Column()
  }

  predicate OneEstudianteItemPerColumn(data: seq<EstudianteAttr>)
  {
    forall i, j :: 0 <= i < j < |data| ==> data[i].Column() != data[j].Column()
  }

  /** `setattr(curso_db, key, value)`. */
  function SetCursoAttr(c: Curso, a: CursoAttr): Curso
  {
    match a
    case Id(v) => c.(id := v)
    case Nombre(v) => c.(nombre := v)
    case Creditos(v) => c.(creditos := v)
    case Horario(v) => c.(horario := v)
  }

  /** The setattr loop over `data`, in order. A column no item names keeps
   *  its stored value. */
  function SetCursoAttrs(c: Curso, data: seq<CursoAttr>): (r: Curso)
    ensures (forall a :: a in data ==> !a.Id?) ==> r.id == c.id
    ensures (forall a :: a in data ==> !a.Nombre?) ==> r.nombre == c.nombre
    ensures (forall a :: a in data ==> !a.Creditos?) ==> r.creditos == c.creditos
    ensures (forall a :: a in data ==> !a.Horario?) ==> r.horario == c.horario
    decreases |data|
  {
    if data == [] then c else SetCursoAttr(SetCursoAttrs(c, data[..|data| - 1]), data[|data| - 1])
  }

  /** `setattr(estudiante_db, key, value)`. */
  function SetEstudianteAttr(e: Estudiante, a: EstudianteAttr): Estudiante
  {
    match a
    case Cedula(v) => e.(cedula := v)
    case Nombre(v) => e.(nombre := v)
    case Email(v) => e.(email := v)
    case Semestre(v) => e.(semestre := v)
  }

  /** The setattr loop over `data`, in order. No item names `archivado`, so
   *  no update can change it; any other column no item names keeps its
   *  stored value too. */
  function SetEstudianteAttrs(e: Estudiante, data: seq<EstudianteAttr>): (r: Estudiante)
    ensures r.archivado == e.archivado
    ensures (forall a :: a in data ==> !a.Cedula?) ==> r.cedula == e.cedula
    ensures (forall a :: a in data ==> !a.Nombre?) ==> r.nombre == e.nombre
    ensures (forall a :: a in data ==> !a.Email?) ==> r.email == e.email
    ensures (forall a :: a in data ==> !a.Semestre?) ==> r.semestre == e.semestre
    decreases |data|
  {
    if data == [] then e else SetEstudianteAttr(SetEstudianteAttrs(e, data[..|data| - 1]), data[|data| - 1])
  }

  lemma {:induction false} SetCursoAttrsAppend(c: Curso, a: seq<CursoAttr>, b: seq<CursoAttr>)
    ensures SetCursoAttrs(c, a + b) == SetCursoAttrs(SetCursoAttrs(c, a), b)
    decreases |b|
  {
    if b == [] {
      assert a + b == a;
    } else {
      var n := |b| - 1;
      assert (a + b)[..|a + b| - 1] == a + b[..n];
      assert (a + b)[|a + b| - 1] == b[n];
      SetCursoAttrsAppend(c, a, b[..n]);
    }
  }

  lemma {:induction false} SetEstudianteAttrsAppend(e: Estudiante, a: seq<EstudianteAttr>, b: seq<EstudianteAttr>)
    ensures SetEstudianteAttrs(e, a + b) == SetEstudianteAttrs(SetEstudianteAttrs(e, a), b)
    decreases |b|
  {
    if b == [] {
      assert a + b == a;
    } else {
      var n := |b| - 1;
      assert (a + b)[..|a + b| - 1] == a + b[..n];
      assert (a + b)[|a + b| - 1] == b[n];
      SetEstudianteAttrsAppend(e, a, b[..n]);
    }
  }

  /** An update with a CursoCreate body, as the handler does it: the key
   *  changes only when the body sends one, and every other column is
   *  overwritten with the body's value, since the body always carries them. */
  lemma UpdateCursoFromCreate(c: Curso, body: CursoCreate)
    ensures SetCursoAttrs(c, body.UpdateData())
         == Curso(body.id.Over(c.id), body.nombre, body.creditos, body.horario)
  {
    var head := if body.id.Set? then [CursoAttr.Id(body.id.value)] else [];
    var n, k, h := CursoAttr.Nombre(body.nombre), CursoAttr.Creditos(body.creditos), CursoAttr.Horario(body.horario);
    assert body.UpdateData() == head + [n] + [k] + [h];
    SetCursoAttrsAppend(c, head + [n] + [k], [h]);
    SetCursoAttrsAppend(c, head + [n], [k]);
    SetCursoAttrsAppend(c, head, [n]);
    assert [h][..0] == [] && [k][..0] == [] && [n][..0] == [];
    if body.id.Set? {
      assert head[..0] == [];
    }
  }

  /** An update with an EstudianteCreate body, as the handler does it. */
  lemma UpdateEstudianteFromCreate(e: Estudiante, body: EstudianteCreate)
    ensures SetEstudianteAttrs(e, body.UpdateData())
         == Estudiante(body.cedula.Over(e.cedula), body.nombre, body.email, body.semestre, e.archivado)
  {
    var head := if body.cedula.Set? then [EstudianteAttr.Cedula(body.cedula.value)] else [];
    var n, m, s := EstudianteAttr.Nombre(body.nombre), EstudianteAttr.Email(body.email), EstudianteAttr.Semestre(body.semestre);
    assert body.UpdateData() == head + [n] + [m] + [s];
    SetEstudianteAttrsAppend(e, head + [n] + [m], [s]);
    SetEstudianteAttrsAppend(e, head + [n], [m]);
    SetEstudianteAttrsAppend(e, head, [n]);
    assert [s][..0] == [] && [m][..0] == [] && [n][..0] == [];
    if body.cedula.Set? {
      assert head[..0] == [];
    }
  }

  /** A PUT with a CursoCreate body leaves the row create would build from
   *  the same body, except that an unsent id keeps the stored one. */
  lemma UpdateCursoIsCreateRow(c: Curso, body: CursoCreate)
    ensures SetCursoAttrs(c, body.UpdateData()) == body.ToRow().(id := body.id.Over(c.id))
  {
    UpdateCursoFromCreate(c, body);
  }

  /** A PUT with an EstudianteCreate body leaves the row create would build
   *  from the same body, except that an unsent cedula keeps the stored one
   *  and `archivado` keeps its stored value. */
  lemma UpdateEstudianteIsCreateRow(e: Estudiante, body: EstudianteCreate)
    ensures SetEstudianteAttrs(e, body.UpdateData())
         == body.ToRow().(cedula := body.cedula.Over(e.cedula), archivado := e.archivado)
  {
    UpdateEstudianteFromCreate(e, body);
  }

  /** An update with the CursoUpdate schema: exactly the fields sent change,
   *  the key never does, and an empty update changes nothing. */
  lemma UpdateCursoFromUpdateSchema(c: Curso, u: CursoUpdate)
    ensures SetCursoAttrs(c, u.UpdateData())
         == Curso(c.id, u.nombre.Over(c.nombre), u.creditos.Over(c.creditos), u.horario.Over(c.horario))
  {
    var n := if u.nombre.Set? then [CursoAttr.Nombre(u.nombre.value)] else [];
    var k := if u.creditos.Set? then [CursoAttr.Creditos(u.creditos.value)] else [];
    var h := if u.horario.Set? then [CursoAttr.Horario(u.horario.value)] else [];
    assert u.UpdateData() == n + k + h;
    SetCursoAttrsAppend(c, n + k, h);
    SetCursoAttrsAppend(c, n, k);
    assert n == [] || n[..0] == [];
    assert k == [] || k[..0] == [];
    assert h == [] || h[..0] == [];
  }

  /** An update with the EstudianteUpdate schema: exactly the fields sent
   *  change; neither the key nor `archivado` does. */
  lemma UpdateEstudianteFromUpdateSchema(e: Estudiante, u: EstudianteUpdate)
    ensures SetEstudianteAttrs(e, u.UpdateData())
         == Estudiante(e.cedula, u.nombre.Over(e.nombre), u.email.Over(e.email), u.semestre.Over(e.semestre),
                       e.archivado)
  {
    var n := if u.nombre.Set? then [EstudianteAttr.Nombre(u.nombre.value)] else [];
    var m := if u.email.Set? then [EstudianteAttr.Email(u.email.value)] else [];
    var s := if u.semestre.Set? then [EstudianteAttr.Semestre(u.semestre.value)] else [];
    assert u.UpdateData() == n + m + s;
    SetEstudianteAttrsAppend(e, n + m, s);
    SetEstudianteAttrsAppend(e, n, m);
    assert n == [] || n[..0] == [];
    assert m == [] || m[..0] == [];
    assert s == [] || s[..0] == [];
  }
}
