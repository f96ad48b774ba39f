/**
 * The rules of the attendance model: the parameters of an attendance
 * insert, whether an employee may register again, how a bot log entry is
 * truncated, and how many rows the retention cleanup deleted.
 *
 * Every query is an input: what the query wrapper resolved to for the
 * parameters the model sends, or the error that escaped it.
 */
module Asistencias {
  import opened Js

  /**
   * What the query wrapper resolves to: the rows and counters of a query
   * that ran (the wrapper already turns a missing affectedRows into 0), the
   * error message of one that failed, or an error that escapes the wrapper.
   */
  datatype Exec<R> =
    | Succeeded(data: seq<R>, affectedRows: nat, insertId: Option<int>)
    | Failed(error: string)
    | Threw(message: string)

  // ---------------------------------------------------------------------
  // guardarAsistencia
  // ---------------------------------------------------------------------

  /** The location attached to an attendance report. */
  datatype Location = Location(latitud: Value, longitud: Value, direccionCompleta: Value)

  /** The attendance report handed to the model; `ubicacion` is None when the report carries none. */
  datatype Attendance = Attendance(
    userId: Value,
    nombre: Value,
    zona: Value,
    servicio: Value,
    asistencia: Value,
    ubicacion: Option<Location>)

  /** A query parameter: a plain value, or the Date taken when the insert was built. */
  datatype Param = Plain(v: Value) | Timestamp(instant: int)

  /** The columns of the attendance insert, one per placeholder. */
  const InsertColumns: seq<string> :=
    ["user_id", "nombre", "zona", "servicio", "asistencia",
     "latitud", "longitud", "direccion_completa", "fecha_ubicacion"]

  /** The nine insert parameters; `now` stands for the `new Date()` taken when a location is present. */
  function InsertParams(data: Attendance, now: int): (p: seq<Param>)
    ensures |p| == |InsertColumns| == 9
    ensures p[0] == Plain(data.userId) && p[1] == Plain(data.nombre) && p[4] == Plain(data.asistencia)
    ensures p[2] == Plain(Or(data.zona, Str("N/A")))
    ensures p[3] == Plain(Or(data.servicio, Str("Sin especificar")))
    ensures Truthy(p[2].v) && Truthy(p[3].v)
    ensures data.ubicacion.None? ==> p[5..] == [Plain(Null), Plain(Null), Plain(Null), Plain(Null)]
    ensures data.ubicacion.Some? ==>
              && p[5] == Plain(data.ubicacion.value.latitud)
              && p[6] == Plain(data.ubicacion.value.longitud)
              && p[7] == Plain(data.ubicacion.value.direccionCompleta)
              && p[8] == Timestamp(now)
  {
    var located := data.ubicacion.Some?;
    [Plain(data.userId),
     Plain(data.nombre),
     Plain(Or(data.zona, Str("N/A"))),
     Plain(Or(data.servicio, Str("Sin especificar"))),
     Plain(data.asistencia),
     if located then Plain(data.ubicacion.value.latitud) else Plain(Null),
     if located then Plain(data.ubicacion.value.longitud) else Plain(Null),
     if located then Plain(data.ubicacion.value.direccionCompleta) else Plain(Null),
     if located then Timestamp(now) else Plain(Null)]
  }

  datatype SaveResult = Saved(id: Option<int>) | NotSaved(error: string)

  /** guardarAsistencia: `insert` is the store's answer to the insert with the given parameters. */
  function SaveAttendance(data: Attendance, now: int, insert: seq<Param> -> Exec<()>): (r: SaveResult)
    ensures var e := insert(InsertParams(data, now));
            && (r.Saved? <==> e.Succeeded?)
            && (e.Succeeded? ==> r == Saved(e.insertId))
            && (e.Failed? ==> r == NotSaved(e.error))
            && (e.Threw? ==> r == NotSaved(e.message))
  {
    match insert(InsertParams(data, now))
    case Succeeded(_, _, insertId) => Saved(insertId)
    case Failed(error) => NotSaved(error)
    case Threw(message) => NotSaved(message)
  }

  // ---------------------------------------------------------------------
  // puedeRegistrar
  // ---------------------------------------------------------------------

  /** The hours that must pass between two registrations when the caller gives none. */
  const DefaultHoursLimit: int := 6

  /** A row of `control_registros`: the last registration and the whole hours since. */
  datatype ControlRow = ControlRow(ultimoRegistro: Value, horasTranscurridas: Option<int>)

  datatype RegisterCheck = RegisterCheck(
    puede: bool,
    esNuevo: bool,
    horasTranscurridas: Option<int>,
    ultimoRegistro: Option<Value>,
    error: Option<string>)

  /** The limit used: the caller's, or 6 hours when the argument is left out. */
  function HoursLimit(horasLimite: Option<int>): int
  {
    if horasLimite.Some? then horasLimite.value else DefaultHoursLimit
  }

  /**
   * puedeRegistrar. `query(userId)` is the outcome of reading the employee's
   * control row. A failed query, a new employee and an error all allow the
   * registration; otherwise enough hours must have passed.
   */
  function MayRegister(userId: Value, horasLimite: Option<int>, query: Value -> Exec<ControlRow>): (r: RegisterCheck)
    ensures query(userId).Failed? ==> r.puede && r.esNuevo && r.error.None?
    ensures query(userId).Threw? ==> r.puede && r.esNuevo && r.error == Some(query(userId).message)
    ensures query(userId).Succeeded? && query(userId).data == [] ==> r.puede && r.esNuevo
    ensures query(userId).Succeeded? && query(userId).data != [] ==>
              var row := query(userId).data[0];
              var hours := IntOr(row.horasTranscurridas, 0);
              && !r.esNuevo
              && r.puede == (hours >= HoursLimit(horasLimite))
              && r.horasTranscurridas == Some(hours)
              && r.ultimoRegistro == Some(row.ultimoRegistro)
    ensures !r.puede ==> !r.esNuevo && r.horasTranscurridas.Some?
                         && r.horasTranscurridas.value < HoursLimit(horasLimite)
  {
    match query(userId)
    case Failed(_) => RegisterCheck(true, true, None, None, None)
    case Threw(message) => RegisterCheck(true, true, None, None, Some(message))
    case Succeeded(data, _, _) =>
      if |data| == 0 then RegisterCheck(true, true, None, None, None)
      else
        var registro := data[0];
        var horas := IntOr(registro.horasTranscurridas, 0);
        RegisterCheck(horas >= HoursLimit(horasLimite), false, Some(horas), Some(registro.ultimoRegistro), None)
  }

  /** A null number of hours counts as 0, so it allows registering only when the limit is at most 0. */
  lemma NullHoursCountAsZero(userId: Value, horasLimite: Option<int>, query: Value -> Exec<ControlRow>)
    requires query(userId).Succeeded? && query(userId).data != []
    requires query(userId).data[0].horasTranscurridas.None?
    ensures MayRegister(userId, horasLimite, query).puede <==> HoursLimit(horasLimite) <= 0
  {
  }

  /** Registering again becomes allowed once the limit is reached and stays allowed after it. */
  lemma MayRegisterMonotone(userId: Value, horasLimite: Option<int>,
                            q1: Value -> Exec<ControlRow>, q2: Value -> Exec<ControlRow>)
    requires q1(userId).Succeeded? && q1(userId).data != []
    requires q2(userId).Succeeded? && q2(userId).data != []
    requires IntOr(q1(userId).data[0].horasTranscurridas, 0) <= IntOr(q2(userId).data[0].horasTranscurridas, 0)
    ensures MayRegister(userId, horasLimite, q1).puede ==> MayRegister(userId, horasLimite, q2).puede
  {
  }

  // ---------------------------------------------------------------------
  // actualizarControlRegistro
  // ---------------------------------------------------------------------

  datatype Outcome = Done | NotDone(error: string)

  /** actualizarControlRegistro: `upsert(userId)` is the store's answer to the upsert of the control row. */
  function UpdateRegisterControl(userId: Value, upsert: Value -> Exec<()>): (r: Outcome)
    ensures r.Done? <==> upsert(userId).Succeeded?
    ensures upsert(userId).Failed? ==> r == NotDone(upsert(userId).error)
    ensures upsert(userId).Threw? ==> r == NotDone(upsert(userId).message)
  {
    match upsert(userId)
    case Succeeded(_, _, _) => Done
    case Failed(error) => NotDone(error)
    case Threw(message) => NotDone(message)
  }

  // ---------------------------------------------------------------------
  // guardarLog
  // ---------------------------------------------------------------------

  const MessageLimit: nat := 1000
  const ReplyLimit: nat := 2000

  function Min(a: nat, b: nat): nat
  {
    if a <= b then a else b
  }

  /** `s.substring(0, n)`: the first n characters, or all of s when shorter. */
  function Truncate(s: string, n: nat): (r: string)
    ensures |r| == Min(|s|, n)
    ensures r == s[..|r|]
    ensures |s| <= n ==> r == s
  {
    if |s| <= n then s else s[..n]
  }

  /**
   * `t ? t.substring(0, limit) : null`. A truthy value that is not a string
   * has no `substring`: the call throws.
   */
  function LogField(t: Value, limit: nat): (r: Reply<Value>)
    ensures !Truthy(t) ==> r == Ok(Null)
    ensures t.Str? && t.s != [] ==> r == Ok(Str(Truncate(t.s, limit)))
    ensures r.Fault? <==> Truthy(t) && !t.Str?
  {
    if !Truthy(t) then Ok(Null)
    else if t.Str? then Ok(Str(Truncate(t.s, limit)))
    else Fault("substring is not a function")
  }

  /** A parameter declared `= null`: an omitted (undefined) argument becomes null. */
  function DefaultNull(v: Value): (r: Value)
    ensures r == Null <==> v == Undefined || v == Null
    ensures v != Undefined ==> r == v
  {
    if v == Undefined then Null else v
  }

  /**
   * The six log parameters, or the error building them throws. All four
   * optional parameters default to null; for the two messages that makes no
   * difference, since an undefined message is falsy and is stored as null.
   */
  function LogParams(userId: Value, accion: Value, mensajeUsuario: Value, respuestaBot: Value,
                     estadoAnterior: Value, estadoNuevo: Value): (r: Reply<seq<Value>>)
    ensures r.Ok? <==> LogField(mensajeUsuario, MessageLimit).Ok? && LogField(respuestaBot, ReplyLimit).Ok?
    ensures r.Ok? ==> |r.value| == 6 && r.value[0] == userId && r.value[1] == accion
                      && r.value[4] == (if estadoAnterior == Undefined then Null else estadoAnterior)
                      && r.value[5] == (if estadoNuevo == Undefined then Null else estadoNuevo)
    ensures r.Ok? ==> (r.value[2] == Null <==> !Truthy(mensajeUsuario))
                      && (r.value[3] == Null <==> !Truthy(respuestaBot))
    ensures r.Ok? ==> r.value[2] == LogField(mensajeUsuario, MessageLimit).value
                      && r.value[3] == LogField(respuestaBot, ReplyLimit).value
    ensures r.Ok? && r.value[2].Str? ==> |r.value[2].s| <= MessageLimit
    ensures r.Ok? && r.value[3].Str? ==> |r.value[3].s| <= ReplyLimit
  {
    var mensaje := LogField(mensajeUsuario, MessageLimit);
    var respuesta := LogField(respuestaBot, ReplyLimit);
    if mensaje.Fault? then Fault(mensaje.message)
    else if respuesta.Fault? then Fault(respuesta.message)
    else Ok([userId, accion, mensaje.value, respuesta.value, DefaultNull(estadoAnterior), DefaultNull(estadoNuevo)])
  }

  /** guardarLog: whether the entry was stored. `insert` is the store's answer to the insert. */
  function SaveLog(userId: Value, accion: Value, mensajeUsuario: Value, respuestaBot: Value,
                   estadoAnterior: Value, estadoNuevo: Value, insert: seq<Value> -> Exec<()>): (stored: bool)
    ensures var p := LogParams(userId, accion, mensajeUsuario, respuestaBot, estadoAnterior, estadoNuevo);
            stored <==> p.Ok? && insert(p.value).Succeeded?
  {
    var p := LogParams(userId, accion, mensajeUsuario, respuestaBot, estadoAnterior, estadoNuevo);
    p.Ok? && insert(p.value).Succeeded?
  }

  /** A stored user message keeps its first thousand characters exactly. */
  lemma LogKeepsMessagePrefix(userId: Value, accion: Value, mensaje: string, respuestaBot: Value,
                              estadoAnterior: Value, estadoNuevo: Value)
    requires mensaje != [] && LogField(respuestaBot, ReplyLimit).Ok?
    ensures var p := LogParams(userId, accion, Str(mensaje), respuestaBot, estadoAnterior, estadoNuevo);
            && p.Ok? && p.value[2].Str?
            && p.value[2].s == mensaje[..Min(|mensaje|, MessageLimit)]
            && (|mensaje| <= MessageLimit ==> p.value[2].s == mensaje)
  {
  }

  /** A stored reply keeps its first two thousand characters exactly. */
  lemma LogKeepsReplyPrefix(userId: Value, accion: Value, mensajeUsuario: Value, respuesta: string,
                            estadoAnterior: Value, estadoNuevo: Value)
    requires respuesta != [] && LogField(mensajeUsuario, MessageLimit).Ok?
    ensures var p := LogParams(userId, accion, mensajeUsuario, Str(respuesta), estadoAnterior, estadoNuevo);
            && p.Ok? && p.value[3].Str?
            && p.value[3].s == respuesta[..Min(|respuesta|, ReplyLimit)]
            && (|respuesta| <= ReplyLimit ==> p.value[3].s == respuesta)
  {
  }

  // ---------------------------------------------------------------------
  // limpiarRegistrosAntiguos
  // ---------------------------------------------------------------------

  /** The tables the retention cleanup deletes from, in order. */
  const CleanupTables: seq<string> := ["asistencias", "logs_bot"]

  const DefaultRetentionDays: int := 90

  datatype CleanupResult = Cleaned(eliminados: nat) | CleanupError(error: string)

  /** The rows a cleanup query removed: its affected rows when it ran, 0 when it failed. */
  function Removed(e: Exec<()>): nat
  {
    if e.Succeeded? then e.affectedRows else 0
  }

  /** The rows removed by a sequence of cleanup queries. */
  function DeletedTotal(outcomes: seq<Exec<()>>): nat
  {
    if outcomes == [] then 0 else Removed(outcomes[0]) + DeletedTotal(outcomes[1..])
  }

  /** The counts of two runs of queries add up. */
  lemma {:induction false} DeletedTotalAppend(a: seq<Exec<()>>, b: seq<Exec<()>>)
    ensures DeletedTotal(a + b) == DeletedTotal(a) + DeletedTotal(b)
  {
    if a == [] {
      assert a + b == b;
    } else {
      assert (a + b)[1..] == a[1..] + b;
      DeletedTotalAppend(a[1..], b);
    }
  }

  /** A failed query adds nothing to the count. */
  lemma FailedQueryCountsZero(a: seq<Exec<()>>, error: string, b: seq<Exec<()>>)
    ensures DeletedTotal(a + [Failed(error)] + b) == DeletedTotal(a) + DeletedTotal(b)
  {
    DeletedTotalAppend(a + [Failed(error)], b);
    DeletedTotalAppend(a, [Failed(error)]);
  }

  /**
   * What the cleanup reports for the outcomes of its queries: the error of
   * the first query whose error escapes, else the rows removed by all.
   */
  function CleanupReport(outcomes: seq<Exec<()>>): CleanupResult
  {
    if outcomes == [] then Cleaned(0)
    else if outcomes[0].Threw? then CleanupError(outcomes[0].message)
    else
      match CleanupReport(outcomes[1..])
      case Cleaned(n) => Cleaned(Removed(outcomes[0]) + n)
      case CleanupError(e) => CleanupError(e)
  }

  /** Without an escaping error the report is the sum over the queries that ran. */
  lemma {:induction false} CleanupReportSums(outcomes: seq<Exec<()>>)
    requires forall k :: 0 <= k < |outcomes| ==> !outcomes[k].Threw?
    ensures CleanupReport(outcomes) == Cleaned(DeletedTotal(outcomes))
  {
    if outcomes != [] {
      CleanupReportSums(outcomes[1..]);
    }
  }

  /** An escaping error reports the error of the first query that raised one. */
  lemma {:induction false} CleanupReportFirstError(outcomes: seq<Exec<()>>, k: nat)
    requires k < |outcomes| && outcomes[k].Threw?
    requires forall j :: 0 <= j < k ==> !outcomes[j].Threw?
    ensures CleanupReport(outcomes) == CleanupError(outcomes[k].message)
  {
    if k > 0 {
      CleanupReportFirstError(outcomes[1..], k - 1);
    }
  }

  /** The report for `total` rows already removed followed by the given outcomes. */
  function Continue(total: nat, rest: seq<Exec<()>>): CleanupResult
  {
    match CleanupReport(rest)
    case Cleaned(n) => Cleaned(total + n)
    case CleanupError(e) => CleanupError(e)
  }

  /** The outcomes of the cleanup queries, one per table, in order. */
  function CleanupOutcomes(dias: int, delete: (string, int) -> Exec<()>): (o: seq<Exec<()>>)
    ensures |o| == |CleanupTables|
    ensures forall k :: 0 <= k < |o| ==> o[k] == delete(CleanupTables[k], dias)
  {
    seq(|CleanupTables|, k requires 0 <= k < |CleanupTables| => delete(CleanupTables[k], dias))
  }

  /**
   * limpiarRegistrosAntiguos. `delete(table, days)` is the outcome of the
   * delete of the rows older than `days` days from `table`.
   */
  method CleanOldRecords(diasAntiguedad: Option<int>, delete: (string, int) -> Exec<()>)
    returns (r: CleanupResult)
    ensures var dias := if diasAntiguedad.Some? then diasAntiguedad.value else DefaultRetentionDays;
            r == CleanupReport(CleanupOutcomes(dias, delete))
  {
    var dias := if diasAntiguedad.Some? then diasAntiguedad.value else DefaultRetentionDays;
    ghost var outcomes := CleanupOutcomes(dias, delete);
    var totalEliminados: nat := 0;
    var i := 0;
    while i < |CleanupTables|
      invariant 0 <= i <= |CleanupTables|
      invariant CleanupReport(outcomes) == Continue(totalEliminados, outcomes[i..])
    {
      var result := delete(CleanupTables[i], dias);
      assert outcomes[i..][1..] == outcomes[i + 1..];
      if result.Threw? {
        return CleanupError(result.message);
      }
      if result.Succeeded? {
        var eliminados := result.affectedRows;
        totalEliminados := totalEliminados + eliminados;
      }
      i := i + 1;
    }
    assert outcomes[i..] == [];
    r := Cleaned(totalEliminados);
  }

  /** With no escaping error, the cleanup reports the rows removed by the queries that ran. */
  lemma CleanupCountsSuccesses(dias: int, delete: (string, int) -> Exec<()>)
    requires forall t :: t in CleanupTables ==> !delete(t, dias).Threw?
    ensures CleanupReport(CleanupOutcomes(dias, delete))
            == Cleaned(Removed(delete("asistencias", dias)) + Removed(delete("logs_bot", dias)))
  {
    var o := CleanupOutcomes(dias, delete);
    forall k | 0 <= k < |o| ensures !o[k].Threw? {
      assert CleanupTables[k] in CleanupTables;
    }
    CleanupReportSums(o);
    assert o[1..][1..] == [];
    assert DeletedTotal(o[1..]) == Removed(o[1]);
    assert o[0] == delete("asistencias", dias) && o[1] == delete("logs_bot", dias);
  }
}
