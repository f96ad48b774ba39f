/**
 * The geofence verdict engine: whether an employee's reported location
 * counts as being at the assigned work site, how an employee's row is
 * normalised into a configuration record, and the two chat messages built
 * from a verdict.
 *
 * The database connection, the employee lookup, the store-side distance
 * function and the haversine fallback are inputs: each is the value the
 * corresponding call produced, or the message of the error it threw.
 */
module Geofencing {
  import opened Js

  /** The allowed radius, in metres, applied when the employee's is null or 0. */
  const DefaultRadius: int := 1000

  /** A row of the `empleados` table: the columns the two lookups select. */
  datatype EmployeeRow = EmployeeRow(
    userId: Value,
    nombreCompleto: Value,
    zona: Value,
    geofencingActivo: Value,
    latitudTrabajo: Value,
    longitudTrabajo: Value,
    radioPermitidoMetros: Option<int>,
    direccionTrabajo: Value,
    observacionesUbicacion: Value)

  /**
   * The object validarUbicacionEmpleado returns. A field that the object of
   * a branch does not carry is None.
   */
  datatype Verdict = Verdict(
    success: bool,
    valida: bool,
    motivo: string,
    geofencingActivo: bool,
    distanciaMetros: Option<int>,
    radioPermitido: Option<int>,
    direccionTrabajo: Option<Value>,
    nombreCompleto: Option<Value>,
    coordenadasTrabajo: Option<string>,
    error: Option<string>)

  const NotFoundReason: string := "Empleado no encontrado en el sistema"
  const UnrestrictedReason: string := "Empleado sin restricción geográfica configurada"
  const InsideReason: string := "Ubicación dentro del área de trabajo asignada"
  const FailOpenReason: string := "Error en validación - registro permitido por seguridad"
  const OutsidePrefix: string := "Fuera del área de trabajo. Distancia: "
  const OutsideMiddle: string := "m, Máximo permitido: "

  /** The reason given when the reported location is outside the allowed radius. */
  function OutsideReason(distance: int, radius: int): string
  {
    OutsidePrefix + IntText(distance) + OutsideMiddle + IntText(radius) + "m"
  }

  /** The radius actually applied: the configured one unless it is null or 0. */
  function AppliedRadius(row: EmployeeRow): (r: int)
    ensures r != 0
    ensures row.radioPermitidoMetros.Some? && row.radioPermitidoMetros.value != 0
            ==> r == row.radioPermitidoMetros.value
    ensures row.radioPermitidoMetros.None? || row.radioPermitidoMetros.value == 0 ==> r == DefaultRadius
  {
    IntOr(row.radioPermitidoMetros, DefaultRadius)
  }

  /** The employee is not restricted: geofencing switched off with 'NO', or a work coordinate missing. */
  predicate Unrestricted(row: EmployeeRow)
  {
    row.geofencingActivo == Str("NO") || !Truthy(row.latitudTrabajo) || !Truthy(row.longitudTrabajo)
  }

  /** The verdict of the outer error handler: registration is allowed. */
  function FailOpen(message: string): (v: Verdict)
    ensures !v.success && v.valida && !v.geofencingActivo
    ensures v.distanciaMetros == Some(0) && v.radioPermitido == Some(0)
    ensures v.error == Some(message)
  {
    Verdict(success := false, valida := true, motivo := FailOpenReason, geofencingActivo := false,
            distanciaMetros := Some(0), radioPermitido := Some(0), direccionTrabajo := None,
            nombreCompleto := None, coordenadasTrabajo := None, error := Some(message))
  }

  /**
   * The distance the employee is from the work site: the store-side
   * function's answer, or the haversine fallback when that call throws.
   */
  function MeasuredDistance(row: EmployeeRow, latitud: Value, longitud: Value,
                            storeDistance: (Value, Value, Value, Value) -> Reply<int>,
                            haversine: (Value, Value, Value, Value) -> nat): int
  {
    var fromStore := storeDistance(row.latitudTrabajo, row.longitudTrabajo, latitud, longitud);
    if fromStore.Ok? then fromStore.value
    else haversine(row.latitudTrabajo, row.longitudTrabajo, latitud, longitud)
  }

  /**
   * validarUbicacionEmpleado. `lookup(userId)` is the outcome of connecting
   * and selecting the employee's rows; `closeFault` is the error thrown by
   * closing the connection, if any.
   */
  method ValidateEmployeeLocation(userId: Value, latitud: Value, longitud: Value,
                                  lookup: Value -> Reply<seq<EmployeeRow>>,
                                  storeDistance: (Value, Value, Value, Value) -> Reply<int>,
                                  haversine: (Value, Value, Value, Value) -> nat,
                                  closeFault: Option<string>)
    returns (v: Verdict)
    // Any fault reaching the outer handler admits the employee.
    ensures lookup(userId).Fault? ==> v == FailOpen(lookup(userId).message)
    ensures lookup(userId).Ok? && closeFault.Some? ==> v == FailOpen(closeFault.value)
    // An unknown employee is rejected, and the verdict carries no distance.
    ensures lookup(userId) == Ok([]) && closeFault.None? ==>
              v == Verdict(success := false, valida := false, motivo := NotFoundReason,
                           geofencingActivo := false, distanciaMetros := None, radioPermitido := None,
                           direccionTrabajo := None, nombreCompleto := None,
                           coordenadasTrabajo := None, error := None)
    // An unrestricted employee is admitted at distance 0.
    ensures lookup(userId).Ok? && |lookup(userId).value| > 0 && closeFault.None?
            && Unrestricted(lookup(userId).value[0]) ==>
              var row := lookup(userId).value[0];
              v == Verdict(success := true, valida := true, motivo := UnrestrictedReason,
                           geofencingActivo := false, distanciaMetros := Some(0),
                           radioPermitido := Some(AppliedRadius(row)),
                           direccionTrabajo := Some(Or(row.direccionTrabajo, Str("No configurada"))),
                           nombreCompleto := Some(row.nombreCompleto),
                           coordenadasTrabajo := None, error := None)
    // Otherwise the measured distance is compared with the applied radius, boundary included.
    ensures lookup(userId).Ok? && |lookup(userId).value| > 0 && closeFault.None?
            && !Unrestricted(lookup(userId).value[0]) ==>
              var row := lookup(userId).value[0];
              var d := MeasuredDistance(row, latitud, longitud, storeDistance, haversine);
              var r := AppliedRadius(row);
              v == Verdict(success := true, valida := d <= r,
                           motivo := if d <= r then InsideReason else OutsideReason(d, r),
                           geofencingActivo := true, distanciaMetros := Some(d), radioPermitido := Some(r),
                           direccionTrabajo := Some(Or(row.direccionTrabajo, Str("Configurada"))),
                           nombreCompleto := Some(row.nombreCompleto),
                           coordenadasTrabajo := Some(Text(row.latitudTrabajo) + ", " + Text(row.longitudTrabajo)),
                           error := None)
    // A location is refused only for an unknown employee or a distance beyond the radius.
    ensures !v.valida ==>
              (!v.success && v.distanciaMetros.None?)
              || (v.success && v.geofencingActivo && v.distanciaMetros.Some? && v.radioPermitido.Some?
                  && v.distanciaMetros.value > v.radioPermitido.value)
  {
    var reply := lookup(userId);
    if reply.Fault? {
      return FailOpen(reply.message);
    }
    var empleados := reply.value;
    if |empleados| == 0 {
      if closeFault.Some? {
        return FailOpen(closeFault.value);
      }
      return Verdict(success := false, valida := false, motivo := NotFoundReason,
                     geofencingActivo := false, distanciaMetros := None, radioPermitido := None,
                     direccionTrabajo := None, nombreCompleto := None,
                     coordenadasTrabajo := None, error := None);
    }
    var empleado := empleados[0];
    if empleado.geofencingActivo == Str("NO") || !Truthy(empleado.latitudTrabajo)
       || !Truthy(empleado.longitudTrabajo)
    {
      if closeFault.Some? {
        return FailOpen(closeFault.value);
      }
      return Verdict(success := true, valida := true, motivo := UnrestrictedReason,
                     geofencingActivo := false, distanciaMetros := Some(0),
                     radioPermitido := Some(IntOr(empleado.radioPermitidoMetros, DefaultRadius)),
                     direccionTrabajo := Some(Or(empleado.direccionTrabajo, Str("No configurada"))),
                     nombreCompleto := Some(empleado.nombreCompleto),
                     coordenadasTrabajo := None, error := None);
    }
    var distanciaActual := 0;
    var fromStore := storeDistance(empleado.latitudTrabajo, empleado.longitudTrabajo, latitud, longitud);
    if fromStore.Ok? {
      distanciaActual := fromStore.value;
    } else {
      distanciaActual := haversine(empleado.latitudTrabajo, empleado.longitudTrabajo, latitud, longitud);
    }
    if closeFault.Some? {
      return FailOpen(closeFault.value);
    }
    var radioPermitido := IntOr(empleado.radioPermitidoMetros, DefaultRadius);
    var dentroDelArea := distanciaActual <= radioPermitido;
    v := Verdict(success := true, valida := dentroDelArea,
                 motivo := if dentroDelArea then InsideReason else OutsideReason(distanciaActual, radioPermitido),
                 geofencingActivo := true, distanciaMetros := Some(distanciaActual),
                 radioPermitido := Some(radioPermitido),
                 direccionTrabajo := Some(Or(empleado.direccionTrabajo, Str("Configurada"))),
                 nombreCompleto := Some(empleado.nombreCompleto),
                 coordenadasTrabajo := Some(Text(empleado.latitudTrabajo) + ", " + Text(empleado.longitudTrabajo)),
                 error := None);
  }

  // ---------------------------------------------------------------------
  // The rejection reason states the distance and the radius unambiguously
  // ---------------------------------------------------------------------

  /** Two digit strings each followed by a text that starts with a non-digit line up. */
  lemma {:induction false} DigitsThenStop(a: string, x: string, b: string, y: string)
    requires AllDigits(a) && AllDigits(b)
    requires x != [] && !IsDigit(x[0]) && y != [] && !IsDigit(y[0])
    requires a + x == b + y
    ensures a == b && x == y
  {
    if a == [] || b == [] {
      assert (a + x)[0] == (b + y)[0];
      if a != [] {
        assert false;
      } else if b != [] {
        assert false;
      }
      assert a + x == x && b + y == y;
    } else {
      assert (a + x)[1..] == a[1..] + x && (b + y)[1..] == b[1..] + y;
      DigitsThenStop(a[1..], x, b[1..], y);
      assert a == [a[0]] + a[1..] && b == [b[0]] + b[1..];
      assert (a + x)[0] == a[0] && (b + y)[0] == b[0];
    }
  }

  /** The rest of p + a after p is a. */
  lemma DropPrefix(p: string, a: string, b: string)
    requires p + a == p + b
    ensures a == b
  {
    assert a == (p + a)[|p|..] && b == (p + b)[|p|..];
  }

  /** Two integers spelled in front of texts that start with 'm' line up. */
  lemma IntTextThenUnit(i: int, x: string, j: int, y: string)
    requires x != [] && x[0] == 'm' && y != [] && y[0] == 'm'
    requires IntText(i) + x == IntText(j) + y
    ensures i == j && x == y
  {
    SameSign(i, x, j, y);
    if i < 0 {
      NegativeThenUnit(i, x, j, y);
    } else {
      DigitsThenStop(NatText(i), x, NatText(j), y);
    }
    IntTextInjective(i, j);
  }

  /** A minus sign and a leading digit cannot meet at the same place. */
  lemma SameSign(i: int, x: string, j: int, y: string)
    requires IntText(i) + x == IntText(j) + y
    ensures i < 0 <==> j < 0
  {
    assert (IntText(i) + x)[0] == IntText(i)[0];
    assert (IntText(j) + y)[0] == IntText(j)[0];
    assert i >= 0 ==> IsDigit(IntText(i)[0]);
    assert j >= 0 ==> IsDigit(IntText(j)[0]);
  }

  lemma NegativeThenUnit(i: int, x: string, j: int, y: string)
    requires i < 0 && j < 0
    requires x != [] && x[0] == 'm' && y != [] && y[0] == 'm'
    requires IntText(i) + x == IntText(j) + y
    ensures IntText(i) == IntText(j) && x == y
  {
    var a, b := NatText(-i), NatText(-j);
    assert IntText(i) + x == "-" + (a + x);
    assert IntText(j) + y == "-" + (b + y);
    DropPrefix("-", a + x, b + y);
    DigitsThenStop(a, x, b, y);
  }

  /** Different integers are spelled differently. */
  lemma IntTextInjective(i: int, j: int)
    requires IntText(i) == IntText(j)
    ensures i == j
  {
    IntTextParses(i);
    IntTextParses(j);
  }

  lemma Regroup(p: string, a: string, mid: string, b: string)
    ensures p + a + mid + b + "m" == p + (a + (mid + (b + "m")))
  {
  }

  /** Text of the form p + i + mid + j + "m", with mid starting with 'm', determines i and j. */
  lemma TwoQuantitiesDetermined(p: string, mid: string, i1: int, j1: int, i2: int, j2: int)
    requires mid != [] && mid[0] == 'm'
    requires p + IntText(i1) + mid + IntText(j1) + "m" == p + IntText(i2) + mid + IntText(j2) + "m"
    ensures i1 == i2 && j1 == j2
  {
    var a1, b1, a2, b2 := IntText(i1), IntText(j1), IntText(i2), IntText(j2);
    Regroup(p, a1, mid, b1);
    Regroup(p, a2, mid, b2);
    var x1, x2 := mid + (b1 + "m"), mid + (b2 + "m");
    DropPrefix(p, a1 + x1, a2 + x2);
    IntTextThenUnit(i1, x1, i2, x2);
    DropPrefix(mid, b1 + "m", b2 + "m");
    IntTextThenUnit(j1, "m", j2, "m");
  }

  /** The reason given for a location outside the area determines both the distance and the radius. */
  lemma OutsideReasonStatesBoth(d1: int, r1: int, d2: int, r2: int)
    requires OutsideReason(d1, r1) == OutsideReason(d2, r2)
    ensures d1 == d2 && r1 == r2
  {
    assert OutsideMiddle[0] == 'm';
    TwoQuantitiesDetermined(OutsidePrefix, OutsideMiddle, d1, r1, d2, r2);
  }

  // ---------------------------------------------------------------------
  // obtenerConfiguracionEmpleado
  // ---------------------------------------------------------------------

  /** The normalised configuration record of one employee. */
  datatype EmployeeConfig = EmployeeConfig(
    userId: Value,
    nombreCompleto: Value,
    zona: Value,
    geofencingActivo: bool,
    latitudTrabajo: Value,
    longitudTrabajo: Value,
    radioPermitidoMetros: int,
    direccionTrabajo: Value,
    observacionesUbicacion: Value)

  datatype ConfigResult = Found(empleado: EmployeeConfig) | ConfigError(error: string)

  /** A work coordinate as the configuration reports it: parsed when present, null when falsy. */
  function AnchorCoordinate(v: Value): (r: Value)
    ensures r == Null <==> !Truthy(v)
    ensures Truthy(v) ==> r == ParseFloat(v) && (r.Num? || r.NaN?)
  {
    if Truthy(v) then ParseFloat(v) else Null
  }

  /**
   * obtenerConfiguracionEmpleado. The connection is closed before the rows
   * are looked at, so a fault while closing wins over "not found".
   */
  function EmployeeConfiguration(userId: Value, lookup: Value -> Reply<seq<EmployeeRow>>,
                                 closeFault: Option<string>): (r: ConfigResult)
    ensures lookup(userId).Fault? ==> r == ConfigError(lookup(userId).message)
    ensures lookup(userId).Ok? && closeFault.Some? ==> r == ConfigError(closeFault.value)
    ensures lookup(userId) == Ok([]) && closeFault.None? ==> r == ConfigError("Empleado no encontrado")
    ensures r.Found? <==> lookup(userId).Ok? && |lookup(userId).value| > 0 && closeFault.None?
    ensures r.Found? ==>
              var row := lookup(userId).value[0];
              && r.empleado.userId == row.userId
              && r.empleado.nombreCompleto == row.nombreCompleto
              && r.empleado.zona == row.zona
              && r.empleado.geofencingActivo == (row.geofencingActivo == Str("SI"))
              && r.empleado.latitudTrabajo == AnchorCoordinate(row.latitudTrabajo)
              && r.empleado.longitudTrabajo == AnchorCoordinate(row.longitudTrabajo)
              && r.empleado.radioPermitidoMetros == AppliedRadius(row)
              && r.empleado.direccionTrabajo == row.direccionTrabajo
              && r.empleado.observacionesUbicacion == row.observacionesUbicacion
  {
    var reply := lookup(userId);
    if reply.Fault? then ConfigError(reply.message)
    else if closeFault.Some? then ConfigError(closeFault.value)
    else if |reply.value| == 0 then ConfigError("Empleado no encontrado")
    else
      var row := reply.value[0];
      Found(EmployeeConfig(
        userId := row.userId,
        nombreCompleto := row.nombreCompleto,
        zona := row.zona,
        geofencingActivo := row.geofencingActivo == Str("SI"),
        latitudTrabajo := AnchorCoordinate(row.latitudTrabajo),
        longitudTrabajo := AnchorCoordinate(row.longitudTrabajo),
        radioPermitidoMetros := IntOr(row.radioPermitidoMetros, DefaultRadius),
        direccionTrabajo := row.direccionTrabajo,
        observacionesUbicacion := row.observacionesUbicacion))
  }

  /**
   * A numeric work coordinate keeps its value through the configuration:
   * parseFloat of a number gives the same number back.
   */
  lemma ConfigKeepsNumericAnchor(d: Decimal)
    ensures d.units != 0 ==> AnchorCoordinate(Num(d)) == Num(Normalize(d))
    ensures d.units == 0 ==> AnchorCoordinate(Num(d)) == Null
  {
    NumberTextParses(d);
  }

  /**
   * The two readings of `geofencing_activo` differ: only 'SI' counts as on
   * in the configuration, while only 'NO' switches the check off in the
   * verdict. A null value with both work coordinates set is reported as off
   * by one and enforced by the other.
   */
  lemma NullGeofencingReadsBothWays(row: EmployeeRow)
    requires row.geofencingActivo == Null
    requires Truthy(row.latitudTrabajo) && Truthy(row.longitudTrabajo)
    ensures !Unrestricted(row)
    ensures EmployeeConfiguration(Null, (_: Value) => Ok([row]), None).Found?
    ensures !EmployeeConfiguration(Null, (_: Value) => Ok([row]), None).empleado.geofencingActivo
  {
  }

  // ---------------------------------------------------------------------
  // Chat messages built from a verdict
  // ---------------------------------------------------------------------

  /** `validacion.direccion_trabajo || fallback`, as text. */
  function WorkplaceLabel(direccion: Option<Value>, fallback: string): (shown: string)
    ensures direccion.None? || !Truthy(direccion.value) ==> shown == fallback
    ensures direccion.Some? && Truthy(direccion.value) ==> shown == Text(direccion.value)
  {
    if direccion.Some? && Truthy(direccion.value) then Text(direccion.value) else fallback
  }

  const RejectionTitle: string := "❌ *UBICACIÓN FUERA DE TU ÁREA DE TRABAJO*\n\n"
  const AcceptanceTitle: string := "✅ *UBICACIÓN VALIDADA CORRECTAMENTE*\n\n"

  /** A message made of a title, a greeting, a line and the rest: the title comes first and the line follows the greeting. */
  function Compose(title: string, greeting: string, line: string, tail: string): (m: string)
    ensures |title| <= |m| && m[..|title|] == title
    ensures |title + greeting| + |line| <= |m| && m[|title + greeting|..|title + greeting| + |line|] == line
  {
    var m := title + greeting + line + tail;
    assert m == title + (greeting + line + tail);
    assert m == (title + greeting) + (line + tail);
    m
  }

  const RejectionCaption: string := "• Lugar de trabajo asignado: *"
  const AcceptanceCaption: string := "• Lugar de trabajo: *"

  /** The message line that names the work address, set in bold. */
  function WorkplaceLine(caption: string, shown: string): string
  {
    caption + shown + "*\n"
  }

  function RejectionGreeting(nombreEmpleado: Value): string
  {
    "🚫 " + Text(nombreEmpleado) + ", no puedes registrar asistencia desde esta ubicación.\n\n"
    + "📍 **Detalles de tu ubicación:**\n"
  }

  /** What the employee can do, and how to cancel. */
  const RejectionSteps: string :=
    "🎯 **¿Qué puedes hacer?**\n"
    + "1. Dirígete a tu lugar de trabajo asignado\n"
    + "2. Verifica que estés en la ubicación correcta\n"
    + "3. Si hay un error en tu ubicación asignada, contacta a tu supervisor\n\n"
    + "📞 *Si necesitas que cambien tu ubicación de trabajo, contacta a Recursos Humanos*\n\n"
    + "📋 *Para cancelar este registro, escribe* *inicio*"

  function RejectionAdvice(excessKm: string): string
  {
    "• Debes acercarte: *" + excessKm + " km*\n\n" + RejectionSteps
  }

  /**
   * generarMensajeErrorUbicacionIndividual. `excessKm` is the distance over
   * the limit as the caller renders it in kilometres with two decimals.
   * The message opens with its title and shows the work address, or
   * 'Configurado' when the verdict carries none.
   */
  function RejectionMessage(validacion: Verdict, nombreEmpleado: Value, excessKm: string): (m: string)
    ensures |RejectionTitle| <= |m| && m[..|RejectionTitle|] == RejectionTitle
    ensures var line := WorkplaceLine(RejectionCaption,
                                      WorkplaceLabel(validacion.direccionTrabajo, "Configurado"));
            var i := |RejectionTitle + RejectionGreeting(nombreEmpleado)|;
            i + |line| <= |m| && m[i..i + |line|] == line
  {
    var line := WorkplaceLine(RejectionCaption,
                              WorkplaceLabel(validacion.direccionTrabajo, "Configurado"));
    Compose(RejectionTitle, RejectionGreeting(nombreEmpleado), line, RejectionAdvice(excessKm))
  }

  function AcceptanceGreeting(nombreEmpleado: Value): string
  {
    "👤 **" + Text(nombreEmpleado) + "**\n" + "📍 **Confirmación de ubicación:**\n"
  }

  function AcceptanceDetails(distanceKm: string, radiusKm: string): string
  {
    "• Tu distancia: *" + distanceKm + " km del centro*\n"
    + "• Radio permitido: *" + radiusKm + " km*\n"
    + "• Estado: *Dentro de tu área de trabajo* ✅\n\n"
    + "🔍 Procesando tu registro de asistencia..."
  }

  /**
   * generarMensajeUbicacionValidaIndividual. `distanceKm` and `radiusKm` are
   * the distance and the radius as the caller renders them in kilometres.
   * The message opens with its title and shows the work address, or
   * 'Tu área asignada' when the verdict carries none.
   */
  function AcceptanceMessage(validacion: Verdict, nombreEmpleado: Value, distanceKm: string, radiusKm: string): (m: string)
    ensures |AcceptanceTitle| <= |m| && m[..|AcceptanceTitle|] == AcceptanceTitle
    ensures var line := WorkplaceLine(AcceptanceCaption,
                                      WorkplaceLabel(validacion.direccionTrabajo, "Tu área asignada"));
            var i := |AcceptanceTitle + AcceptanceGreeting(nombreEmpleado)|;
            i + |line| <= |m| && m[i..i + |line|] == line
  {
    var line := WorkplaceLine(AcceptanceCaption,
                              WorkplaceLabel(validacion.direccionTrabajo, "Tu área asignada"));
    Compose(AcceptanceTitle, AcceptanceGreeting(nombreEmpleado), line, AcceptanceDetails(distanceKm, radiusKm))
  }

  /** generarMensajeSinGeofencing: a fixed notice whatever the name. */
  const NoGeofencingMessage: string := "ℹ️ *SIN RESTRICCIÓN GEOGRÁFICA*"
}
