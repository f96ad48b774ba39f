# Attendance bot decision logic, modelled in Dafny

The model covers the decisions a WhatsApp attendance bot makes around its database and HTTP calls. It has three parts:

- **Geofence verdicts** (`Geofencing`). Deciding whether an employee's reported location counts as being at the assigned work site. Normalising an employee row into a configuration record. Building the rejection and acceptance chat messages.
- **Attendance rules** (`Asistencias`). The parameters of an attendance insert. Whether an employee may register again after a number of hours. How bot log fields are truncated. How many rows the retention cleanup removed.
- **Address resolution** (`Geocoding`). Validating the coordinates. Asking Google, then MapBox, then Nominatim, and falling back to an address made of the coordinates. Cleaning a provider's address text. Retrying the whole chain a bounded number of times.

A fourth module, `Js`, holds the JavaScript semantics these decisions depend on:

- which values are falsy, and what `a || b` yields;
- how a value is spelled in a template literal;
- how `parseFloat`, `Number(...)` and `isNaN` read a string;
- which characters `\s` and `trim()` treat as white space.

Numbers are exact decimals (`units / 10^scale`). That is how MySQL DECIMAL columns and the coordinates in a chat message are written.

All I/O is an input to the model:

- the employee lookup and the store-side distance function;
- the haversine fallback;
- closing the connection;
- each query's outcome;
- each provider's reply on each attempt;
- the clock used for `new Date()`.

Each input is the value the call produced, or the message of the error it threw.

Form: the code that works step by step is written as imperative methods:

- `validarUbicacionEmpleado` is `ValidateEmployeeLocation`, with early returns and a reassigned distance.
- The cleanup loop is `CleanOldRecords`, which accumulates the deleted-row total.
- The retry loop is `ResolveWithRetry`, which returns the record with its address replaced by the cleaned one.

Each loop is proved against a recursive specification function: `CleanupReport` for the cleanup and `FirstFound` for the retries. The lemmas beside each function state what the source promises about it. The other operations are pure mappings and are written as functions.

Two behaviours of the code are easy to misread:

- **Radius default.** `radio_permitido || 1000` applies the 1000 m default only to a falsy radius: a null or 0 radius gets 1000 and a negative radius is kept as it is. `AppliedRadius` states this.
- **`geofencing_activo`.** The verdict (geofencing.js:55) switches the check off only for exactly `'NO'`, while the configuration record (geofencing.js:161) reports it as on only for exactly `'SI'`. A null flag is therefore enforced by the first and reported as off by the second (`NullGeofencingReadsBothWays`).

## Model

| member | source | states |
|---|---|---|
| Geofencing.ValidateEmployeeLocation | geofencing.js:18-129 | Covers every branch of the verdict:<br>• A lookup fault, or a fault closing the connection, gives the fail-open verdict.<br>• No row gives success=false, valida=false, geofencing off and no distance field.<br>• `'NO'` or a falsy work coordinate (0 included) gives valida=true, distance 0, geofencing off, the applied radius and the address or 'No configurada'.<br>• Otherwise the distance is the store's answer, or the haversine fallback when that call throws, and the verdict is produced normally. valida is exactly distance <= radius, with success=true, geofencing on, and the work coordinates as text.<br>• The location is refused only for an unknown employee or a distance beyond the radius. |
| Geofencing.AppliedRadius | geofencing.js:91 | The applied radius is never 0. It is the configured radius when that is not null or 0, a negative one included. Otherwise it is 1000. |
| Geofencing.FailOpen | geofencing.js:115-127 | The error verdict admits the employee: success=false, valida=true, distance 0, radius 0, geofencing off, and the error message. |
| Geofencing.OutsideReasonStatesBoth | geofencing.js:110-112 | Two outside-the-area reasons are equal only when their distances and radii are equal, so the reason states both numbers in metres. |
| Geofencing.AnchorCoordinate | geofencing.js:162-163 | A work coordinate is reported as null exactly when it is falsy. Otherwise it is parseFloat of it, a number or NaN. |
| Geofencing.EmployeeConfiguration | geofencing.js:132-183 | A lookup or close fault gives its message. No row gives 'Empleado no encontrado'. A record is produced exactly when a row exists. In that record, geofencing is on exactly for 'SI', coordinates follow `AnchorCoordinate`, the radius is the applied radius, and the other columns are copied. |
| Geofencing.ConfigKeepsNumericAnchor | geofencing.js:162-163 | A nonzero numeric coordinate comes back from parseFloat as the same number, with its trailing fractional zeros dropped. A zero coordinate becomes null. |
| Geofencing.NullGeofencingReadsBothWays | geofencing.js:161 | A null `geofencing_activo` with both work coordinates set is enforced by the verdict (line 55) but reported as off by the configuration. |
| Geofencing.WorkplaceLabel | geofencing.js:212 | It shows the address when it is truthy and the fallback label otherwise. |
| Geofencing.RejectionMessage | geofencing.js:202-223 | The message opens with its title. After the greeting it shows the work address, or 'Configurado' when there is none. |
| Geofencing.AcceptanceMessage | geofencing.js:226-240 | The message opens with its title. After the greeting it shows the work address, or 'Tu área asignada' when there is none. |
| Asistencias.InsertParams | models/asistencias.js:14-31 | There are exactly 9 parameters, one per column. zona defaults to 'N/A' and servicio to 'Sin especificar', so both are always truthy. Without a location, the last four parameters are null. With one, latitude, longitude and address are copied unchanged and the timestamp is the clock's value. |
| Asistencias.SaveAttendance | models/asistencias.js:33-69 | The result is saved exactly when the insert succeeds, and it carries the insert id. A failed insert carries the store's error, and a thrown one its message. |
| Asistencias.MayRegister | models/asistencias.js:73-123 | A failed query, no control row, or an exception gives puede=true and esNuevo=true. Otherwise esNuevo=false and puede holds exactly when `(horas \|\| 0)` is at least the limit, which defaults to 6. A refusal always comes with hours below the limit. |
| Asistencias.NullHoursCountAsZero | models/asistencias.js:101-102 | Null hours count as 0, so registering is allowed only when the limit is at most 0. |
| Asistencias.MayRegisterMonotone | models/asistencias.js:101-102 | If registering is allowed after some hours, it stays allowed after more hours. |
| Asistencias.UpdateRegisterControl | models/asistencias.js:126-152 | The result is done exactly when the upsert succeeds. Otherwise it carries the store's error or the thrown message. |
| Asistencias.Truncate | models/asistencias.js:167-168 | `substring(0, n)` returns the first min(\|s\|, n) characters: a prefix of s, and s itself when s is short enough. |
| Asistencias.LogField | models/asistencias.js:167-168 | A falsy field, including the empty string, becomes null. A string is truncated. Any other truthy value throws. |
| Asistencias.LogParams | models/asistencias.js:155-171 | There are six parameters. Identity and action are copied. The states are copied, and an omitted (undefined) state is stored as null, its declared default. mensaje is what `LogField` makes of the message with limit 1000: null exactly when it is falsy, otherwise its first 1000 characters. respuesta is likewise the reply with limit 2000. |
| Asistencias.SaveLog | models/asistencias.js:155-180 | The result is true exactly when the parameters can be built and the insert succeeds. |
| Asistencias.LogKeepsMessagePrefix | models/asistencias.js:167 | Whatever the other arguments, when the reply does not throw, a stored message is exactly the first min(\|m\|, 1000) characters of m, and the whole message when it is short enough. |
| Asistencias.LogKeepsReplyPrefix | models/asistencias.js:168 | Whatever the other arguments, when the message does not throw, a stored reply is exactly the first min(\|r\|, 2000) characters of r, and the whole reply when it is short enough. |
| Asistencias.DeletedTotalAppend | models/asistencias.js:200-208 | The deleted-row count of two runs of queries is the sum of their counts. |
| Asistencias.FailedQueryCountsZero | models/asistencias.js:203-207 | A failed query adds 0 to the count and the later queries still count. |
| Asistencias.CleanupReportSums | models/asistencias.js:198-211 | When no error escapes, the cleanup reports the sum of affectedRows over the successful queries. |
| Asistencias.CleanupReportFirstError | models/asistencias.js:213-216 | When an error escapes, the cleanup reports the error of the first query that raised one. |
| Asistencias.CleanupOutcomes | models/asistencias.js:187-201 | There is one delete per table, in the order asistencias, then logs_bot, each with the retention days. |
| Asistencias.CleanOldRecords | models/asistencias.js:183-217 | The loop returns exactly the cleanup report for the outcomes of its deletes. The retention days default to 90. |
| Asistencias.CleanupCountsSuccesses | models/asistencias.js:198-211 | With no escaping error, the result is the rows removed from asistencias plus those removed from logs_bot, where a failed delete counts 0. |
| Geocoding.SeparatorLength | utils/geocoding.js:181 | After the leading digits, it removes a whole white-space run, then the comma when one follows, then a whole white-space run. What stays does not start with white space. |
| Geocoding.StripLeadingNumber | utils/geocoding.js:181 | The result is a suffix of the input. Nothing is removed unless the input starts with a digit. When it does, exactly the maximal digit run and its separator are removed. |
| Geocoding.StripTrailing | utils/geocoding.js:182-183 | Either nothing is removed, or exactly a comma, white space and the word at the very end are removed. |
| Geocoding.StripTrailingRemoves | utils/geocoding.js:182-183 | `p + "," + spaces + word` becomes p. |
| Geocoding.Collapse | utils/geocoding.js:184 | Every white-space character of the result is a plain space and no two are adjacent. The characters that are not white space are kept in order. |
| Geocoding.CollapseSingleSpaced | utils/geocoding.js:184 | An already single-spaced string is left unchanged. |
| Geocoding.CollapseRun | utils/geocoding.js:184 | A non-empty string of white space alone becomes exactly one space. |
| Geocoding.CollapseNoSpace | utils/geocoding.js:184 | A string with no white space is left unchanged. |
| Geocoding.CollapseAppend | utils/geocoding.js:184 | Collapsing the concatenation of two strings is collapsing each of them, whenever the cut does not fall inside a white-space run. |
| Geocoding.CollapseJoin | utils/geocoding.js:184 | A maximal white-space run between two pieces becomes exactly one space, and the pieces are collapsed on their own. |
| Geocoding.TrimShape | utils/geocoding.js:185 | The trimmed result neither starts nor ends with white space. |
| Geocoding.TrimSingleSpaced | utils/geocoding.js:185 | Trimming a single-spaced string leaves it single-spaced. |
| Geocoding.Clean | utils/geocoding.js:180-185 | The cleaned address has no white space at either end. Every white-space run in it is one plain space. |
| Geocoding.CleanAddress | utils/geocoding.js:177-186 | A falsy address gives null. A string is cleaned. Any other truthy value throws. |
| Geocoding.CleanNotIdempotent | utils/geocoding.js:181 | "12 34 Foo" becomes "34 Foo", which cleans further to "Foo", so cleaning is not idempotent. |
| Geocoding.ResolveAddress | utils/geocoding.js:115-172 | The result is null exactly when a coordinate is falsy (0 included) or NaN, and then no provider is asked. The Mexico box only sets the warning flag. The first provider that answers, in the order Google, MapBox, Nominatim, gives the record, and no later provider is asked. If none answers, the record is `"Coordenadas: lat, lon"` with tipo 'coordenadas' and null components and id. |
| Geocoding.ZeroCoordinateRejected | utils/geocoding.js:119-122 | A zero latitude, at any scale, gives null before any provider is asked. |
| Geocoding.CleanedRecord | utils/geocoding.js:198-201 | An attempt succeeds exactly when the chain's record has a non-empty string address. Its record is the chain's record with that address cleaned. |
| Geocoding.ResolveWithRetry | utils/geocoding.js:191-225 | The loop returns exactly the first successful attempt among 1 to the maximum (default 3), or else the fallback. The number of attempts made never exceeds the maximum. |
| Geocoding.FirstFoundIsFirst | utils/geocoding.js:192-202 | The first successful attempt decides the result. |
| Geocoding.FirstFoundNone | utils/geocoding.js:218-224 | When no attempt succeeds, the result is the fallback record. |
| Geocoding.FirstFoundFromSome | utils/geocoding.js:192-224 | The result is the fallback or the record of one of the attempts. |
| Geocoding.NoAttemptsFallBack | utils/geocoding.js:191-192 | A maximum below 1 returns the fallback at once. |
| Geocoding.InvalidCoordinatesFallBack | utils/geocoding.js:191-224 | Invalid coordinates give `"Ubicación: lat, lon"` with tipo 'fallback', whatever the providers reply. |
| Geocoding.RetryAddressIsClean | utils/geocoding.js:198-201 | A result other than the fallback carries a cleaned address: a string that is trimmed and single-spaced. |

## Left out

- The floating-point body of `calcularDistanciaHaversine` (geofencing.js:186-199) is left out. The fallback is an input returning a non-negative whole number of metres. A NaN distance, from non-numeric coordinates, is not modelled.
- The store-side distance function is an input returning a whole number of metres or an error. Its SQL body, and a null or DECIMAL-string result, are not modelled.
- The kilometre figures of the two messages, `toFixed(2)` of metres / 1000, are left out. The message builders take them as text.
- RejectionMessage, AcceptanceMessage: each contract states the title and the work-address line. The rest of the text is fixed by the body alone.
- `generarMensajeSinGeofencing` is the constant `NoGeofencingMessage`, with no contract.
- The provider clients `obtenerDireccionGoogle`, `obtenerDireccionMapBox` and `obtenerDireccionNominatim` (utils/geocoding.js:10-109) are HTTP calls. Each provider is an input: an answer, no result, or an error. Only the `tipo` each one sets is modelled.
- The following are I/O and are not part of this model:
  - MySQL connections, pools and SQL text;
  - `executeQuery` (config/database.js);
  - `NOW()` and `TIMESTAMPDIFF`;
  - API keys and timeouts.

  Query outcomes, elapsed hours and the `new Date()` instant are inputs.
- ResolveWithRetry: the source assigns the cleaned address onto the chain's record object (utils/geocoding.js:198-201); the model returns a copy with the address replaced. Each attempt builds a fresh record, so no other reference can see the difference.
- The `setTimeout` delays in the retry loop are timing only and are left out.
- All console output is left out. The out-of-Mexico warning appears only as a flag of the resolution.
- index.js and index2.js are not part of this model: the chat session, QR code, cache files and reconnect timer.
- Truncate: JavaScript's `substring` counts UTF-16 code units. The model counts characters, so a character outside the Basic Multilingual Plane counts once rather than twice.
- JavaScript spells very large or very small numbers with an exponent (`1e+21`). The model spells every number in plain decimal notation.
- `parseFloat` and `Number(...)` are modelled for decimal literals with an optional sign. Exponents, `Infinity` and hexadecimal literals are not.
- The messages of the `TypeError`s thrown by `substring` and `replace` on non-strings are placeholders.
- MayRegister: `horasLimite` is modelled as a whole number that may be left out. A non-numeric limit is not modelled.
