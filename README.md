# Mis Gastos — a verified model of the expense tracker's core

This project models, in Dafny, the logic of a small personal-expense tracker.
Each expense ("gasto") has:

- a name;
- a `YYYY-MM-DD` date;
- an amount;
- an optional category;
- an optional description.

The model covers these parts of the program:

- The signed-in application (`AuthenticatedApp`). It keeps the in-memory list of expenses in step with the backend after a load, create, delete or update, and tracks the selected tab. It is modelled as a class in `app.dfy`.
- The dashboard statistics (`estadisticas`): total, average, largest and smallest amount, the current month's total and count, and per-category totals. Also the category ranking, the percentage bars, the daily average and the "latest five" panel. These are in `dashboard.dfy`, with the per-category accumulator in `categorias.dfy`.
- The monthly summary `gastosService.getResumenMes`: the two `YYYY-MM-01` bounds of the date window and the aggregation of the rows the backend returns. This is in `resumen.dfy`.
- The create form (`GastoForm`): its checks, the record it sends and how it resets. This is in `gasto_form.dfy`.
- The expense table (`GastoList`): delete, inline editing and the edit row's check. This is in `gasto_list.dfy`.
- The sign-in form (`Login`, in `login.dfy`) and the sign-up form (`Register`, in `register.dfy`).

Supporting modules:

- `wrappers.dfy`: `Option`, `Outcome`.
- `js_strings.dfy`: JavaScript's `trim`, `||` on strings, UTF-16 `length`, `padStart` and `toString` of integers.
- `dates.dfy`: calendar dates and the `YYYY-MM-DD` format.
- `gastos.dfy`: the `Gasto` record, the category fallback label, sums and the newest-first order of records.

How the source is represented:

- Amounts are `real`.
- `parseFloat` is a function parameter whose result is either a number or `NaN`.
- "Today" is a `Date` parameter.
- Each `async` handler is split at its `await`:
  - the first method runs the checks and returns the request it would send, or `None`;
  - a `...Settled` method takes the backend's answer (an `Outcome`, or the error reported) and applies the rest of the handler.
- The backend, the auth service, `window.confirm` and `alert` are parameters or outcomes.
- The object used as a category accumulator is an association list in insertion order.

## Model

| member | source | states |
|---|---|---|
| Gastos.Etiqueta | src/components/Dashboard.tsx:42 | A missing or empty category is counted under "Sin categoría" (the same fallback as the list's badge); any other category under itself; the label is never empty |
| Gastos.Valores | src/components/Dashboard.tsx:22 | One amount per record, each the amount of the record at the same position |
| Gastos.SumNoNegativa | src/components/Dashboard.tsx:23 | A sum of amounts none of which is negative is not negative |
| Gastos.Total | src/components/Dashboard.tsx:23 | The total of a single record is its amount (with `TotalAppend` this fixes the total of every list); with no negative amounts the total is not negative. The header and the list compute the same fold |
| Gastos.TotalAppend | src/App.tsx:100 | The header total (a left fold of the amounts, the same fold as the list's total) adds up over concatenated lists |
| Gastos.SumAppend | src/lib/supabase.ts:76 | `Sum`, the left fold from 0 that both `reduce` calls compute (here and at src/components/Dashboard.tsx:23), adds up over concatenated lists; with `SumCons` this fixes its value on every list |
| Gastos.SumCons | src/components/Dashboard.tsx:23 | Folding from the left, a value put in front adds to the sum of the rest |
| Gastos.Filas | src/lib/supabase.ts:70 | `select('valor, categoria')`: one row per record, each holding exactly that record's amount and category |
| Gastos.ValoresOfFilas | src/lib/supabase.ts:70 | Projecting records to `valor, categoria` keeps every amount, so the total is unchanged |
| Gastos.MasRecienteTransitivo | src/lib/supabase.ts:26 | The newest-first comparison of dates is transitive (placing unreadable dates last is a convention of the model, see Left out) |
| Categorias.Sumar | src/components/Dashboard.tsx:43 | One accumulator step keeps the keys when the category is present and appends it at the end otherwise |
| Categorias.SumarLookup | src/components/Dashboard.tsx:43 | One step adds the amount to that category's running total (absent keys read as 0) and leaves every other category's total as it was |
| Categorias.SumarSuma | src/components/Dashboard.tsx:43 | One step adds the amount to the sum of all category totals |
| Categorias.Lookup | src/components/Dashboard.tsx:43 | A category with no key in the accumulator reads as 0 |
| Categorias.LookupPrimera | src/components/Dashboard.tsx:43 | The value read for a category is the total stored under the first key equal to it |
| Categorias.Distintas | src/components/Dashboard.tsx:41-45 | The distinct labels: no repeats, and exactly the members of the label list |
| Categorias.DistintasOrden | src/components/Dashboard.tsx:41-45 | The distinct labels come in order of first appearance: wherever a label occurs, every label listed before it has already occurred |
| Categorias.PorCategoria | src/components/Dashboard.tsx:41-45 | The finished accumulator has no repeated key |
| Categorias.PorCategoriaClaves | src/components/Dashboard.tsx:41-45 | The accumulator's keys are exactly the row labels, each once, in order of first occurrence |
| Categorias.PorCategoriaLookup | src/components/Dashboard.tsx:41-45 | Each category's entry is the sum of the amounts of exactly the rows counted under it |
| Categorias.PorCategoriaSuma | src/components/Dashboard.tsx:41-45 | The category totals add up to the grand total |
| Categorias.AcumularPorCategoria | src/lib/supabase.ts:77-81 | The reduce loop builds the specified accumulator: distinct keys in first-seen order, per-category sums, and the sum of totals equal to the grand total |
| Dashboard.Maximo | src/components/Dashboard.tsx:25 | `Math.max` of a non-empty list is one of the values and bounds them all from above |
| Dashboard.Minimo | src/components/Dashboard.tsx:26 | `Math.min` of a non-empty list is one of the values and bounds them all from below |
| Dashboard.SumaAcotada | src/components/Dashboard.tsx:23 | A sum of n values between lo and hi lies between n·lo and n·hi |
| Dashboard.PromedioAcotado | src/components/Dashboard.tsx:24 | An average of values between lo and hi lies between lo and hi |
| Dashboard.Promedio | src/components/Dashboard.tsx:24 | The average times the number of records gives back the total |
| Dashboard.PromedioEntreExtremos | src/components/Dashboard.tsx:24-26 | The average lies between the smallest and the largest amount |
| Dashboard.InicioMes | src/components/Dashboard.tsx:30 | The first day of today's month: a valid date of that month, on or before every date of it |
| Dashboard.FinMes | src/components/Dashboard.tsx:31 | The last day of today's month: a valid date of that month, on or after every date of it |
| Dashboard.EnMesActual | src/components/Dashboard.tsx:29-36 | A record passes the month filter exactly when its date is readable and falls in today's year and month |
| Dashboard.GastosMesActual | src/components/Dashboard.tsx:33-36 | The filter keeps exactly the records of the current month and never lengthens the list; a single record is kept exactly when it is of the current month |
| Dashboard.GastosMesActualConcat | src/components/Dashboard.tsx:33-36 | Filtering a concatenation is concatenating the filtered parts; with the one-record case this fixes the result: each record of the month once, in list order, so the month's count and total are those of the matching records |
| Dashboard.TotalMesAcotado | src/components/Dashboard.tsx:38 | With no negative amounts, the month's total lies between 0 and the overall total |
| Dashboard.CalcularEstadisticas | src/components/Dashboard.tsx:9-56 | All zeros for no records. Otherwise: total = sum of the amounts; average × count = total; largest and smallest are amounts that bound every record; smallest ≤ average ≤ largest; the month's total and count come from the month filter (count ≤ records); per-category totals are the accumulator and add up to the total |
| Dashboard.EjemploMesActual | src/components/Dashboard.tsx:22-38 | With amounts 45000 and 60000 this month and 89000 in another month: total 194000, month total 105000, month count 2 |
| Dashboard.PromedioDiario | src/components/Dashboard.tsx:124 | The daily average times today's day of the month is the month's total; for a non-negative total it lies between 0 and that total |
| Dashboard.Insertar | src/components/Dashboard.tsx:65-66 | Inserting into a list sorted by descending total keeps it sorted and adds exactly that entry |
| Dashboard.InsertarSuma | src/components/Dashboard.tsx:65-66 | Inserting adds the entry's total to the sum of totals |
| Dashboard.CategoriasOrdenadas | src/components/Dashboard.tsx:65-66 | The ranking is sorted by descending total and is a permutation of the categories |
| Dashboard.CategoriasOrdenadasSuma | src/components/Dashboard.tsx:65-66 | Sorting keeps the sum of the category totals |
| Dashboard.InsertarEstable | src/components/Dashboard.tsx:65-66 | Insertion keeps entries with equal totals in their relative order |
| Dashboard.CategoriasOrdenadasEstable | src/components/Dashboard.tsx:65-66 | The sort is stable: for every total, the entries with that total appear in the same order before and after |
| Dashboard.Porcentaje | src/components/Dashboard.tsx:138 | A share is undefined exactly when the overall total is 0; otherwise share × overall total = category total × 100 |
| Dashboard.Porcentajes | src/components/Dashboard.tsx:137-138 | One share per listed category; every share has no number (the NaN or Infinity width) exactly when the overall total is 0, and otherwise share × overall total = the category's total × 100 |
| Dashboard.PorcentajesCuotas | src/components/Dashboard.tsx:137-138 | Each listed share is the share of its own category |
| Dashboard.PorcentajesSuma | src/components/Dashboard.tsx:137-138 | The listed shares add up to the categories' part of the overall total, in percent |
| Dashboard.PorcentajesSuman100 | src/components/Dashboard.tsx:137-138 | For a non-zero overall total, the bars of the ranked categories add up to exactly 100 |
| Dashboard.Recientes | src/components/Dashboard.tsx:181 | The panel shows the first min(5, n) records, unchanged and in list order |
| Dates.ParseFullDate | src/components/Dashboard.tsx:34 | A string that reads as a date has the `YYYY-MM-DD` shape and names an existing day with a year between 0 and 9999 (which day, and the digits, are stated by Dates.FormatParseRoundTrip) |
| Dates.FormatParseRoundTrip | src/components/Dashboard.tsx:34 | A string that reads as a date has digits in its eight other places and is exactly that date written as `YYYY-MM-DD`, so it names that date and no other |
| JsStrings.DigitsValueInjective | src/components/GastoForm.tsx:20 | Two digit strings of the same length with the same value are equal, so a zero-filled numeral of fixed width is determined by its value |
| Dates.FormatFullDate | src/components/GastoForm.tsx:20 | The written date has ten characters with dashes in positions 4 and 7, and reads back as the same date |
| JsStrings.Trim | src/components/GastoForm.tsx:30 | `trim()` is empty exactly when the text is all white space, and otherwise starts and ends with a non-space |
| JsStrings.TrimEsMedio | src/components/GastoForm.tsx:30 | What `trim()` leaves is a piece of the text with nothing but white space before and after it |
| JsStrings.TrimIdempotent | src/components/GastoForm.tsx:46 | Trimming an already trimmed name changes nothing |
| JsStrings.PadStart | src/lib/supabase.ts:71 | `padStart` fills on the left with the pad character up to the width and keeps the text as its suffix |
| JsStrings.IntToString | src/lib/supabase.ts:71-72 | `toString` of an integer (the year and month in the bound strings): the numeral of a non-negative number, or a minus sign before the numeral of its magnitude |
| JsStrings.NatToString | src/lib/supabase.ts:71 | `toString` of a natural gives decimal digits with no leading zero that read back as the number |
| JsStrings.OrElse | src/components/Auth/Login.tsx:32 | The logical or of two strings gives the first unless it is empty, and the second otherwise |
| JsStrings.JsLength | src/components/Auth/Register.tsx:32 | `length` counts UTF-16 code units: one per character plus one more for each character outside the Basic Multilingual Plane, so between one and two per character |
| Resumen.PrimeroDeMes | src/lib/supabase.ts:71-72 | For a four-digit year and a month below 100, the bound string reads back as the first day of that month when the month is 1..12, and names no date otherwise |
| Resumen.LimiteInferior | src/lib/supabase.ts:71 | The lower bound names the first day of the requested month |
| Resumen.LimiteSuperior | src/lib/supabase.ts:72 | The upper bound names the first day of the next month for January to November, and no date at all for December |
| Resumen.LimiteSuperiorDiciembre | src/lib/supabase.ts:72 | For December the upper bound is "<year>-13-01", which names no date |
| Resumen.VentanaDelMes | src/lib/supabase.ts:71-72 | For January to November, the half-open window between the bounds holds exactly the dates of the requested month |
| Resumen.LimiteSuperiorCorregido | src/lib/supabase.ts:72 | The corrected bound names the first day of the following month for every month, rolling December into January, and equals the bound as written for January to November |
| Resumen.VentanaDelMesCorregida | src/lib/supabase.ts:71-72 | With the corrected bound, the window holds exactly the dates of the requested month for all twelve months |
| Resumen.GetResumenMes | src/lib/supabase.ts:67-84 | Fails exactly when the query fails. Otherwise: total is the sum of the returned amounts; count is the number of rows; per-category totals are the accumulator (distinct labels in first-seen order, each the sum of its rows) and add up to the total |
| App.ConNuevo | src/App.tsx:43 | The new record goes first and the previous records follow unchanged |
| App.ConNuevoOrdenado | src/App.tsx:43 | A create keeps a newest-first list newest first exactly when the new record is at least as recent as the one that was first |
| App.SinId | src/App.tsx:48 | A record survives a delete exactly when its id differs from the deleted one (records without an id always survive) |
| App.ConActualizado | src/App.tsx:52-54 | Same length; each record whose id equals the update's id is replaced by the update, every other record is kept |
| App.SinIdConcat | src/App.tsx:48 | Deleting works piecewise, so the survivors keep their relative order |
| App.SinIdAusente | src/App.tsx:48 | Deleting an id no record carries leaves the list unchanged |
| App.SinIdIdempotente | src/App.tsx:47-49 | Deleting the same id twice is deleting it once |
| App.CrearYBorrar | src/App.tsx:42-49 | Deleting a record just created under a fresh id gives back the previous list |
| App.ActualizarYBorrar | src/App.tsx:47-55 | Updating a record and then deleting its id equals deleting it straight away |
| App.ActualizarAusente | src/App.tsx:51-55 | An update whose id no record carries leaves the list unchanged |
| App.ActualizarIdempotente | src/App.tsx:51-55 | Applying the same update twice is applying it once |
| App.TotalConNuevo | src/App.tsx:42-45 | After a create, the header total grows by exactly the new amount |
| App.Conteo | src/App.tsx:64-68 | The add tab has no count badge; the other tabs show the number of records |
| App.AuthenticatedApp.constructor | src/App.tsx:13-16 | No records, loading, no error, dashboard tab |
| App.AuthenticatedApp.LoadGastos | src/App.tsx:27-29 | Loading starts; nothing else changes |
| App.AuthenticatedApp.LoadSettled | src/App.tsx:30-39 | On success: the returned rows (or none for a null result) and no error. On failure: no rows and the load error. Loading ends either way and the tab is kept |
| App.AuthenticatedApp.HandleGastoCreated | src/App.tsx:42-45 | The record goes in front and the list tab is selected |
| App.AuthenticatedApp.HandleGastoDeleted | src/App.tsx:47-49 | The list becomes the filtered list; loading, error and tab are kept |
| App.AuthenticatedApp.HandleGastoUpdated | src/App.tsx:51-55 | The list becomes the updated list; loading, error and tab are kept |
| App.AuthenticatedApp.SelectTab | src/App.tsx:121 | A click on a tab's button makes it the selected tab; nothing else changes |
| App.AuthenticatedApp.Tabs | src/App.tsx:64-68 | Three tabs in display order, each with its count badge |
| FormularioGasto.CategoriasFijas | src/components/GastoForm.tsx:8-16 | Seven distinct category choices, the default ("Alimentación") first |
| FormularioGasto.ValidarGasto | src/components/GastoForm.tsx:30-39 | A blank name or amount gives the "obligatorios" message. Otherwise a NaN or non-positive amount gives the "mayor a 0" message. Otherwise the amount passes and is positive: each case both ways |
| FormularioGasto.EnBlancoAntesQueInvalido | src/components/GastoForm.tsx:30-33 | A blank amount is reported as missing, whatever `parseFloat` makes of it |
| FormularioGasto.Pedido | src/components/GastoForm.tsx:45-51 | The record sent has a trimmed name and description, the parsed amount, and the date and category as entered; no id and no creation time |
| FormularioGasto.PedidoValido | src/components/GastoForm.tsx:30-51 | A record that passed the checks has a non-empty, already trimmed name and a positive amount |
| FormularioGasto.FechaDeHoyEnMes | src/components/GastoForm.tsx:20 | A record with the form's default date counts toward the dashboard's current month |
| FormularioGasto.GastoForm.constructor | src/components/GastoForm.tsx:19-25 | Empty fields, today's date, the default category, not loading, no error |
| FormularioGasto.GastoForm.HandleSubmit | src/components/GastoForm.tsx:27-51 | A failed check shows its message and sends nothing. Otherwise loading starts, the error clears and the trimmed record is sent. The fields are untouched either way |
| FormularioGasto.GastoForm.SubmitSettled | src/components/GastoForm.tsx:53-66 | On success the stored record is handed on and name, amount and description are cleared, with the date reset to today. On failure the fields are kept and the save error is shown. Loading ends and the category is kept |
| ListaGastos.Copia | src/components/GastoList.tsx:38-44 | The edit row copies the record's name, date, amount, category and description |
| ListaGastos.EdicionValida | src/components/GastoList.tsx:53 | An edit passes exactly when the name is present and non-empty and the amount is present, a number and not 0 |
| ListaGastos.CopiaValida | src/components/GastoList.tsx:36-56 | A record can be saved unchanged from its edit row exactly when its name is non-empty and its amount is not 0 |
| ListaGastos.CreadoEditable | src/components/GastoList.tsx:53 | Everything the create form accepts can be saved unchanged from the edit row |
| ListaGastos.EdicionMasPermisiva | src/components/GastoList.tsx:53 | A negative amount, or a name of spaces only, passes the edit check although the create form refuses it |
| ListaGastos.GastoList.constructor | src/components/GastoList.tsx:15-17 | No row loading, none edited, empty edit data |
| ListaGastos.GastoList.HandleDelete | src/components/GastoList.tsx:19-26 | Without confirmation nothing happens and nothing is sent; with it, the row is marked loading and the delete is sent |
| ListaGastos.GastoList.DeleteSettled | src/components/GastoList.tsx:26-33 | On success the id is handed on; on failure nothing is; no row is loading afterwards |
| ListaGastos.GastoList.StartEditing | src/components/GastoList.tsx:36-45 | The record's row becomes the edit row, holding a copy of its fields |
| ListaGastos.GastoList.CancelEditing | src/components/GastoList.tsx:47-50 | No row is edited and the edit data is emptied |
| ListaGastos.GastoList.EditFecha | src/components/GastoList.tsx:133 | Only the date of the edit data changes |
| ListaGastos.GastoList.EditNombre | src/components/GastoList.tsx:141 | Only the name of the edit data changes |
| ListaGastos.GastoList.EditCategoria | src/components/GastoList.tsx:148 | Only the category of the edit data changes |
| ListaGastos.GastoList.EditValor | src/components/GastoList.tsx:165 | Only the amount of the edit data changes, to `parseFloat` of the input |
| ListaGastos.GastoList.SaveEdit | src/components/GastoList.tsx:52-60 | A rejected edit sends nothing and changes nothing; an accepted one marks the row loading and sends the update with the edit data |
| ListaGastos.GastoList.SaveSettled | src/components/GastoList.tsx:60-69 | On success the stored record is handed on and editing ends; on failure the edit row is kept; no row is loading afterwards |
| Acceso.ValidarLogin | src/components/Auth/Login.tsx:21-24 | The message is shown exactly when the e-mail or the password is blank; no message exactly when both are non-blank |
| Acceso.ValidarLoginRecortado | src/components/Auth/Login.tsx:21 | Surrounding spaces do not affect the check |
| Acceso.Login.constructor | src/components/Auth/Login.tsx:11-14 | Empty fields, not loading, no error |
| Acceso.Login.HandleEmailLogin | src/components/Auth/Login.tsx:18-29 | Blank fields show the message and send nothing. Otherwise loading starts, the error clears and `signIn` gets the fields untrimmed |
| Acceso.Login.LoginSettled | src/components/Auth/Login.tsx:29-35 | Once `signIn` resolves: a reported error shows its message, or the fallback when the message is empty, so the error shown is never empty. Without an error the error is kept. Loading ends |
| Registro.ValidarRegistro | src/components/Auth/Register.tsx:22-35 | The first failing check decides the message, each case both ways: any blank field; passwords differ; password shorter than 6 UTF-16 units (untrimmed). Otherwise no message |
| Registro.LongitudAceptada | src/components/Auth/Register.tsx:32 | An accepted password has at least 3 characters (6 code units, each character taking one or two) |
| Registro.RegistroPasaLogin | src/components/Auth/Register.tsx:22-35 | Credentials accepted by sign-up pass the sign-in check |
| Registro.EspaciosNoSonContrasena | src/components/Auth/Register.tsx:22 | A password of spaces is refused as missing, however long it is |
| Registro.Register.constructor | src/components/Auth/Register.tsx:10-15 | Empty fields, not loading, no error, no success |
| Registro.Register.HandleEmailRegister | src/components/Auth/Register.tsx:19-40 | A failed check shows its message and sends nothing. Otherwise loading starts, the error clears and `signUp` gets the fields untrimmed |
| Registro.Register.RegisterSettled | src/components/Auth/Register.tsx:40-48 | Once `signUp` resolves: a reported error shows its message, or the fallback when the message is empty. Without an error the success screen is set. Loading ends |

## Left out

- Rendering: JSX, CSS classes, icons, the loading spinner and the empty-list placeholders.
- Currency and date display: `Intl.NumberFormat('es-CO', …)`, `toLocaleDateString` and `toFixed`. These are locale formatting only.
- The backend (Supabase) and the auth service (`signIn`, `signUp`, `signOut`) are not modelled.
  - Their answers are parameters or outcomes of the `...Settled` methods.
  - `getAll` is assumed to return rows newest first, as its `order('fecha', { ascending: false })` asks. The list stays in that order only until the next create or update: a create puts the new record first whatever its date (`App.ConNuevoOrdenado` states when the order survives), and an update may change a date in place. The "latest five" panel shows the first five records of the list as it stands.
  - How the database compares the "-13-01" string is not modelled.
  - Gastos.MasRecienteTransitivo: the newest-first comparison places records whose `fecha` does not read as a date last. That is a convention of the model: the query asks only for `fecha` descending, and the database's own placement (PostgreSQL puts NULLs first in a descending order) is not modelled.
- `window.confirm` is a boolean parameter. `alert` and `console.error` are not modelled, because they only report.
- Asynchronous interleaving: each handler runs its two halves in order with no other event between them.
- Floating point:
  - Amounts are exact reals, so rounding in sums and averages, `Infinity` and `-0` are not modelled.
  - A share over an overall total of 0 is `None`. That total is reachable with categories listed, because the edit row accepts negative amounts that can cancel out; the program then draws NaN (0/0) or Infinity widths, and the model does not tell the two apart.
  - `parseFloat` is an arbitrary function from the text to a number or NaN. Its lexical rules (leading digits, exponents) are not modelled.
- Dates:
  - `new Date(fecha)` reads only the `YYYY-MM-DD` form; other strings JavaScript would accept count as unreadable.
  - The time zone is not modelled. JavaScript reads a date-only string as UTC midnight, but the month bounds are local midnights, and the upper bound is the start of the month's last day, not its end. West of UTC, "YYYY-MM-01" falls in the evening of the previous month's last day, after that month's upper bound, so the first day of a month counts in no month. East of UTC, the last day of every month falls after the upper bound and drops out. The model compares calendar days, so every day of the month counts.
  - The dashboard reads the clock twice: `new Date()` inside the memo (recomputed only when the list changes) gives the month, and `new Date().getDate()` at render time gives the day count of the daily average. The model takes one "today" for both.
  - Years outside 0..9999 are not modelled.
- `new Date().toISOString().split('T')[0]` (the form's default date) is `FormatFullDate(hoy)`, with "today" as a parameter; the UTC-versus-local day is again not modelled.
- Acceso.Login.LoginSettled: takes only a resolved `{ error }` answer. The program awaits `signIn` with no `try`/`finally` (src/components/Auth/Login.tsx:29), so if the call rejects, loading stays true and no error is shown; the model assumes the call resolves.
- Registro.Register.RegisterSettled: the same for `signUp` (src/components/Auth/Register.tsx:40): a rejected call leaves loading true and shows no error, which the model does not capture.
- Categorias.PorCategoriaLookup: the accumulator is a plain object, so a label naming an `Object.prototype` member ("constructor", "toString", "valueOf", "hasOwnProperty", …) starts from that inherited function instead of 0 and becomes a string, and a "__proto__" label is dropped. The model sums every label from 0. Both forms offer only seven fixed labels, none of them such a name.
- Categorias.PorCategoriaSuma: for the same labels, the category totals need not add up to the grand total in the program; the model does not capture that.
- Resumen.GetResumenMes: its `porCategoria` accumulator has the same inherited-key behaviour, which the model does not capture.
- Dashboard.CategoriasOrdenadas: JavaScript's `Object.entries` lists integer-like keys (such as a category named "2024") before the others, and the key `__proto__` does not become an own property. The model keeps plain insertion order.
- Dashboard.CalcularEstadisticas: `Math.max`/`Math.min` of NaN amounts are not modelled, because amounts are reals.
- The onChange setters of the form and login fields (`setNombre`, `setEmail`, …) are plain field assignments and are not modelled as methods. The edit-row setters of the table are modelled.
- The footer "Último registro" line, the `AuthComponent` toggle between the two forms, the sign-up success screen's contents and `handleSignOut` are not modelled. They hold no logic beyond display and a foreign call.
- `gastosService.getAll`, `create`, `update` and `delete` are single foreign calls that throw on error. They are modelled as the outcomes their callers receive.

## Findings

| source | as written | input that shows it | evidently intended | confidence | as-written member | corrected member |
|---|---|---|---|---|---|---|
| src/lib/supabase.ts:72 | The upper bound is built from `month + 1` with no year rollover | `getResumenMes(2024, 12)` sends `lt('fecha', '2024-13-01')`, which names no date, so the December window is not the month of December | The first day of the following month, "2025-01-01" | not executed; high for the string, the backend's reaction (an error or a text comparison) is not modelled | Resumen.LimiteSuperiorDiciembre | Resumen.VentanaDelMesCorregida |

`Resumen.GetResumenMes` sends the bound as written, so that it stays faithful to the program. `Resumen.LimiteSuperiorCorregido` is the bound as intended, and `Resumen.VentanaDelMesCorregida` proves that its window is exactly the requested month for all twelve months.
