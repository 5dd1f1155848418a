# Debt-collection CRM rules, modelled in Dafny

This project models the rule-bearing core of a Django debt-collection CRM
("recobrame"): the weekly Friday-to-Thursday accounting periods, the case
(`Expediente`) record with its soft delete and derived amounts, the CRM
settings created for each new client company, the case form's date rule
(server and browser), the browser's payment-amount gate, the follow-up tick
workflow and its cookie reader, the cases-list filter rebuild, the
commission-scheme form script, and the dashboard and company views.

Conventions used throughout:

- Money is integer cents (every amount in the source is a two-decimal
  `DecimalField`); percentages are hundredths of a percent.
- Dates are Python proleptic ordinals (`date.toordinal()`: 1 is 0001-01-01,
  `Calendar.MaxOrdinal` is 9999-12-31); instants are abstract integers.
- "Today" and "now" (`timezone.localdate()`, `timezone.now()`) are parameters.
- Strings are `seq<char>`. Python's `str.strip()` and JavaScript's `trim()`
  each remove their own whitespace set (`Text.IsPythonSpace`,
  `Text.IsJsSpace`).
- Database tables are in-memory `map`s or sequences of objects. Rows the
  source updates in place (`Expediente`, `Empresa`) are classes. Rows it only
  reads or creates (`Periodo`, `CRMConfig`, `RegistroPago`,
  `EsquemaComision`) are datatypes.
- Browser scripts act on small classes standing for the page elements they
  touch (`Dom.Element`, `FollowUp.Checkbox`, `SchemeForm.Row`). A request the
  page would send is recorded, not performed.

Modules, one per source file (plus shared helpers):

| module | file | models |
|---|---|---|
| `Wrappers`, `Text`, `Calendar`, `Dom` | — | Option; split/trim/search/decimal text helpers; Python's proleptic calendar and `%Y-%m-%d`; page elements |
| `Periods` | core/models.py | `TimeStampedModel` defaults, the week computation, `get_periodo_actual`, `Periodo.__str__` |
| `Companies` | empresas/models.py | `OPCIONES_IMPAGOS`, case type, mode, commission scheme and band rows, `Empresa` |
| `Cases` | crm/models.py | status and cause enums, `CRMConfig`, `RegistroPago`, `Expediente` |
| `CrmSignals` | crm/signals.py | `gestionar_crm_empresa` |
| `CaseForm` | crm/forms.py | `ExpedienteForm.clean` and `__init__` |
| `DateCheck` | static/js/CRM/validarFechas.js | `validarFechasExpediente` |
| `PaymentCheck` | static/js/CRM/validarPago.js | `validarPagoLocal` |
| `FollowUp` | static/js/CRM/seguimiento.js | `getCookie`, `manejarTick`, the result select handler, `confirmarEstadoTick`, `cancelarEstadoTick` |
| `CrmList` | static/js/CRM/crm_list.js | company search box, `toggleFiltros`, `aplicarFiltrosJS` |
| `SchemeForm` | static/js/empresas/scripts_esquema.js | `toggleCaso`, `toggleModalidad`, band rows, submit check |
| `CrmViews` | crm/views.py | `dashboard_crm`, `lista_crm` |
| `CompanyViews` | empresas/views.py | `lista_empresas`, `desactivar_empresa`, `reactivar_empresa` |

`ExpedienteForm.clean` reports the date error with Django's `add_error`,
which also removes `fecha_impago` from `cleaned_data`, so the dictionary
`clean` returns no longer holds that field. `CaseForm.AddError` models this.

## Model

| member | source | states |
|---|---|---|
| Periods.NewPeriodo | core/models.py:14-28 | a created row takes created_at and updated_at from their own clock readings and is active, with the given period fields |
| Periods.DaysBack | core/models.py:41-46 | the days stepped back are in 0..6, land on a Friday, and are 0 exactly when today is a Friday |
| Periods.DaysBackExamples | core/models.py:43-46 | a Saturday steps back 1 day, a Thursday 6, a Friday 0 |
| Periods.CurrentWeek | core/models.py:41-48 | the week's Friday and Thursday, or the OverflowError; its properties are stated by CurrentWeekBrackets and CurrentWeekOverflow |
| Periods.WeekCode | core/models.py:51 | the SEM- code of a week start; WeekCodeInjective and SameWeekSameCode state that it identifies the week |
| Periods.CurrentWeekBrackets | core/models.py:46-48 | the week starts on a Friday on or before today and ends 6 days later on a Thursday on or after today |
| Periods.CurrentWeekOverflow | core/models.py:47-48 | the date arithmetic overflows Python's date range exactly for the first four days of year 1 and for 9999-12-31 |
| Periods.SameStart | core/models.py:41-48 | a day lies in the week starting at another day's Friday exactly when both days have the same week start |
| Periods.WeekCodeInjective | core/models.py:51 | two week starts with the same SEM- code are the same date |
| Periods.SameWeekSameCode | core/models.py:51 | two days get the same code exactly when the second lies in the first one's Friday-to-Thursday week |
| Calendar.IsoRoundTrip | core/models.py:51 | the `%Y-%m-%d` text of a date reads back to that date, so distinct start dates give distinct codes |
| Periods.LookupOrCreate | core/models.py:53-62 | `get_or_create` on the week's code; its effect on the table is stated by LookupOrCreateEffect and SecondCallSameWeek |
| Periods.LookupOrCreateEffect | core/models.py:53-62 | an existing period comes back unchanged (even if closed) and the table stays the same; otherwise exactly one weekly, open period with the week's dates is added under its code |
| Periods.SecondCallSameWeek | core/models.py:53-62 | a second call in the same week returns the first call's period and leaves the table as the first call left it |
| Periods.PeriodoManager.GetPeriodoActual | core/models.py:34-62 | the method's answer and new table are those of the lookup-or-create on today's week; the code stays unique and the table grows by at most one |
| Periods.PeriodoStr | core/models.py:83-85 | the text of a period begins with its code |
| Periods.PeriodoStrState | core/models.py:84-85 | the text ends with [CERRADO] exactly for a closed period and with [ACTIVO] exactly for an open one |
| Companies.OpcionCodeInjective | empresas/models.py:7-14 | distinct payment products are stored under distinct codes |
| Companies.Empresa.constructor | empresas/models.py:16-38 | a new company is active, has no leaving date and was registered today |
| Cases.EstadoCode | crm/models.py:16-22 | every status is stored as one of the five ESTADOS_GESTION codes |
| Cases.EstadoFromCode | crm/models.py:16-22 | a stored text reads back as a status exactly when it is one of the five codes, and reading back a status's code gives the status |
| Cases.CausaCode | crm/models.py:24-38 | every cause is stored as one of the thirteen CAUSAS_IMPAGO codes |
| Cases.CausaFromCode | crm/models.py:24-38 | a stored text reads back as a cause exactly when it is one of the thirteen codes, and round-trips |
| Cases.Expediente.constructor | crm/models.py:41-88 | a new case is ACTIVO, has nothing recovered, one instalment, is active with no deletion date, was received today, and has all ten ticks and four bureau flags off |
| Cases.Expediente.EliminarLogico | crm/models.py:90-93 | the case becomes inactive with the current instant as deletion date; its frame allows no other field to change |
| Cases.Expediente.Restaurar | crm/models.py:95-98 | the case becomes active with no deletion date; no other field changes |
| Cases.Expediente.Consistent | crm/models.py:90-98 | a case is active exactly when it has no deletion instant; the constructor, EliminarLogico and Restaurar all leave it so |
| Cases.SoftDeleteRoundTrip | crm/models.py:90-98 | trashing an active, consistent case and restoring it gives back exactly its state before |
| Cases.EliminarTwice | crm/models.py:90-93 | a second deletion at the same instant leaves the state the first one left |
| Cases.RestaurarTwice | crm/models.py:95-98 | a second restore leaves the state the first one left |
| Cases.Expediente.TiempoEnImpago | crm/models.py:103-106 | the signed day count since the default date; stated by TiempoEnImpagoCounts |
| Cases.Expediente.DeudaPendiente | crm/models.py:108-110 | original amount less recovered, unclamped; stated by DeudaPendienteBalance |
| Cases.TiempoEnImpagoCounts | crm/models.py:103-106 | the days in default are 0 on the default day, negative before it, and grow by one per day |
| Cases.DeudaPendienteBalance | crm/models.py:108-110 | outstanding debt plus recovered equals the original amount, with no clamping: it is negative exactly when more was recovered than owed |
| CrmSignals.Metodos | crm/signals.py:11 | one entry per comma-separated piece, in order, each the piece with Python whitespace stripped from both ends |
| CrmSignals.MetodosConcat | crm/signals.py:11 | the entries of two lists joined by a comma are the entries of each, in order |
| CrmSignals.TieneCedidos | crm/signals.py:11-14 | membership of SEQURA_MANUAL in the stripped list; characterised by TieneCedidosIff |
| CrmSignals.TieneCedidosIff | crm/signals.py:11-14 | tiene_cedidos holds exactly when some comma-separated piece strips to SEQURA_MANUAL |
| CrmSignals.TieneCedidosAppend | crm/signals.py:11-14 | adding pieces in front keeps a SEQURA_MANUAL entry |
| CrmSignals.TieneCedidosSwap | crm/signals.py:11-14 | the order of the pieces does not matter |
| CrmSignals.TieneCedidosPadded | crm/signals.py:11-14 | whitespace around SEQURA_MANUAL does not matter |
| CrmSignals.TieneCedidosEmpty | crm/signals.py:11-14 | an empty product list gives False |
| CrmSignals.TieneCedidosLongerToken | crm/signals.py:11-14 | a piece that merely contains the code (SEQURA_MANUAL_X) does not count |
| CrmSignals.CrmConfigTable.GestionarCrmEmpresa | crm/signals.py:7-19 | on creation exactly one config linked to the company is added, with tiene_cedidos from its product list; a second config for the same company is an integrity error; a later save changes nothing |
| CaseForm.GetDate | crm/forms.py:38-39 | a date is read only when the field is present and holds a date |
| CaseForm.AddError | crm/forms.py:44 | the message is appended to the field's errors, other fields' errors are untouched, and the field leaves cleaned_data |
| CaseForm.Clean | crm/forms.py:35-46 | clean never adds or alters cleaned data and leaves every field's errors other than fecha_impago as they were; the date rule itself is CleanDateRule |
| CaseForm.CleanDateRule | crm/forms.py:35-46 | an error is added, to fecha_impago only, exactly when both dates are present and the purchase is strictly later; otherwise the form is unchanged |
| CaseForm.CleanAccepts | crm/forms.py:41-42 | same-day dates and a missing date add no error |
| CaseForm.Distinct | crm/forms.py:29 | the values of the input, each once |
| CaseForm.CompanyCodes | crm/forms.py:29 | the product codes of exactly the company's scheme rows |
| CaseForm.TipoProductoChoices | crm/forms.py:28-33 | the choices are the company's scheme product types without duplicates, each with value equal to its label |
| CaseForm.MetaFields | crm/forms.py:8-19 | the declared fields are exactly the ten of Meta.fields |
| CaseForm.StyleWidgets | crm/forms.py:25-26 | every listed field's widget gets class form-control; the field set and every other field are unchanged |
| CaseForm.ExpedienteForm.constructor | crm/forms.py:21-33 | every field's widget gets class form-control; with a company, tipo_producto becomes a form-select choice field over that company's product types |
| DateCheck.ValidarFechasExpediente | static/js/CRM/validarFechas.js:4-30 | the default-date input keeps its value and is present exactly when it was |
| DateCheck.ValidarFechasRule | static/js/CRM/validarFechas.js:9-29 | submission is blocked exactly when both inputs exist, are filled and the purchase is strictly later; the default-date input is marked invalid exactly on a block |
| DateCheck.ValidarFechasAccepts | static/js/CRM/validarFechas.js:9-14 | equal dates and a missing or empty input pass |
| DateCheck.BrowserMatchesServer | static/js/CRM/validarFechas.js:13-14 | the browser blocks exactly the date pairs the server-side rule of crm/forms.py rejects |
| DateCheck.BrowserMatchesClean | static/js/CRM/validarFechas.js:13-22 | the browser lets the form through exactly when the server's `clean` leaves the form without error |
| PaymentCheck.ValidarPagoLocal | static/js/CRM/validarPago.js:5-48 | without the amount input or error area the answer is true and nothing is touched; the answer is true exactly when the submission was not stopped |
| PaymentCheck.AcceptedIff | static/js/CRM/validarPago.js:19-47 | in exact cents arithmetic, a numeric amount is accepted exactly when 0 < amount <= debt + 1 cent |
| PaymentCheck.MarginBoundary | static/js/CRM/validarPago.js:19 | in exact cents arithmetic, exactly one cent over the debt passes and two cents over do not |
| PaymentCheck.NoticeShown | static/js/CRM/validarPago.js:14-45 | marks are reset first; an overpayment shows its notice and marks the input; a non-positive amount shows its notice without a mark only if it passed the overpayment check; acceptance leaves both cleared |
| PaymentCheck.NotANumberAccepted | static/js/CRM/validarPago.js:11-47 | a non-numeric entry passes both comparisons and is accepted |
| FollowUp.Substring | static/js/CRM/seguimiento.js:140 | `substring(0, n)` is the first n characters, or all of a shorter string |
| FollowUp.CookieValue | static/js/CRM/seguimiento.js:134-147 | the value getCookie answers; FirstMatchAppend, CookieValueJoin, CookiePair and LongerNameNoMatch state its behaviour |
| FollowUp.GetCookie | static/js/CRM/seguimiento.js:134-147 | the loop answers the decoded value of the first trimmed piece starting with name=, or null |
| FollowUp.FirstMatchAppend | static/js/CRM/seguimiento.js:138-143 | the first piece naming the cookie wins wherever the piece list is cut |
| FollowUp.EmptyCookie | static/js/CRM/seguimiento.js:136-137 | an empty cookie string names no cookie |
| FollowUp.CookieValueJoin | static/js/CRM/seguimiento.js:137-143 | in a cookie string a;b, a's answer wins, and b is consulted only when a holds no such cookie |
| FollowUp.CookiePair | static/js/CRM/seguimiento.js:139-141 | a single name=value pair with any surrounding whitespace yields the decoded value in full, including further = characters |
| FollowUp.LongerNameNoMatch | static/js/CRM/seguimiento.js:140 | a cookie whose name only begins with the wanted name (csrftokenX=) does not match |
| FollowUp.ConfirmDecision | static/js/CRM/seguimiento.js:53-61 | the tick is sent exactly when a result is chosen and a PAGARA result has a promise date; no result gives the choose-a-result warning |
| FollowUp.TickPage.constructor | static/js/CRM/seguimiento.js:6-8 | no tick, case or action is remembered yet |
| FollowUp.TickPage.ManejarTick | static/js/CRM/seguimiento.js:11-28 | a tick remembers checkbox, case and action, clears the result select and hides and empties the promise date, and opens the modal; an untick sends valor false with null result and date and leaves the remembered variables alone |
| FollowUp.TickPage.SelectEstado | static/js/CRM/seguimiento.js:34-41 | PAGARA shows the promise date; any other result hides and clears it |
| FollowUp.TickPage.ConfirmarEstadoTick | static/js/CRM/seguimiento.js:48-68 | a refusal only warns; an acceptance closes the modal and sends valor true with the chosen result and date for the remembered case and action, or throws before sending when no modal was ever created |
| FollowUp.TickPage.CancelarEstadoTick | static/js/CRM/seguimiento.js:70-72 | the remembered checkbox, if any, is unticked and nothing else changes |
| FollowUp.SentDateMatchesResult | static/js/CRM/seguimiento.js:36-61 | a sent result other than PAGARA carries an empty date and a sent PAGARA carries a date |
| CrmList.ItemDisplay | static/js/CRM/crm_list.js:10 | an entry is shown exactly when its text contains the search, ignoring case |
| CrmList.FiltrarEmpresas | static/js/CRM/crm_list.js:7-12 | after a keystroke every company entry is shown or hidden by that test |
| CrmList.EmptySearchShowsAll | static/js/CRM/crm_list.js:8-10 | an empty search shows every entry |
| CrmList.ToggleFiltros | static/js/CRM/crm_list.js:17-39 | a hidden (none or unset) filter row becomes table-row with the apply button shown and the filter button hidden, and the reverse for a shown row; without a row nothing changes |
| CrmList.ToggleTwice | static/js/CRM/crm_list.js:28-38 | two toggles restore whether the row is hidden, with the buttons following it |
| CrmList.TabName | static/js/CRM/crm_list.js:48-53 | cedidos exactly when the pane id contains cedido; ha-pagado exactly when it does not but contains pagado; impagos otherwise |
| CrmList.Delete | static/js/CRM/crm_list.js:65 | `params.delete(k)` leaves no pair with key k and every other key's pairs as they were |
| CrmList.ReplaceFirst | static/js/CRM/crm_list.js:70 | when k is present, `set` leaves k with the single new value and other keys untouched |
| CrmList.Set | static/js/CRM/crm_list.js:70 | `params.set(k, v)` leaves k with the single value v, other keys untouched, and appends when k was absent |
| CrmList.ManagedKeys | static/js/CRM/crm_list.js:59-64 | the collected keys are all managed, and every managed key of the query is among them |
| CrmList.Without | static/js/CRM/crm_list.js:65 | deleting a list of keys leaves exactly the pairs whose key is not listed |
| CrmList.Unmanaged | static/js/CRM/crm_list.js:59-65 | the cleared query keeps exactly the pairs whose key is not q, tab, page or f_-prefixed |
| CrmList.DeleteWithout | static/js/CRM/crm_list.js:65 | deleting one more key is filtering by one more key |
| CrmList.WithoutManaged | static/js/CRM/crm_list.js:59-65 | deleting the collected keys removes exactly the managed pairs |
| CrmList.CollectManagedKeys | static/js/CRM/crm_list.js:59-64 | the first loop collects the managed keys in the order the query lists them |
| CrmList.DeleteKeys | static/js/CRM/crm_list.js:65 | the second loop deletes every collected key |
| CrmList.FilterValue | static/js/CRM/crm_list.js:76-80 | a checkbox contributes 'true' exactly when ticked; another input contributes its trimmed value exactly when that is non-empty |
| CrmList.ApplyFilters | static/js/CRM/crm_list.js:74-81 | each key ends with the value of its last contributing filter, or keeps its pairs when no filter contributes it |
| CrmList.LastSetUnique | static/js/CRM/crm_list.js:74-81 | a filter whose name no other filter shares decides that key alone |
| CrmList.ApplyFilterInputs | static/js/CRM/crm_list.js:74-81 | the filter loop applies the filters in order |
| CrmList.AplicarFiltrosJS | static/js/CRM/crm_list.js:42-88 | with no active pane nothing happens; otherwise the page goes to the query rebuilt from the current one |
| CrmList.Rebuild | static/js/CRM/crm_list.js:55-84 | the rebuilt query; RebuildTab, RebuildKeeps, RebuildClears, RebuildSearch and RebuildFilter state what it holds |
| CrmList.RebuildTab | static/js/CRM/crm_list.js:84 | the new query holds tab exactly once, set to the computed tab name |
| CrmList.RebuildKeeps | static/js/CRM/crm_list.js:59-65 | a parameter that is not managed and that no filter sets is carried over unchanged |
| CrmList.RebuildClears | static/js/CRM/crm_list.js:59-65 | an old page number or f_ filter that no current filter sets is gone |
| CrmList.RebuildSearch | static/js/CRM/crm_list.js:68-71 | q is the trimmed search text, present only when that text is non-empty |
| CrmList.RebuildFilter | static/js/CRM/crm_list.js:74-81 | an f_ filter with its own name sets exactly its contribution and nothing when it contributes nothing |
| SchemeForm.ToggleCaso | static/js/empresas/scripts_esquema.js:32-38 | CEDIDO hides the product selector and any other value shows it; CEDIDO with no selector on the page throws |
| SchemeForm.ToggleModalidad | static/js/empresas/scripts_esquema.js:40-48 | the tiers section shows and the fixed section hides exactly for TRAMOS, so exactly one is visible |
| SchemeForm.ReplaceAllRemoves | static/js/empresas/scripts_esquema.js:64 | replacing every placeholder by text that shares none of its characters leaves no placeholder |
| SchemeForm.DecimalAvoidsPlaceholder | static/js/empresas/scripts_esquema.js:63-64 | a row index in decimal shares no character with __prefix__ |
| SchemeForm.TramoFormset.AddRow | static/js/empresas/scripts_esquema.js:62-67 | the new row is the template with every __prefix__ replaced by the current TOTAL_FORMS, appended blank, and TOTAL_FORMS goes up by exactly one |
| SchemeForm.TramoFormset.DeleteRow | static/js/empresas/scripts_esquema.js:69-79 | a row with a DELETE checkbox is ticked and hidden but stays; its minimum and percentage are kept; a row without one is removed; TOTAL_FORMS is unchanged and deleting never makes the tiers complete |
| SchemeForm.TramoFormset.ValidarEnvio | static/js/empresas/scripts_esquema.js:84-105 | FIJO blocks exactly on a blank fixed percentage; TRAMOS blocks exactly when no visible row has both minimum and percentage non-blank; other modes never block |
| CrmViews.FindEmpresa | crm/views.py:6 | the company with that id, or not found exactly when no company has it |
| CrmViews.TabCases | crm/views.py:9-16 | a tab lists exactly the company's cases that pass its filter |
| CrmViews.TabsPartition | crm/views.py:13-16 | the three case tabs are disjoint; a company case is in one exactly when it is trashed or its current amount is non-negative, so an active case with a negative amount is in none |
| CrmViews.CompanyPayments | crm/views.py:15 | exactly the payments on the company's cases, trashed ones included, each as often as in the table |
| CrmViews.Insert | crm/views.py:15 | inserting a payment adds exactly that payment, which lands in front or behind the old head |
| CrmViews.InsertNewestFirst | crm/views.py:15 | inserting a payment into a latest-first list keeps it latest-first |
| CrmViews.SortNewestFirst | crm/views.py:15 | the same payments, latest fecha_pago first |
| CrmViews.DashboardCrm | crm/views.py:5-19 | a missing or inactive company is a 404; otherwise the dashboard is for that active company, its three lists are the company's tabs and its payment log is the company's payments latest first |
| CrmViews.RegRecobroContents | crm/views.py:15 | the payment log holds every payment on the company's cases, latest first |
| CrmViews.ListaCrm | crm/views.py:21-23 | exactly the active companies |
| CompanyViews.Listed | empresas/views.py:18-27 | a list holds exactly the companies with its status that the search keeps |
| CompanyViews.ListaEmpresas | empresas/views.py:10-33 | the echoed search is the query parameter or the empty string |
| CompanyViews.ListaEmpresasPartition | empresas/views.py:18-27 | the active and inactive lists partition the companies the search keeps, with one test for both; without a search every company is listed |
| CompanyViews.SearchIgnoresCase | empresas/views.py:23-25 | the search ignores case |
| CompanyViews.ListaCrmIsActiveList | empresas/views.py:18 | the CRM company list equals the unfiltered active company list |
| CompanyViews.DesactivarEmpresa | empresas/views.py:73-81 | an unknown id is a 404; a POST marks the company inactive with today as leaving date; another method changes nothing; no other company or field changes |
| CompanyViews.ReactivarEmpresa | empresas/views.py:84-91 | a POST marks the company active and clears its leaving date; otherwise as above |
| CompanyViews.DeactivateThenReactivate | empresas/views.py:73-89 | deactivating then reactivating leaves the company active with no leaving date, every other field as it was, and listed among the active companies |

## Left out

- Persistence: `save()`, query sets and file uploads are in-memory maps and sequences. Table order stands for the databases' unspecified order.
- CrmViews.SortNewestFirst: payments with the same `fecha_pago` keep no particular order. The database does not fix one either.
- CrmViews.TabCases, CompanyViews.Listed, CrmViews.ListaCrm: the contracts state membership. Table order is kept by the definitions but not stated.
- CrmList.Delete, CrmList.Set: the contracts state each key's pairs. The relative order of pairs with different keys is kept by the definitions but not stated. Serialising the query (`params.toString()` with its percent-encoding) is left out.
- CrmList.FiltrarEmpresas, CompanyViews.Matches: case folding is ASCII-only. JavaScript's `toLowerCase` and the database collation behind `icontains` fold more characters.
- FollowUp.GetCookie: `decodeURIComponent` is a function parameter. Its URIError on malformed escapes (section 2.1 of RFC 3986) is not modelled.
- PaymentCheck.AcceptedIff: the one-cent margin is exact in the model. The source adds 0.01 to the debt in floating point, and the sum can land just below the next cent (0.06 + 0.01 is 0.06999999999999999), so on such debts the source rejects an amount exactly one cent over.
- PaymentCheck.MarginBoundary: "one cent over passes" holds in exact cents arithmetic only; for debts such as 0.06 or 2.01 the source's floating-point sum rejects the amount one cent over. Two cents over is rejected in both.
- PaymentCheck.ValidarPagoLocal: `parseFloat` reads a numeric prefix and compares in floating point. The model takes the parsed amount in whole cents, so sub-cent amounts and rounding are not represented. The non-numeric (NaN) case is kept.
- SchemeForm.TramoFormset.AddRow: `TOTAL_FORMS` is a natural number. A non-numeric counter (`parseInt` giving NaN) is not represented.
- SchemeForm.TramoFormset.ValidarEnvio: the mode select, the fixed-percentage input and the band inputs are taken as present. The page renders them.
- Periods: `strftime('%Y')` pads years below 1000 differently on some C libraries. The model always writes four digits.
- Cases.Expediente.TiempoEnImpago, CompanyViews.DesactivarEmpresa: today is a parameter. In the source both take the date of `timezone.now()`, a UTC date (crm/models.py:105, empresas/views.py:78), while `get_periodo_actual` uses `timezone.localdate()`; which clock and time zone supply today is not modelled.
- The follow-up requests (`fetch`), the page updates after their answers, toasts, popovers, modals beyond their shown flag, comment and agent updates, autocompletion and document deletion are not part of this model.
- Accrual, payment application, recovered-amount totals and commission computation from schemes and bands have no implementation in the source. They are not modelled. The company listing aggregates are constant placeholders there.
- `Empresa`'s contact, banking, note and contract-file fields are not represented; no modelled operation reads or writes them.
- empresas/forms.py, the create/edit/detail company views, URL routing, admin registration, authentication (`login_required`) and flash messages carry no modelled rule.
