# Padel club booking client — a verified model

This project models the client-side logic of a React booking application for a padel club,
together with proofs about that model. Players use the application to sign in, book
90-minute court slots, manage weekly recurring bookings and see or cancel their own bookings.
Administrators also manage courts, users and every booking of a court and day. The backend
(conflict checks, recurring expansion, role enforcement) is a separate service. Here it shows
up only as the requests the client builds and the success-or-failure replies it receives.

The model follows the program's structure: one module per page, context or service, plus a
few shared modules.

- `Js` — JavaScript values and truthiness, object spread, ASCII `toLowerCase`, `includes`,
  `parseInt` and `String(n)`.
- `Clock` — minutes of the day and the zero-padded `HH:mm` text.
- `Calendar` — proleptic Gregorian dates, the ISO 8601 extended date text `YYYY-MM-DD`
  (section 5.2.1.1 of ISO 8601:2004), `addDays`, and the weekday in `getDay` numbering
  (0 = Sunday).
- `Seqs` — `filter`, order-preserving subsequences, and the stable sort.
- `Api` — `fetchWithAuth` and the endpoint and body builders of the service layer.
- `Reservations` — booking records and the list pipelines: confirmed filter, chronological
  order, removal by id, holder search.
- `Slots` — the daily grid of ten 90-minute slots and its occupancy.
- `ReservasPage`, `ReservasViejo`, `Recurrentes`, `MisReservas`, `AdminReservas`, `AdminCanchas`,
  `AdminUsuarios`, `Register`, `Login`, `Dashboard` — the pages.
- `Auth`, `AuthViejo` — the two session providers.
- `Layout`, `Routes` — the navigation frame and the route table with its guards.

**How the model is built**
- React state is a `class` whose fields are the `useState` variables, and each handler is a
  method.
- A handler that awaits a service call is split at the `await`:
  - a `Start…` method returns the request it issues;
  - a `Finish…` method takes the reply as an input `Api.Fetched<T>` (`Ok(data)` or
    `Err(message)`).
- Toasts are returned as `error` out-parameters or not modelled.
- Navigation is a `navigatedTo` or `pathname` field.
- `localStorage` is a map field of the provider.
- `undefined` and a missing property are modelled as `Null`.
- Clock readings (`new Date()`, `Date.now()`) and `Math.random()` are parameters.

**Behaviour of the code worth noting.**
- The services talk to the hosted address `https://padel.srv805858.hstgr.cloud`. The session
  context uses its own `http://localhost:3000`. Both constants are kept (`Api.ApiUrl`,
  `Auth.LocalApiUrl`).
- The session context's `fetchWithAuth` always sends `Bearer ` plus the token text, even with
  no token (`Bearer null`).
- The service layer's `fetchWithAuth` adds the credential only for a truthy token.
- `Register` sends `confirmPassword` to the backend as part of the form.
- `AdminCanchas`' delete button is commented out in the page. The handler behind it is modelled
  all the same.

## Model

| member | source | states |
|---|---|---|
| Js.Spread | src/services/api.service.js:11-18 | object spread: the keys are the union, the right operand's values win, the left operand's other values are kept |
| Js.ToLower | src/pages/AdminReservas.jsx:134-137 | lowercasing keeps the length and maps each character on its own (ASCII letters) |
| Js.IncludesIff | src/pages/AdminReservas.jsx:138 | `includes` holds exactly when the needle occurs at some position |
| Js.ParseInt | src/pages/Reservas.jsx:120 | radix-less `parseInt` on decimal text (no leading white space, no `0x` prefix): yields a number exactly when the text starts with a digit, or with a sign followed by a digit |
| Js.ParseIntToString | src/pages/ReservasRecurrentes.jsx:131-133 | `parseInt(String(n)) == n` for every integer |
| Clock.Pad2 | src/pages/Reservas.jsx:69-70 | two digits whose value is the number |
| Clock.FormatHHMM | src/pages/Reservas.jsx:69-70 | `HH:mm` text is five characters with the colon in the middle |
| Clock.ParseFormat | src/pages/Reservas.jsx:66-70 | reading back a formatted minute of the day gives that minute |
| Clock.FormatParse | src/pages/ReservasRecurrentes.jsx:110-116 | formatting a parsed `HH:mm` text gives the text back |
| Clock.FormatIsClockText | src/pages/ReservasRecurrentes.jsx:111 | the hour and minute fields of a formatted time are the minute's quotient and remainder by 60 |
| Clock.FormatInjective | src/pages/Reservas.jsx:69-74 | different minutes have different texts, so start times identify slots |
| Calendar.Weekday | src/pages/ReservasRecurrentes.jsx:131-132 | `getDay` is in 0..6 |
| Calendar.WeekdayAnchors | src/pages/ReservasRecurrentes.jsx:131-132 | 1970-01-01 is a Thursday (4) and 2000-01-01 a Saturday (6) |
| Calendar.NextDayWeekday | src/pages/ReservasRecurrentes.jsx:131-132 | the weekday of the next day is one more, modulo 7 |
| Calendar.NextDayNumber | src/pages/AdminReservas.jsx:129 | the next calendar day's number is one more |
| Calendar.AddDays | src/pages/AdminReservas.jsx:129 | `addDays` returns a valid day, which `Calendar.AddDaysNumber` places `n` days later |
| Calendar.AddDaysNumber | src/pages/AdminReservas.jsx:129 | `addDays(d, n)` is `n` days after `d` |
| Calendar.NextDays | src/pages/AdminReservas.jsx:129 | the seven day buttons, stated by `Calendar.NextDaysConsecutive` |
| Calendar.NextDaysConsecutive | src/pages/AdminReservas.jsx:129 | `nextDays` is seven valid, consecutive days starting today |
| Calendar.DayNumberOrder | src/pages/MisReservas.jsx:39-43 | day numbers order dates by year, month, day, and are injective |
| Calendar.ParseIso | src/pages/ReservasRecurrentes.jsx:131 | a parsed date is a valid calendar day |
| Calendar.ParseFormatIso | src/pages/Reservas.jsx:121 | reading back the `yyyy-MM-dd` text of a date gives the date |
| Calendar.FormatParseIso | src/pages/ReservasRecurrentes.jsx:131 | a text that parses is the `yyyy-MM-dd` text of its date |
| Seqs.Filter | src/pages/MisReservas.jsx:38 | a filter result is no longer than its input, and every kept element passes |
| Seqs.FilterCount | src/pages/MisReservas.jsx:38 | a filter keeps each passing element as often as it occurs, and drops the rest |
| Seqs.FilterIsSubsequence | src/pages/AdminReservas.jsx:132-140 | a filter result is an order-preserving subsequence of its input |
| Seqs.FilterKeepsAll | src/pages/AdminReservas.jsx:133 | a filter whose test always passes returns its input |
| Seqs.FilterDisjoint | src/pages/AdminUsuarios.jsx:172-209 | filters with disjoint tests together keep at most the input's length |
| Seqs.FilterFilter | src/pages/AdminReservas.jsx:132-140 | filtering twice is filtering once by both tests |
| Seqs.FilterSorted | src/pages/MisReservas.jsx:64 | filtering a sorted list leaves it sorted |
| Seqs.SortBy | src/pages/MisReservas.jsx:39-43 | the stable sort by a numeric key: sorted and a permutation by `Seqs.SortByFacts`, stable by `Seqs.SortStable` |
| Seqs.SortByFacts | src/pages/MisReservas.jsx:39-43 | the sort returns a sorted permutation of its input |
| Seqs.InsertSorted | src/pages/MisReservas.jsx:39-43 | inserting into a sorted list keeps it sorted |
| Seqs.InsertFilterKey | src/pages/MisReservas.jsx:39-43 | among the elements of one key an inserted element comes first and the others keep their order |
| Seqs.SortStable | src/pages/MisReservas.jsx:39-43 | the elements of any one key leave the sort in the order they entered it |
| Seqs.InsertPermutes | src/pages/MisReservas.jsx:39-43 | inserting adds exactly the element |
| Api.FetchWithAuth | src/services/api.service.js:8-20 | URL is `API_URL` + endpoint; method and body pass through; JSON content type unless the caller sets one; `Bearer` credential present iff the token is truthy, and then it overrides the caller's; other caller headers kept |
| Api.AuthorizationPrecedence | src/services/api.service.js:11-18 | an Authorization header is sent iff a token is stored or the caller gave one; with no token the caller's value is sent |
| Api.HandleResponse | src/services/api.service.js:22-27 | an ok response yields its parsed body; otherwise the error is the body's truthy message or `Error en la petición` |
| Api.IdInjective | src/services/api.service.js:38 | `String(id)` differs for different ids |
| Api.PathInjective | src/services/api.service.js:130-141 | a path built around an id determines the id |
| Api.CancelAndDelete | src/services/api.service.js:128-141 | `cancel` is PATCH `/reservas/:id/cancel` and `delete` is DELETE `/reservas/:id`; the two paths never coincide; each call determines its id |
| Api.CourtDayLookup | src/pages/Reservas.jsx:44-48 | the court-and-day effect issues a lookup iff a court is chosen, and then the `getByCancha` path of that court and day |
| Api.GetByCanchaShape | src/services/api.service.js:112 | `getByCancha` path is `/reservas/cancha/` + court + `?fecha=` + date, with no options |
| Api.UserMutations | src/services/api.service.js:181-194 | `updateRole` sends `{rol}` and `toggleActive` sends `{activo}`, both PATCH, to different paths |
| Api.AuthCallsCarryNoCredential | src/services/api.service.js:207-235 | login and register send only the JSON content type and never an Authorization header |
| Reservations.Confirmed | src/pages/AdminReservas.jsx:76 | every kept booking is confirmed |
| Reservations.ConfirmedExactly | src/pages/MisReservas.jsx:37-38 | the confirmed filter keeps each confirmed booking as often as received, drops all others, and keeps the received order |
| Reservations.TimeOfDay | src/pages/MisReservas.jsx:40-41 | a parsed time of day is under 86400 seconds |
| Reservations.DayAndTime | src/pages/MisReservas.jsx:40-42 | day-then-time numbering orders lexicographically |
| Reservations.InstantOrder | src/pages/MisReservas.jsx:39-43 | instants order bookings by date first and by start time within a date |
| Reservations.MisReservasList | src/pages/MisReservas.jsx:37-43 | the confirmed filter followed by the chronological sort, stated by `Reservations.MisReservasListFacts` |
| Reservations.ChronoKey | src/pages/MisReservas.jsx:40-42 | the instant of a booking that the comparator subtracts, ordered as `Reservations.InstantOrder` states |
| Reservations.MisReservasListStable | src/pages/MisReservas.jsx:37-43 | confirmed bookings of the same instant are listed in the order the response gives them |
| Reservations.MisReservasListFacts | src/pages/MisReservas.jsx:37-43 | the loaded list is sorted by (date, start time), is a permutation of the confirmed bookings, and holds only received confirmed bookings |
| Reservations.RemoveById | src/pages/MisReservas.jsx:64 | no remaining booking has the cancelled id |
| Reservations.RemoveByIdFacts | src/pages/MisReservas.jsx:64 | removal drops exactly the bookings with that id, keeps the order, and keeps a sorted list sorted |
| Reservations.Filtered | src/pages/AdminReservas.jsx:132-140 | every shown booking matches the search |
| Reservations.SearchEmptyKeepsAll | src/pages/AdminReservas.jsx:133 | an empty search term shows every booking |
| Reservations.MatchesSearch | src/pages/AdminReservas.jsx:132-140 | the search test of a booking, stated by `Reservations.SearchIff` and `Reservations.SearchEmptyKeepsAll` |
| Reservations.SearchIff | src/pages/AdminReservas.jsx:134-139 | a non-empty term matches iff its lowercase text occurs in the lowercase name, surname or DNI, with a missing field read as `''` |
| Reservations.SearchKeeps | src/pages/AdminReservas.jsx:132-140 | a booking is shown iff it is loaded and matches; the shown list is an order-preserving subsequence |
| Reservations.SearchWithoutHolder | src/pages/AdminReservas.jsx:135-137 | a booking with no user matches only the empty term |
| Reservations.LowerIdempotent | src/pages/AdminReservas.jsx:134 | lowercasing twice is lowercasing once |
| Reservations.SearchCaseInsensitive | src/pages/AdminReservas.jsx:134 | lowercasing the term does not change what matches |
| Slots.Grid | src/pages/Reservas.jsx:63-83 | the grid has ten slots |
| Slots.GridStep | src/pages/Reservas.jsx:77-82 | each push appends the slot of the next position |
| Slots.GenerateHorarios | src/pages/Reservas.jsx:62-83 | the loop over 08:00, 09:30, …, 22:00 (exclusive past 21:30) builds exactly the grid |
| Slots.GridSlots | src/pages/Reservas.jsx:77-82 | slot `k` has id `k + 1`, the start and end text of position `k`, and the availability the lookup decides |
| Slots.GridBounds | src/pages/Reservas.jsx:63-70 | the first slot starts at 08:00, the last ends at 23:00 |
| Slots.GridContiguous | src/pages/Reservas.jsx:66-70 | each slot ends where the next one starts |
| Slots.StartBounds | src/pages/Reservas.jsx:63 | every start lies between 08:00 and 22:00, and every end by 23:00 |
| Slots.SlotOfTimes | src/pages/Reservas.jsx:66-70 | a slot's texts read back as its start and start + 90 |
| Slots.GridDuration | src/pages/Reservas.jsx:66-70 | every slot lasts exactly 90 minutes |
| Slots.GridDistinct | src/pages/Reservas.jsx:69-75 | no two slots start at the same time |
| Slots.Occupied | src/pages/Reservas.jsx:73-75 | the `some` test on the day's bookings, used by `Slots.OccupancyIff` |
| Slots.OccupancyIff | src/pages/Reservas.jsx:73-81 | a slot is available iff no confirmed booking starts at its start time; other states never block |
| Slots.FallbackAllFree | src/pages/Reservas.jsx:86-103 | when the lookup fails every slot is available |
| Slots.GridTimesFixed | src/pages/Reservas.jsx:86-103 | the lookup changes only availability, never ids or times |
| ReservasPage.SlotTimes | src/pages/Reservas.jsx:66-70 | a grid slot's times parse to a 90-minute interval starting between 08:00 and 22:00 |
| ReservasPage.PayloadFaithful | src/pages/Reservas.jsx:119-124 | the booking body carries the chosen court's integer id, the day as `yyyy-MM-dd`, and the slot's start and 90-minute end |
| ReservasPage.Page.constructor | src/pages/Reservas.jsx:16-21 | today, no court, no slot, empty lists |
| ReservasPage.Page.LoadCanchas | src/pages/Reservas.jsx:26-35 | the court list on success, unchanged on failure |
| ReservasPage.Page.HorariosLookup | src/pages/Reservas.jsx:45-59 | the slot lookup is issued iff a court is chosen, for that court and the selected day |
| ReservasPage.Page.LoadHorarios | src/pages/Reservas.jsx:51-104 | the grid marked by the received bookings, or the all-free grid on failure; selection untouched |
| ReservasPage.Page.SelectDate | src/pages/Reservas.jsx:180-183 | choosing a day selects it and drops the selected slot |
| ReservasPage.Page.SelectCancha | src/pages/Reservas.jsx:208-211 | choosing a court selects it and drops the selected slot |
| ReservasPage.Page.ClickHorario | src/pages/Reservas.jsx:238 | a click selects the slot iff it is available, and nothing else changes |
| ReservasPage.Page.StartReserva | src/pages/Reservas.jsx:107-126 | a booking is requested iff a court and a slot are selected, with `loading` set and the faithful payload; otherwise nothing changes |
| ReservasPage.Page.FinishReserva | src/pages/Reservas.jsx:126-144 | success drops the slot and reloads the grid; failure keeps both; `loading` ends |
| ReservasPage.EightTaken | src/pages/Reservas.jsx:73-82 | one confirmed 08:00 booking takes the first slot and leaves the second, 09:30 to 11:00, offered |
| ReservasPage.StaleSelectionDropped | src/pages/Reservas.jsx:180-183 | choose a slot, change to a day where it is taken: nothing is requested, clicking the taken slot still requests nothing, and only clicking an offered slot of the new grid books that slot on the new day |
| ReservasPage.ReservaPayload | src/pages/Reservas.jsx:119-124 | the body `handleReserva` posts; what it carries is stated by `ReservasPage.PayloadFaithful` |
| ReservasViejo.Page.LoadCanchas | src/pages/ReservasViejo.jsx:24-31 | the three mock courts |
| ReservasViejo.Page.SlotsEffect | src/pages/ReservasViejo.jsx:33-51 | with a court chosen, the ten slots with random availability; otherwise nothing changes |
| ReservasViejo.Page.SelectDate | src/pages/ReservasViejo.jsx:117 | a day button changes only the day |
| ReservasViejo.Page.SelectCancha | src/pages/ReservasViejo.jsx:142 | the court select changes only the court |
| ReservasViejo.Page.ClickHorario | src/pages/ReservasViejo.jsx:169 | a click selects the slot's id iff it is available |
| ReservasViejo.Page.HandleReserva | src/pages/ReservasViejo.jsx:54-83 | confirms iff a court and a slot are selected, then clears both; otherwise nothing changes |
| ReservasViejo.StaleSelectionBooked | src/pages/ReservasViejo.jsx:54-169 | a slot chosen on one day is still booked after moving to a day where it is shown taken |
| Recurrentes.DiasSemanaIndexed | src/pages/ReservasRecurrentes.jsx:34-42 | entry `i` of `DIAS_SEMANA` has `valor` `i` |
| Recurrentes.CalcularHoraFinAdds90 | src/pages/ReservasRecurrentes.jsx:110-116 | the end time is the start + 90 minutes modulo 24 hours |
| Recurrentes.HorarioText | src/pages/ReservasRecurrentes.jsx:44-47 | entry `i` of `HORARIOS` is the text of 08:00 + 90·i minutes |
| Recurrentes.SlotEnd | src/pages/ReservasRecurrentes.jsx:110-116 | a start on the grid ends at its slot's end |
| Recurrentes.HorariosAreSlots | src/pages/ReservasRecurrentes.jsx:44-47 | `HORARIOS` are the starts of the booking grid of the daily page, and their end times are the grid's ends |
| Recurrentes.HorariosBackToBack | src/pages/ReservasRecurrentes.jsx:44-116 | each offered time ends at the next one, and the last one ends at 23:00 |
| Recurrentes.HorariosIncreasing | src/pages/ReservasRecurrentes.jsx:44-47 | the offered times are strictly increasing |
| Recurrentes.ApplyEdit | src/pages/ReservasRecurrentes.jsx:384-476 | each input changes its own field and no other |
| Recurrentes.DiaReal | src/pages/ReservasRecurrentes.jsx:131-132 | the weekday of a real date is in 0..6 |
| Recurrentes.Submit | src/pages/ReservasRecurrentes.jsx:118-163 | `handleSubmit` as written up to its request: the outcome (missing fields, weekday mismatch, thrown TypeError, or the request); its properties are `Recurrentes.SubmitCreatesIff`, `Recurrentes.SubmitMismatchNames` and `Recurrentes.SubmitCrashesWithoutDate` |
| Recurrentes.CalcularHoraFin | src/pages/ReservasRecurrentes.jsx:110-116 | `calcularHoraFin`; that it adds 90 minutes modulo a day is `Recurrentes.CalcularHoraFinAdds90` |
| Recurrentes.RecurrentePayload | src/pages/ReservasRecurrentes.jsx:156-163 | the posted body; its fields are stated by `Recurrentes.SubmitCreatesIff` |
| Recurrentes.SubmitCreatesIff | src/pages/ReservasRecurrentes.jsx:118-167 | a request is made iff the three required fields are non-empty (`'0'` passes), the date is real and its weekday equals `parseInt(diaSemana)`; the body then carries that weekday, end = start + 90 min mod 24 h, and `fechaFin` null iff no end date is requested |
| Recurrentes.SubmitMismatchNames | src/pages/ReservasRecurrentes.jsx:141-149 | a date on another weekday produces the error naming the date's weekday, then the chosen one |
| Recurrentes.SubmitCrashesWithoutDate | src/pages/ReservasRecurrentes.jsx:131-145 | with the date cleared the handler throws instead of reporting |
| Recurrentes.SubmitCheckedNeverCrashes | src/pages/ReservasRecurrentes.jsx:121-149 | with the date checked as a required field no weekday from the select throws, and every accepted form is accepted with the same request |
| Recurrentes.GetDiaNombre | src/pages/ReservasRecurrentes.jsx:207-209 | a weekday number gives its name; anything else comes back unchanged |
| Recurrentes.Page.constructor | src/pages/ReservasRecurrentes.jsx:50-65 | empty lists, closed dialogs, the empty form for today |
| Recurrentes.Page.LoadCanchas | src/pages/ReservasRecurrentes.jsx:72-79 | the court list on success |
| Recurrentes.Page.StartLoad | src/pages/ReservasRecurrentes.jsx:81-85 | `loading` and the lookup of the user's weekly bookings |
| Recurrentes.Page.FinishLoad | src/pages/ReservasRecurrentes.jsx:85-96 | the list on success, unchanged on failure; `loading` ends |
| Recurrentes.Page.OpenDialog | src/pages/ReservasRecurrentes.jsx:98-108 | opens the dialog with empty fields, today's date and no end date |
| Recurrentes.Page.SetDialogOpen | src/pages/ReservasRecurrentes.jsx:487 | only the dialog flag changes |
| Recurrentes.Page.EditForm | src/pages/ReservasRecurrentes.jsx:384-476 | the form takes the edit, nothing else changes |
| Recurrentes.Page.HandleSubmit | src/pages/ReservasRecurrentes.jsx:118-163 | the validation outcome of the form |
| Recurrentes.Page.FinishSubmit | src/pages/ReservasRecurrentes.jsx:167-183 | success closes the dialog and starts the reload; failure changes nothing |
| Recurrentes.Page.AskDelete | src/pages/ReservasRecurrentes.jsx:350 | the dialog is about that weekly booking |
| Recurrentes.Page.DismissDelete | src/pages/ReservasRecurrentes.jsx:504 | the dialog's booking is cleared |
| Recurrentes.Page.StartDelete | src/pages/ReservasRecurrentes.jsx:186-189 | the cancellation is requested iff a booking is chosen, for that booking |
| Recurrentes.Page.FinishDelete | src/pages/ReservasRecurrentes.jsx:189-203 | success clears the booking and starts the reload; failure keeps it |
| MisReservas.RemoveKeepsShown | src/pages/MisReservas.jsx:64 | removing from a confirmed, sorted list keeps it confirmed and sorted |
| MisReservas.Page.constructor | src/pages/MisReservas.jsx:22-24 | an empty list, no booking in the dialog, loading |
| MisReservas.Page.StartLoad | src/pages/MisReservas.jsx:32-35 | `loading` and the lookup of the user's bookings |
| MisReservas.Page.FinishLoad | src/pages/MisReservas.jsx:35-54 | the confirmed bookings sorted by (date, start time) on success, the old list on failure; the list stays confirmed and sorted |
| MisReservas.Page.AskDelete | src/pages/MisReservas.jsx:175 | the dialog is about that booking |
| MisReservas.Page.DismissDelete | src/pages/MisReservas.jsx:188 | the dialog's booking is cleared |
| MisReservas.Page.StartCancel | src/pages/MisReservas.jsx:57-61 | nothing without a booking, otherwise the delete of that booking |
| MisReservas.Page.FinishCancel | src/pages/MisReservas.jsx:61-79 | success removes exactly that booking, in order; failure keeps the list; either way the dialog's booking is cleared |
| MisReservas.InstantOfText | src/pages/MisReservas.jsx:40-41 | a booking's date and time texts read back as its day and time |
| MisReservas.MockFirstPair | src/pages/MisReservasViejo.jsx:28-51 | the first mock booking is earlier than the second |
| MisReservas.MockSecondPair | src/pages/MisReservasViejo.jsx:28-51 | the second mock booking is earlier than the third |
| MisReservas.MockShown | src/pages/MisReservasViejo.jsx:28-51 | the mock list is confirmed and in chronological order |
| MisReservas.ViejoPage.LoadMock | src/pages/MisReservasViejo.jsx:26-52 | the three mock bookings |
| MisReservas.ViejoPage.AskDelete | src/pages/MisReservasViejo.jsx:148 | the dialog is about that booking |
| MisReservas.ViejoPage.DismissDelete | src/pages/MisReservasViejo.jsx:161 | the dialog's booking is cleared |
| MisReservas.ViejoPage.HandleCancelar | src/pages/MisReservasViejo.jsx:54-68 | with a booking chosen, removes exactly that booking in order and clears the choice; otherwise nothing changes |
| AdminReservas.Page.constructor | src/pages/AdminReservas.jsx:26-32 | today, no court, empty lists and search |
| AdminReservas.Page.LoadCanchas | src/pages/AdminReservas.jsx:45-57 | the court list on success |
| AdminReservas.Page.ReservasLookup | src/pages/AdminReservas.jsx:39-43 | the lookup is issued iff a court is chosen, for that court and day |
| AdminReservas.Page.StartLoad | src/pages/AdminReservas.jsx:59-63 | `loading` and the lookup for the selected court and day |
| AdminReservas.Page.FinishLoad | src/pages/AdminReservas.jsx:63-92 | the confirmed bookings in received order on success, the empty list on failure |
| AdminReservas.Page.SelectDate | src/pages/AdminReservas.jsx:173-174 | only the day changes |
| AdminReservas.Page.SelectCancha | src/pages/AdminReservas.jsx:201 | only the court changes |
| AdminReservas.Page.SetSearch | src/pages/AdminReservas.jsx:235 | the shown list becomes the search of the term |
| AdminReservas.Page.AskDelete | src/pages/AdminReservas.jsx:300 | the dialog is about a loaded, confirmed shown booking |
| AdminReservas.Page.DismissDelete | src/pages/AdminReservas.jsx:318 | the dialog's booking is cleared |
| AdminReservas.Page.StartCancel | src/pages/AdminReservas.jsx:95-99 | nothing without a booking, otherwise the delete of that booking's id |
| AdminReservas.Page.FinishCancel | src/pages/AdminReservas.jsx:99-116 | success reloads and then clears the booking; failure keeps it and the list |
| AdminReservas.LoadedList | src/pages/AdminReservas.jsx:76-140 | shown = received bookings that are confirmed and match, each as often as received, in received order |
| Auth.Cleared | src/contexts/AuthContext.jsx:106-110 | both session keys gone, every other key kept |
| Auth.ErrorMessage | src/contexts/AuthContext.jsx:60-63 | the body's truthy message, or the fixed default |
| Auth.FetchWithAuth | src/contexts/AuthContext.jsx:118-130 | `Bearer ` + token text (also with no token) and the JSON content type always override the caller's values; other headers, method and body pass through |
| Auth.ProfileRequest | src/contexts/AuthContext.jsx:35-40 | the profile check goes to `/auth/profile` with the Bearer token |
| Auth.LoginRequest | src/contexts/AuthContext.jsx:54-58 | POST `/auth/login` with `{dni, password}` as typed and no credential |
| Auth.RegisterRequest | src/contexts/AuthContext.jsx:81-85 | POST `/auth/register` with the form data and no credential |
| Auth.Provider.constructor | src/contexts/AuthContext.jsx:17-18 | no user, loading |
| Auth.Provider.IsAuthenticated | src/contexts/AuthContext.jsx:149 | true iff a user is signed in |
| Auth.Provider.Restore | src/contexts/AuthContext.jsx:20-31 | the user is restored and the token checked iff both items are stored; `loading` ends in every case |
| Auth.Provider.Logout | src/contexts/AuthContext.jsx:106-110 | no user and neither session key |
| Auth.Provider.FinishVerify | src/contexts/AuthContext.jsx:33-50 | a rejected token or failed request signs out; an accepted one changes nothing |
| Auth.Provider.Finish | src/contexts/AuthContext.jsx:60-75 | success stores token and user, signs in and returns the user; failure throws and changes nothing |
| Auth.Provider.FinishLogin | src/contexts/AuthContext.jsx:52-76 | `login`: as above, with `Error al iniciar sesión` as default message |
| Auth.Provider.FinishRegister | src/contexts/AuthContext.jsx:79-103 | `register`: as above, with `Error al registrarse` as default message |
| Auth.LoginSurvivesReload | src/contexts/AuthContext.jsx:20-72 | a login is restored, with its token checked, at the next start |
| Auth.LogoutSurvivesReload | src/contexts/AuthContext.jsx:20-110 | after a logout the next start restores no one |
| AuthViejo.MockUser | src/contexts/AuthContextViejo.jsx:36-43 | id 1, the DNI, `dni@example.com`, `Usuario Demo`, player role |
| AuthViejo.RegisteredUser | src/contexts/AuthContextViejo.jsx:58-62 | the mock user of `register`, stated by `AuthViejo.RegisteredUserFields` |
| AuthViejo.RegisteredUserFields | src/contexts/AuthContextViejo.jsx:58-63 | the form's fields, an id that the form may override, and always the player role |
| AuthViejo.Provider.Restore | src/contexts/AuthContextViejo.jsx:19-25 | a stored user is restored with no token check; `loading` ends |
| AuthViejo.Provider.Login | src/contexts/AuthContextViejo.jsx:27-48 | signs in and stores the mock user of the DNI; the password is ignored |
| AuthViejo.Provider.Register | src/contexts/AuthContextViejo.jsx:50-67 | signs in and stores the registered user |
| AuthViejo.Provider.Logout | src/contexts/AuthContextViejo.jsx:69-72 | no user and no `'user'` key; the token key is left |
| AuthViejo.LoginSurvivesReload | src/contexts/AuthContextViejo.jsx:19-48 | a mock login is restored at the next start |
| AuthViejo.LogoutSurvivesReload | src/contexts/AuthContextViejo.jsx:19-72 | after a logout no one is restored, even with a stored token |
| Layout.MenuItems | src/components/Layout.jsx:21-42 | an administrator gets the four base items followed by the three admin items, anyone else exactly the base items |
| Layout.IsAdmin | src/components/Layout.jsx:36 | `user?.rol === 'admin'`; it picks the menu in `Layout.MenuItems` |
| Layout.MenuPathsDistinct | src/components/Layout.jsx:21-33 | no two menu items share a path |
| Layout.OneHighlighted | src/components/Layout.jsx:90-145 | at most one item is highlighted |
| Layout.Frame.ToggleMenu | src/components/Layout.jsx:63 | the menu button flips the mobile menu |
| Layout.Frame.PickDesktop | src/components/Layout.jsx:87 | a sidebar item navigates to its path, which is then highlighted |
| Layout.Frame.PickMobile | src/components/Layout.jsx:136-139 | a mobile item navigates and closes the menu |
| Layout.Frame.CloseOverlay | src/components/Layout.jsx:171 | the overlay closes the menu |
| Layout.Frame.HandleLogout | src/components/Layout.jsx:46-49 | signs out, then goes to `/login` |
| Routes.Private | src/App.jsx:11-14 | renders iff a user is signed in, else redirects to `/login` |
| Routes.Public | src/App.jsx:16-19 | renders iff no user is signed in, else redirects to `/dashboard` |
| Routes.LookupFrom | src/App.jsx:24-31 | `<Routes>` matching: the first route whose path equals the location up to ASCII case and trailing slashes; its facts are `Routes.LookupFromFacts` |
| Routes.Resolve | src/App.jsx:11-31 | the screen of a location: the matched route's guard or redirect, and nothing without a match (`Routes.UnlistedBlank`) |
| Routes.CanonicalShape | src/App.jsx:24-31 | the compared form of a path has no upper-case ASCII letter and no trailing slash |
| Routes.CanonicalIdempotent | src/App.jsx:24-31 | comparing a compared form again changes nothing |
| Routes.LookupFromFacts | src/App.jsx:24-31 | the route match finds a route iff some route matches the location up to case and trailing slashes, and then the first such route |
| Routes.LookupCanonical | src/App.jsx:24-31 | a location and its compared form reach the same route |
| Routes.ResolveCanonical | src/App.jsx:24-31 | a location and its compared form show the same screen |
| Routes.UnlistedBlank | src/App.jsx:24-31 | a location no route matches shows nothing (the table has no catch-all) |
| Routes.CaseAndSlashIgnored | src/App.jsx:25-27 | `/Login` is the sign-in page and `/dashboard/` the dashboard |
| Routes.AppPaths | src/App.jsx:24-31 | six routes, no location matching two of them, and a location matches one iff its compared form is `/login`, `/register`, `/dashboard`, `/reservas`, `/mis-reservas` or that of `/` |
| Routes.AppGuards | src/App.jsx:25-30 | however a location spells them: `/login` and `/register` public, `/dashboard`, `/reservas`, `/mis-reservas` private, `/` redirects to `/dashboard` |
| Routes.AppTargets | src/App.jsx:11-27 | the redirect targets `/login` and `/dashboard` are routes, with the public and the private guard |
| Routes.AppFirstStep | src/App.jsx:11-30 | every listed location renders or redirects to `/login` or `/dashboard` |
| Routes.SettlesWithin | src/App.jsx:11-19 | in any table where `/login` and `/dashboard` are guarded as here, a location that renders or redirects to one of them reaches a page within two redirects |
| Routes.AppSettles | src/App.jsx:11-30 | from any listed path at most two redirects reach a page, for either user state |
| Routes.MenuPathsUnrouted | src/App.jsx:24-31 | the menu's weekly-bookings and admin items have no route and show nothing |
| Routes.MenuPathsRouted | src/components/Layout.jsx:21-33 | with the full table every menu item renders for a signed-in user |
| Routes.LookupPrefix | src/App.jsx:24-31 | routes appended after a table do not change what it matches |
| Routes.FullKeepsApp | src/App.jsx:24-31 | the full table resolves the six original paths as before |
| Routes.FirstListed | src/App.jsx:24-31 | the first route that matches is the one matched |
| Routes.FullTargets | src/App.jsx:11-27 | the full table keeps the guards of `/login` and `/dashboard` |
| Routes.FullAdded | src/components/Layout.jsx:21-33 | a location only the added routes match is matched first by one of them, a private route |
| Routes.FullFirstStep | src/App.jsx:11-30 | with the full table every listed location renders or redirects to `/login` or `/dashboard` |
| Routes.FullSettles | src/App.jsx:11-30 | with the full table, too, at most two redirects reach a page |
| Dashboard.TotalPages | src/pages/Dashboard.jsx:42 | `Math.ceil(n / k)`, stated by `Dashboard.TotalPagesCeil` |
| Dashboard.Next | src/pages/Dashboard.jsx:45-47 | the `nextSlide` step, stated by `Dashboard.NextStep` |
| Dashboard.Prev | src/pages/Dashboard.jsx:50-52 | the `prevSlide` step, stated by `Dashboard.PrevStep` |
| Dashboard.PageImages | src/pages/Dashboard.jsx:55-58 | `getCurrentImages`, stated by `Dashboard.PageShape` and `Dashboard.PagesCover` |
| Dashboard.TotalPagesCeil | src/pages/Dashboard.jsx:42 | the page count is the ceiling of images / per page |
| Dashboard.NextStep | src/pages/Dashboard.jsx:45-47 | next goes to the following page, and from the last to the first |
| Dashboard.PrevStep | src/pages/Dashboard.jsx:50-52 | previous goes to the preceding page, and from the first to the last |
| Dashboard.NextPrevInverse | src/pages/Dashboard.jsx:45-52 | both stay on a page and undo each other |
| Dashboard.Slice | src/pages/Dashboard.jsx:57 | a slice is at most as long as its range |
| Dashboard.PageShape | src/pages/Dashboard.jsx:55-58 | a page holds 1..k consecutive images |
| Dashboard.PagesPrefix | src/pages/Dashboard.jsx:55-58 | full pages concatenate to a prefix of the images |
| Dashboard.PagesCover | src/pages/Dashboard.jsx:42-58 | all pages concatenated give back the images exactly |
| Dashboard.PerView | src/pages/Dashboard.jsx:29-35 | one image per page iff the width is below 1279, else two |
| Dashboard.Carousel.Pages | src/pages/Dashboard.jsx:42 | at least two pages for the four images |
| Dashboard.Carousel.HandleResize | src/pages/Dashboard.jsx:29-35 | only the page size changes |
| Dashboard.Carousel.HandleResizeClamped | src/pages/Dashboard.jsx:29-35 | the page size changes and the index moves to the last page if it was past it |
| Dashboard.Carousel.NextSlide | src/pages/Dashboard.jsx:45-47 | the next page, on a page |
| Dashboard.Carousel.PrevSlide | src/pages/Dashboard.jsx:50-52 | the previous page, on a page |
| Dashboard.Carousel.GoTo | src/pages/Dashboard.jsx:140-144 | a dot selects its page |
| Dashboard.OnPageShowsImages | src/pages/Dashboard.jsx:55-58 | on a page the carousel shows 1..k images |
| Dashboard.EmptyAfterResize | src/pages/Dashboard.jsx:29-58 | narrow, go three pages on, widen: the index is past the last page and nothing is shown |
| Dashboard.ClampedAfterResize | src/pages/Dashboard.jsx:29-58 | the same steps with clamping end on the last page, which shows images |
| AdminCanchas.FormObj | src/pages/AdminCanchas.jsx:39-44 | the posted object has exactly the four form fields |
| AdminCanchas.FormOf | src/pages/AdminCanchas.jsx:70-75 | editing copies number, type and state, with description defaulting to `''` |
| AdminCanchas.SetFieldOnly | src/pages/AdminCanchas.jsx:99-104 | a change sets the named field and no other |
| AdminCanchas.SaveCall | src/pages/AdminCanchas.jsx:119-131 | update of the edited court iff editing, else create |
| AdminCanchas.SaveCallShape | src/pages/AdminCanchas.jsx:119-131 | PATCH to the court's path when editing, POST to `/canchas` otherwise, with the form as body |
| AdminCanchas.Page.constructor | src/pages/AdminCanchas.jsx:32-44 | empty list, loading, closed dialog, empty form with `activa` true |
| AdminCanchas.Page.StartLoad | src/pages/AdminCanchas.jsx:50-53 | `loading` and the court lookup |
| AdminCanchas.Page.FinishLoad | src/pages/AdminCanchas.jsx:53-64 | the list on success; `loading` ends |
| AdminCanchas.Page.OpenDialog | src/pages/AdminCanchas.jsx:67-86 | opens the dialog, editing the court with its fields, or a new court with the empty form |
| AdminCanchas.Page.CloseDialog | src/pages/AdminCanchas.jsx:88-97 | closes the dialog, clears the edited court and resets the form |
| AdminCanchas.Page.SetDialogOpen | src/pages/AdminCanchas.jsx:278 | only the dialog flag changes |
| AdminCanchas.Page.Change | src/pages/AdminCanchas.jsx:99-104 | the named field takes the value |
| AdminCanchas.Page.StartSubmit | src/pages/AdminCanchas.jsx:106-131 | no request without number and type, else the save call |
| AdminCanchas.Page.FinishSubmit | src/pages/AdminCanchas.jsx:133-142 | success closes, resets and reloads; failure keeps dialog and form |
| AdminCanchas.Page.SetCanchaToDelete | src/pages/AdminCanchas.jsx:263 | only the court to delete changes |
| AdminCanchas.Page.StartDelete | src/pages/AdminCanchas.jsx:145-149 | nothing without a court, else its delete |
| AdminCanchas.Page.FinishDelete | src/pages/AdminCanchas.jsx:149-162 | success clears the court and reloads; failure keeps it |
| AdminCanchas.EditRoundTrip | src/pages/AdminCanchas.jsx:67-133 | opening a court and saving it unchanged updates it with its own fields; a new court's empty form is refused |
| AdminUsuarios.RoleAction | src/pages/AdminUsuarios.jsx:275-294 | promote iff the role is `jugador`, otherwise demote |
| AdminUsuarios.StatusAction | src/pages/AdminUsuarios.jsx:297-316 | deactivate iff active, otherwise activate |
| AdminUsuarios.ActionCallBodies | src/pages/AdminUsuarios.jsx:88-117 | promote sends `rol` `admin`, demote `jugador`, activate `activo` true, deactivate false, all PATCH |
| AdminUsuarios.ActionCallDistinct | src/pages/AdminUsuarios.jsx:88-117 | different actions send different requests |
| AdminUsuarios.OfferedActionsChange | src/pages/AdminUsuarios.jsx:275-316 | the offered buttons always ask for the other role and the other status |
| AdminUsuarios.OpenedDialogTexts | src/pages/AdminUsuarios.jsx:53-81 | an opened dialog shows the action's title and the user's full name followed by the action's consequence |
| AdminUsuarios.CountsBound | src/pages/AdminUsuarios.jsx:172-209 | each count is the number of users of that role, and the two never exceed the total |
| AdminUsuarios.Page.constructor | src/pages/AdminUsuarios.jsx:21-29 | empty list, loading, closed dialog |
| AdminUsuarios.Page.StartLoad | src/pages/AdminUsuarios.jsx:36-40 | `loading` and the user lookup |
| AdminUsuarios.Page.FinishLoad | src/pages/AdminUsuarios.jsx:40-51 | the list on success; `loading` ends |
| AdminUsuarios.Page.OpenConfirmDialog | src/pages/AdminUsuarios.jsx:53-81 | the open dialog holds exactly this user and action |
| AdminUsuarios.Page.SetOpen | src/pages/AdminUsuarios.jsx:53-81 | only the dialog's flag changes |
| AdminUsuarios.Page.StartConfirm | src/pages/AdminUsuarios.jsx:84-117 | the request of the dialog's action for the dialog's user, nothing without an action |
| AdminUsuarios.Page.FinishConfirm | src/pages/AdminUsuarios.jsx:119-128 | success reloads and closes the dialog; failure leaves it open with the same user and action |
| AdminUsuarios.ConfirmOffered | src/pages/AdminUsuarios.jsx:275-316 | confirming a row's button sends that action for that user |
| Register.Page.constructor | src/pages/Register.jsx:13-21 | seven empty fields |
| Register.Page.Change | src/pages/Register.jsx:27-32 | the named field changes, the others stay |
| Register.Page.StartSubmit | src/pages/Register.jsx:34-49 | different passwords: the mismatch error, no request, `loading` untouched; otherwise `loading` and `register(formData)` |
| Register.Page.FinishSubmit | src/pages/Register.jsx:49-63 | only success navigates to `/dashboard` and stores the token and user in the provider's storage; failure shows the fixed error and leaves the session as it was; `loading` ends, the provider's own `loading` is untouched |
| Register.TypedPasswordsSubmit | src/pages/Register.jsx:13-49 | typing equal passwords sends exactly the seven fields with those passwords |
| Register.MismatchSendsNothing | src/pages/Register.jsx:37-44 | different passwords never reach the provider |
| Login.FailureText | src/pages/Login.jsx:36-38 | the deactivated-account text iff the message contains `desactivado`, otherwise the wrong-credentials text |
| Login.FallbackIsWrongCredentials | src/pages/Login.jsx:36-38 | a rejection without a message of its own reads as wrong credentials |
| Login.Page.SetDni | src/pages/Login.jsx:87 | only the DNI changes |
| Login.Page.SetPassword | src/pages/Login.jsx:100 | only the password changes |
| Login.Page.StartSubmit | src/pages/Login.jsx:21-26 | `loading` and `login` with the fields as typed |
| Login.Page.FinishSubmit | src/pages/Login.jsx:26-47 | only success navigates to `/dashboard` and stores the token and user in the provider's storage; failure gives the classified message and leaves the session as it was; `loading` ends, the provider's own `loading` is untouched |

## Left out

- The backend: conflict checks, the expansion of weekly bookings, role and deactivation
  enforcement and soft deletes happen in the remote service. The model shows only the requests
  and the replies.
- `fetch`, `response.json()`, `JSON.stringify` and `JSON.parse`:
  - replies are abstract inputs;
  - the storage round trip of a user record is the identity;
  - stored items are assumed well formed (the user item is a record, the token a string).
- Concurrency: await interleavings, effect scheduling, and `verifyToken` racing
  `setLoading(false)`. Each handler is one sequential step.
- The list effects of the booking pages (re-run when the day or court changes) are not
  automatic: their runs are the calls to `LoadHorarios`, `SlotsEffect` and `StartLoad`.
- Rendering: markup, animation, icons, document head, toasts. Toasts are at most an error
  out-parameter.
- The resize listener's registration and removal, and the initial `handleResize` call, are
  left out. `HandleResize` is the handler itself.
- JavaScript dates:
  - time zones, daylight saving time and `new Date('YYYY-MM-DD')` display parsing;
  - `toLocaleDateString` and the `es` locale.
  Dates are `(year, month, day)` and times are minutes of the day.
- The float loop counter `hour += 1.5` is modelled by integer minutes in steps of 90. These
  take the same values, because 1.5 is exact in binary.
- Ids, `Date.now()`, day numbers and minutes are unbounded integers, where JavaScript has
  IEEE doubles. Every such value here stays far below 2^53, where doubles hold every integer
  exactly, so no rounding is lost.
- The wrapper's own close on a confirmation button is not modelled. The confirm buttons of the
  cancel, delete and user-action dialogs are `AlertDialogAction`s, which in the usual shadcn
  wrapper also close the dialog through its `onOpenChange`. That wrapper (`components/ui/`) is
  not part of this model. A click is modelled as the handler alone (`StartCancel`, `StartDelete`,
  `StartConfirm` and their `Finish…`), so the failure paths keep the dialog's selection. If the
  wrapper does close, the click is that handler followed by `DismissDelete`,
  `SetCanchaToDelete(None)` or `SetOpen(false)`, which are modelled separately.
- `Math.random` is a boolean function of the slot position. `Date.now` and today's date are
  parameters.
- Unicode case folding: only ASCII letters are lowercased.
- Js.ParseInt: models decimal text only. Radix-less `parseInt` also skips leading white space
  and reads a `0x` or `0X` prefix as hexadecimal; the texts parsed here are `String(n)` of an
  id or a weekday, or the empty text, which have neither.
- Routes.LookupFrom: matches up to ASCII case and trailing slashes, as the router does by
  default. Unicode case folding, percent-decoding of the location, and dynamic or splat
  segments (none of which the table uses) are not modelled.
- `src/components/Footer.jsx` is not part of this model. Its only computation reads the
  current year from the clock.
- `Recurrentes.Submit`: `horaInicio` comes from the `HORARIOS` select. The model therefore
  requires a non-empty start time to be well-formed `HH:mm`, which the source does not check.
- `Recurrentes.RecurrentePayload`: `parseInt` of a court id that is no number is NaN, and JSON
  sends it as `null`. The model writes that as `Null`.
- `ReservasPage.ReservaPayload`: same NaN-as-`null` reading of the court id.
- `Reservations.ChronoKey`: a booking whose date or time is not valid text would sort as
  Invalid Date (NaN comparisons). The model gives it instant 0, since the backend always sends
  valid dates and times.
- `AdminUsuarios.Dialog`: the source stores the title and description strings in
  `confirmDialog`. Here they are derived from the stored user and action
  (`DialogTitle`, `DialogDescription`), which shows the same texts.
- Services that no core page uses (`horariosService`, `getById`, `update` of bookings and users,
  `usuariosService.delete`) are modelled as endpoint builders only.

## Findings

| source | as written | input that shows it | evidently intended | confidence | as-written member | corrected member |
|---|---|---|---|---|---|---|
| src/pages/ReservasViejo.jsx:117 | a day button keeps the selected slot id while the grid is redrawn | pick court 1 and slot 1 on a day where it is free, pick a day where slot 1 is taken, confirm | changing the day drops the selection, as the later page does (src/pages/Reservas.jsx:180-183) | not executed | ReservasViejo.StaleSelectionBooked | ReservasPage.StaleSelectionDropped |
| src/pages/ReservasRecurrentes.jsx:121-145 | the start date is not among the required fields; with it cleared `getDay` is NaN and `DIAS_SEMANA[NaN].nombre` throws a TypeError out of the handler | court 1, Sunday (`'0'`), 08:00, start date cleared | the date is checked with the other required fields and reported | not executed | Recurrentes.SubmitCrashesWithoutDate | Recurrentes.SubmitCheckedNeverCrashes |
| src/pages/Dashboard.jsx:28-42 | resizing changes `imagesPerView` but not `currentIndex` | width 800, next three times (index 3 of 4 pages), width 1400 (2 pages) | the index stays on an existing page | not executed | Dashboard.EmptyAfterResize | Dashboard.ClampedAfterResize |
| src/components/Layout.jsx:24,30-32 | the menu links to `/reservas-recurrentes` and `/admin/*` but `src/App.jsx:24-31` has no route for them | a signed-in user picks "Reservas fijas" | each menu item has a private route | not executed | Routes.MenuPathsUnrouted | Routes.MenuPathsRouted |
