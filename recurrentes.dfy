/** The weekly recurring bookings of `src/pages/ReservasRecurrentes.jsx`: the weekday and
    start-time tables, the end time of a 90-minute booking, the validation of the creation form
    against the weekday of its start date, and the page state. */
module Recurrentes {
  import opened Js
  import Api
  import Clock
  import Calendar
  import Slots

  datatype Dia = Dia(valor: nat, nombre: string)

  /** `DIAS_SEMANA`, in `getDay` numbering. */
  const DiasSemana: seq<Dia> := [
    Dia(0, "Domingo"), Dia(1, "Lunes"), Dia(2, "Martes"), Dia(3, "Miércoles"),
    Dia(4, "Jueves"), Dia(5, "Viernes"), Dia(6, "Sábado")
  ]

  /** `HORARIOS`: the start times offered for a weekly booking. */
  const Horarios: seq<string> := [
    "08:00", "09:30", "11:00", "12:30", "14:00", "15:30", "17:00", "18:30", "20:00", "21:30"
  ]

  /** Entry `i` of the table has `valor` `i`, so indexing by a weekday finds its name. */
  lemma DiasSemanaIndexed(i: nat)
    requires i < 7
    ensures |DiasSemana| == 7 && DiasSemana[i].valor == i
  {
  }

  /** `calcularHoraFin`: `HH:mm` ninety minutes after `horaInicio`, wrapping past midnight
      (hours and minutes beyond their range roll over as `setHours` rolls them). */
  function CalcularHoraFin(horaInicio: string): string
    requires Clock.IsClockText(horaInicio)
  {
    Clock.FormatHHMM((Clock.HoursField(horaInicio) * 60 + Clock.MinutesField(horaInicio) + 90) % Clock.MinutesPerDay)
  }

  /** For a valid start time the end is the start plus 90 minutes on the 24-hour clock. */
  lemma CalcularHoraFinAdds90(horaInicio: string)
    requires Clock.ParseHHMM(horaInicio).Some?
    ensures Clock.ParseHHMM(CalcularHoraFin(horaInicio))
            == Some((Clock.ParseHHMM(horaInicio).value + 90) % Clock.MinutesPerDay)
  {
    Clock.ParseFormat((Clock.ParseHHMM(horaInicio).value + 90) % Clock.MinutesPerDay);
  }

  /** Entry `i` of `HORARIOS` is the `HH:mm` text of 08:00 plus `i` times 90 minutes. */
  lemma HorarioText(i: nat)
    requires i < |Horarios|
    ensures Horarios[i] == Clock.FormatHHMM(Slots.StartMinute(i))
  {
    var m := Slots.StartMinute(i);
    var h, n := m / 60, m % 60;
    if i == 0 { assert h == 8 && n == 0; }
    else if i == 1 { assert h == 9 && n == 30; }
    else if i == 2 { assert h == 11 && n == 0; }
    else if i == 3 { assert h == 12 && n == 30; }
    else if i == 4 { assert h == 14 && n == 0; }
    else if i == 5 { assert h == 15 && n == 30; }
    else if i == 6 { assert h == 17 && n == 0; }
    else if i == 7 { assert h == 18 && n == 30; }
    else if i == 8 { assert h == 20 && n == 0; }
    else { assert h == 21 && n == 30; }
    assert Clock.Pad2(h) == [DigitChar(h / 10), DigitChar(h % 10)];
    assert Clock.Pad2(n) == [DigitChar(n / 10), DigitChar(n % 10)];
  }

  /** The end of a booking starting at 08:00 plus `k` slots is the end of slot `k`. */
  lemma SlotEnd(k: nat)
    requires k < Slots.SlotCount
    ensures Clock.IsClockText(Clock.FormatHHMM(Slots.StartMinute(k)))
    ensures CalcularHoraFin(Clock.FormatHHMM(Slots.StartMinute(k)))
            == Clock.FormatHHMM(Slots.StartMinute(k) + Slots.SlotMinutes)
  {
    var m := Slots.StartMinute(k);
    Clock.FormatIsClockText(m);
    assert m / 60 * 60 + m % 60 == m;
    assert (m + 90) % Clock.MinutesPerDay == m + Slots.SlotMinutes;
  }

  /** The offered start times are exactly the starts of the daily slot grid, so each weekly
      booking ends where the next offered time begins and the last one ends at 23:00. */
  lemma HorariosAreSlots(free: (nat, string) -> bool, i: nat)
    requires i < |Horarios|
    ensures |Horarios| == Slots.SlotCount
    ensures Horarios[i] == Slots.Grid(free)[i].horaInicio
    ensures Clock.IsClockText(Horarios[i]) && CalcularHoraFin(Horarios[i]) == Slots.Grid(free)[i].horaFin
  {
    HorarioText(i);
    Slots.GridSlots(free, i);
    SlotEnd(i);
  }

  /** The offered start times are back to back: each booking ends at the next offered time,
      and the last one at 23:00. */
  lemma HorariosBackToBack(i: nat)
    requires i < |Horarios|
    ensures Clock.IsClockText(Horarios[i])
    ensures i + 1 < |Horarios| ==> CalcularHoraFin(Horarios[i]) == Horarios[i + 1]
    ensures i + 1 == |Horarios| ==> CalcularHoraFin(Horarios[i]) == "23:00"
  {
    var free := Slots.AllFree();
    HorariosAreSlots(free, i);
    if i + 1 < |Horarios| {
      HorariosAreSlots(free, i + 1);
      Slots.GridContiguous(free, i);
    } else {
      Slots.GridBounds(free);
    }
  }

  /** The offered start times are strictly increasing. */
  lemma HorariosIncreasing(i: nat, j: nat)
    requires i < j < |Horarios|
    ensures Clock.ParseHHMM(Horarios[i]).Some? && Clock.ParseHHMM(Horarios[j]).Some?
    ensures Clock.ParseHHMM(Horarios[i]).value < Clock.ParseHHMM(Horarios[j]).value
  {
    HorarioText(i);
    HorarioText(j);
    Slots.StartBounds(i);
    Slots.StartBounds(j);
    Clock.ParseFormat(Slots.StartMinute(i));
    Clock.ParseFormat(Slots.StartMinute(j));
  }

  // ---------------------------------------------------------------- the creation form

  datatype Form = Form(idCancha: string, diaSemana: string, horaInicio: string, fechaInicio: string,
                       fechaFin: string, tieneFinalizacion: bool)

  /** The form `handleOpenDialog` resets to: everything empty, starting today. */
  function EmptyForm(todayIso: string): Form {
    Form("", "", "", todayIso, "", false)
  }

  /** One input of the dialog: `setFormData({ ...formData, field: value })`. */
  datatype Edit = IdCancha(s: string) | DiaSemana(s: string) | HoraInicio(s: string)
                | FechaInicio(s: string) | TieneFinalizacion(b: bool) | FechaFin(s: string)

  function ApplyEdit(f: Form, e: Edit): (r: Form)
    ensures e.IdCancha? ==> r == f.(idCancha := e.s)
    ensures e.DiaSemana? ==> r == f.(diaSemana := e.s)
    ensures e.HoraInicio? ==> r == f.(horaInicio := e.s)
    ensures e.FechaInicio? ==> r == f.(fechaInicio := e.s)
    ensures e.TieneFinalizacion? ==> r == f.(tieneFinalizacion := e.b)
    ensures e.FechaFin? ==> r == f.(fechaFin := e.s)
  {
    match e
    case IdCancha(s) => f.(idCancha := s)
    case DiaSemana(s) => f.(diaSemana := s)
    case HoraInicio(s) => f.(horaInicio := s)
    case FechaInicio(s) => f.(fechaInicio := s)
    case TieneFinalizacion(b) => f.(tieneFinalizacion := b)
    case FechaFin(s) => f.(fechaFin := s)
  }

  /** What `handleSubmit` does with a form. `Crashed` is the `TypeError` of reading the name of
      a weekday that `DIAS_SEMANA` does not have, which escapes the handler. */
  datatype Outcome = MissingFields
                   | Crashed
                   | WeekdayMismatch(actual: string, expected: string)
                   | Create(call: Api.Call)

  /** `getDay(parseISO(fecha))`, `None` being NaN. */
  function DiaReal(fecha: string): (r: Option<nat>)
    ensures r.Some? ==> r.value < 7
  {
    match Calendar.ParseIso(fecha)
    case Some(d) => Some(Calendar.Weekday(d))
    case None => None
  }

  function NameOf(dia: Option<int>): Option<string> {
    if dia.Some? && 0 <= dia.value < 7 then Some(DiasSemana[dia.value].nombre) else None
  }

  /** The body posted for a validated form. */
  function RecurrentePayload(f: Form, dia: int): Obj
    requires Clock.IsClockText(f.horaInicio)
  {
    map["idCancha" := (match ParseInt(f.idCancha) case Some(n) => Num(n) case None => Null),
        "diaSemana" := Num(dia),
        "horaInicio" := Str(f.horaInicio),
        "horaFin" := Str(CalcularHoraFin(f.horaInicio)),
        "fechaInicio" := Str(f.fechaInicio),
        "fechaFin" := if f.tieneFinalizacion then Str(f.fechaFin) else Null]
  }

  /** `handleSubmit` as written. Start times come from `HORARIOS`, hence the requirement on a
      non-empty `horaInicio`. */
  function Submit(f: Form): Outcome
    requires f.horaInicio != "" ==> Clock.IsClockText(f.horaInicio)
  {
    if f.idCancha == "" || f.diaSemana == "" || f.horaInicio == "" then MissingFields
    else
      var actual, esperado := DiaReal(f.fechaInicio), ParseInt(f.diaSemana);
      if actual.Some? && esperado == Some(actual.value as int) then
        Create(Api.ReservasCreateRecurrente(RecurrentePayload(f, actual.value)))
      else if NameOf(if actual.Some? then Some(actual.value as int) else None).None? || NameOf(esperado).None? then
        Crashed
      else
        WeekdayMismatch(NameOf(Some(actual.value as int)).value, NameOf(esperado).value)
  }

  /** A form passes exactly when its three required fields are filled, its start date is a
      real date and the chosen weekday is the weekday of that date; the posted payload then
      carries that weekday, an end 90 minutes after the start, and an end date only if the
      booking has one. */
  lemma SubmitCreatesIff(f: Form)
    requires f.horaInicio != "" ==> Clock.ParseHHMM(f.horaInicio).Some?
    ensures Submit(f).Create? <==>
      f.idCancha != "" && f.diaSemana != "" && f.horaInicio != ""
      && Calendar.ParseIso(f.fechaInicio).Some?
      && ParseInt(f.diaSemana) == Some(Calendar.Weekday(Calendar.ParseIso(f.fechaInicio).value) as int)
    ensures Submit(f).Create? ==>
      var body := Submit(f).call.options.body.value;
      Submit(f).call.endpoint == "/reservas/recurrente"
      && body["diaSemana"] == Num(Calendar.Weekday(Calendar.ParseIso(f.fechaInicio).value))
      && body["fechaInicio"] == Str(f.fechaInicio)
      && Clock.ParseHHMM(body["horaFin"].s) == Some((Clock.ParseHHMM(f.horaInicio).value + 90) % Clock.MinutesPerDay)
      && (body["fechaFin"] == Null <==> !f.tieneFinalizacion)
  {
    if Submit(f).Create? {
      CalcularHoraFinAdds90(f.horaInicio);
    }
  }

  /** A weekday picked from the select is `String(valor)` of a table entry. */
  predicate FromSelect(diaSemana: string) {
    exists i :: 0 <= i < 7 && diaSemana == IntToString(i)
  }

  /** With a real start date on another weekday than the chosen one, the toast names both
      weekdays: the date's first, the chosen one second. */
  lemma SubmitMismatchNames(f: Form, chosen: nat)
    requires f.idCancha != "" && f.horaInicio != "" && Clock.IsClockText(f.horaInicio)
    requires chosen < 7 && f.diaSemana == IntToString(chosen)
    requires Calendar.ParseIso(f.fechaInicio).Some?
    requires Calendar.Weekday(Calendar.ParseIso(f.fechaInicio).value) != chosen
    ensures Submit(f) == WeekdayMismatch(DiasSemana[Calendar.Weekday(Calendar.ParseIso(f.fechaInicio).value)].nombre,
                                         DiasSemana[chosen].nombre)
  {
    ParseIntToString(chosen);
  }

  /** As written, a filled form whose start date was cleared (or is no real date) makes the
      handler throw instead of explaining the problem. */
  lemma SubmitCrashesWithoutDate(f: Form, chosen: nat)
    requires f.idCancha != "" && f.horaInicio != "" && Clock.IsClockText(f.horaInicio)
    requires chosen < 7 && f.diaSemana == IntToString(chosen)
    requires Calendar.ParseIso(f.fechaInicio).None?
    ensures Submit(f) == Crashed
  {
    ParseIntToString(chosen);
  }

  /** The handler with the start date checked alongside the other required fields. */
  function SubmitChecked(f: Form): Outcome
    requires f.horaInicio != "" ==> Clock.IsClockText(f.horaInicio)
  {
    if f.idCancha == "" || f.diaSemana == "" || f.horaInicio == ""
       || Calendar.ParseIso(f.fechaInicio).None? then MissingFields
    else Submit(f)
  }

  /** With the date checked, no form whose weekday comes from the select makes the handler
      throw, and every form the original accepts is still accepted with the same request. */
  lemma SubmitCheckedNeverCrashes(f: Form)
    requires f.horaInicio != "" ==> Clock.IsClockText(f.horaInicio)
    requires FromSelect(f.diaSemana)
    ensures SubmitChecked(f) != Crashed
    ensures Submit(f).Create? ==> SubmitChecked(f) == Submit(f)
  {
    var i :| 0 <= i < 7 && f.diaSemana == IntToString(i);
    ParseIntToString(i);
  }

  /** `getDiaNombre`: the name of a weekday number, and the value itself for anything else —
      strict equality means a weekday sent as text is not translated. */
  function GetDiaNombre(dia: Value): (r: Value)
    ensures dia.Num? && 0 <= dia.n < 7 ==> r == Str(DiasSemana[dia.n].nombre)
    ensures !(dia.Num? && 0 <= dia.n < 7) ==> r == dia
  {
    if dia.Num? && 0 <= dia.n < 7 then Str(DiasSemana[dia.n].nombre) else dia
  }

  // ---------------------------------------------------------------- the page

  class Page {
    var reservasRecurrentes: seq<Obj>
    var canchas: seq<Obj>
    var dialogOpen: bool
    var loading: bool
    /** `reservaToDelete`: the id of the weekly booking to cancel, or `null`. */
    var reservaToDelete: Option<int>
    var form: Form

    constructor(todayIso: string)
      ensures reservasRecurrentes == [] && canchas == [] && !dialogOpen && !loading
      ensures reservaToDelete == None && form == EmptyForm(todayIso)
    {
      reservasRecurrentes := [];
      canchas := [];
      dialogOpen := false;
      loading := false;
      reservaToDelete := None;
      form := EmptyForm(todayIso);
    }

    method LoadCanchas(res: Api.Fetched<seq<Obj>>)
      modifies this
      ensures canchas == (if res.Ok? then res.data else old(canchas))
      ensures reservasRecurrentes == old(reservasRecurrentes) && dialogOpen == old(dialogOpen)
      ensures loading == old(loading) && reservaToDelete == old(reservaToDelete) && form == old(form)
    {
      if res.Ok? {
        canchas := res.data;
      }
    }

    /** `loadReservasRecurrentes` up to its `await`. */
    method StartLoad() returns (call: Api.Call)
      modifies this
      ensures loading && call == Api.ReservasGetMisRecurrentes()
      ensures reservasRecurrentes == old(reservasRecurrentes) && canchas == old(canchas)
      ensures dialogOpen == old(dialogOpen) && reservaToDelete == old(reservaToDelete) && form == old(form)
    {
      loading := true;
      call := Api.ReservasGetMisRecurrentes();
    }

    /** The rest of `loadReservasRecurrentes`: the list on success, a toast otherwise. */
    method FinishLoad(res: Api.Fetched<seq<Obj>>)
      modifies this
      ensures !loading
      ensures reservasRecurrentes == (if res.Ok? then res.data else old(reservasRecurrentes))
      ensures canchas == old(canchas) && dialogOpen == old(dialogOpen)
      ensures reservaToDelete == old(reservaToDelete) && form == old(form)
    {
      if res.Ok? {
        reservasRecurrentes := res.data;
      }
      loading := false;
    }

    method OpenDialog(todayIso: string)
      modifies this
      ensures dialogOpen && form == EmptyForm(todayIso)
      ensures reservasRecurrentes == old(reservasRecurrentes) && canchas == old(canchas)
      ensures loading == old(loading) && reservaToDelete == old(reservaToDelete)
    {
      form := EmptyForm(todayIso);
      dialogOpen := true;
    }

    /** The dialog's `onOpenChange` and its cancel button. */
    method SetDialogOpen(open: bool)
      modifies this
      ensures dialogOpen == open && form == old(form)
      ensures reservasRecurrentes == old(reservasRecurrentes) && canchas == old(canchas)
      ensures loading == old(loading) && reservaToDelete == old(reservaToDelete)
    {
      dialogOpen := open;
    }

    method EditForm(e: Edit)
      modifies this
      ensures form == ApplyEdit(old(form), e) && dialogOpen == old(dialogOpen)
      ensures reservasRecurrentes == old(reservasRecurrentes) && canchas == old(canchas)
      ensures loading == old(loading) && reservaToDelete == old(reservaToDelete)
    {
      form := ApplyEdit(form, e);
    }

    /** The validation part of `handleSubmit`; only `Create` issues a request. */
    method HandleSubmit() returns (outcome: Outcome)
      requires form.horaInicio != "" ==> Clock.IsClockText(form.horaInicio)
      ensures outcome == Submit(form)
    {
      outcome := Submit(form);
    }

    /** After the creation request: on success the dialog closes and the list reload starts. */
    method FinishSubmit(res: Api.Fetched<Obj>) returns (reload: Option<Api.Call>)
      modifies this
      ensures res.Ok? ==> !dialogOpen && loading && reload == Some(Api.ReservasGetMisRecurrentes())
      ensures res.Err? ==> dialogOpen == old(dialogOpen) && loading == old(loading) && reload == None
      ensures reservasRecurrentes == old(reservasRecurrentes) && canchas == old(canchas)
      ensures reservaToDelete == old(reservaToDelete) && form == old(form)
    {
      reload := None;
      if res.Ok? {
        dialogOpen := false;
        var c := StartLoad();
        reload := Some(c);
      }
    }

    /** The delete button of a row. */
    method AskDelete(id: int)
      modifies this
      ensures reservaToDelete == Some(id)
      ensures reservasRecurrentes == old(reservasRecurrentes) && canchas == old(canchas)
      ensures dialogOpen == old(dialogOpen) && loading == old(loading) && form == old(form)
    {
      reservaToDelete := Some(id);
    }

    /** The confirmation dialog's `onOpenChange`. */
    method DismissDelete()
      modifies this
      ensures reservaToDelete == None
      ensures reservasRecurrentes == old(reservasRecurrentes) && canchas == old(canchas)
      ensures dialogOpen == old(dialogOpen) && loading == old(loading) && form == old(form)
    {
      reservaToDelete := None;
    }

    /** `handleDelete` up to its `await`: nothing without a (truthy) id to cancel. */
    method StartDelete() returns (call: Option<Api.Call>)
      ensures call.Some? <==> reservaToDelete.Some? && reservaToDelete.value != 0
      ensures call.Some? ==> call.value == Api.ReservasCancelRecurrente(reservaToDelete.value)
    {
      if reservaToDelete.Some? && reservaToDelete.value != 0 {
        call := Some(Api.ReservasCancelRecurrente(reservaToDelete.value));
      } else {
        call := None;
      }
    }

    /** After the cancellation: on success the selection is cleared and the reload starts; on
        failure only a toast. */
    method FinishDelete(res: Api.Fetched<Obj>) returns (reload: Option<Api.Call>)
      modifies this
      ensures res.Ok? ==> reservaToDelete == None && loading && reload == Some(Api.ReservasGetMisRecurrentes())
      ensures res.Err? ==> reservaToDelete == old(reservaToDelete) && loading == old(loading) && reload == None
      ensures reservasRecurrentes == old(reservasRecurrentes) && canchas == old(canchas)
      ensures dialogOpen == old(dialogOpen) && form == old(form)
    {
      reload := None;
      if res.Ok? {
        reservaToDelete := None;
        var c := StartLoad();
        reload := Some(c);
      }
    }
  }
}
