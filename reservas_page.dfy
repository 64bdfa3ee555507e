/** The booking page of `src/pages/Reservas.jsx`: the selected day, court and slot, the
    generated slot grid, and the booking request. Each awaited service call is an input of the
    handler that awaits it. */
module ReservasPage {
  import opened Js
  import Api
  import Clock
  import Calendar
  import Reservations
  import Slots

  /** The body `handleReserva` posts: `parseInt` of the court id (NaN is sent as `null`), the
      day as `yyyy-MM-dd` and the slot's times. */
  function ReservaPayload(cancha: string, date: Calendar.Date, h: Slots.Horario): Obj
    requires Calendar.Valid(date)
  {
    map["idCancha" := (match ParseInt(cancha) case Some(n) => Num(n) case None => Null),
        "fechaReserva" := Str(Calendar.FormatIso(date)),
        "horaInicio" := Str(h.horaInicio),
        "horaFin" := Str(h.horaFin)]
  }

  /** The two times of a slot of the grid parse back to a 90-minute interval that starts
      between 08:00 and 22:00. */
  lemma SlotTimes(h: Slots.Horario)
    requires Slots.IsSlot(h)
    ensures Clock.ParseHHMM(h.horaInicio).Some? && Clock.ParseHHMM(h.horaFin).Some?
    ensures Slots.FirstStart <= Clock.ParseHHMM(h.horaInicio).value <= Slots.LastStart
    ensures Clock.ParseHHMM(h.horaFin).value == Clock.ParseHHMM(h.horaInicio).value + Slots.SlotMinutes
  {
    var k :| 0 <= k < Slots.SlotCount && Slots.IsSlotOf(h, k);
    Slots.StartBounds(k);
    Slots.SlotOfTimes(h, k);
  }

  /** For a court chosen from the list (whose value is `String(idCancha)`), a day and a slot of
      the grid, the payload names that court, that day and a 90-minute interval between 08:00
      and 23:00. */
  lemma PayloadFaithful(idCancha: int, date: Calendar.Date, h: Slots.Horario)
    requires Calendar.Valid(date) && date.year < 10000 && Slots.IsSlot(h)
    ensures var p := ReservaPayload(IntToString(idCancha), date, h);
      p["idCancha"] == Num(idCancha)
      && Calendar.ParseIso(p["fechaReserva"].s) == Some(date)
      && Clock.ParseHHMM(p["horaInicio"].s).Some? && Clock.ParseHHMM(p["horaFin"].s).Some?
      && Slots.FirstStart <= Clock.ParseHHMM(p["horaInicio"].s).value <= Slots.LastStart
      && Clock.ParseHHMM(p["horaFin"].s).value == Clock.ParseHHMM(p["horaInicio"].s).value + Slots.SlotMinutes
  {
    var p := ReservaPayload(IntToString(idCancha), date, h);
    ParseIntToString(idCancha);
    assert p["idCancha"] == Num(idCancha);
    Calendar.ParseFormatIso(date);
    assert p["fechaReserva"].s == Calendar.FormatIso(date);
    assert p["horaInicio"].s == h.horaInicio && p["horaFin"].s == h.horaFin;
    SlotTimes(h);
  }

  class Page {
    var selectedDate: Calendar.Date
    var selectedCancha: string
    var selectedHorario: Option<Slots.Horario>
    var canchas: seq<Obj>
    var horarios: seq<Slots.Horario>
    var loading: bool

    /** The grid is empty or a full grid, and a selected slot is an offered slot of the grid. */
    ghost predicate Valid()
      reads this
    {
      Calendar.Valid(selectedDate)
      && (horarios == [] ||
          (|horarios| == Slots.SlotCount && forall k :: 0 <= k < Slots.SlotCount ==> Slots.IsSlotOf(horarios[k], k)))
      && (selectedHorario.Some? ==> selectedHorario.value.disponible && Slots.IsSlot(selectedHorario.value))
    }

    /** The selected slot, if any, is one of the slots currently shown. */
    ghost predicate SelectionShown()
      reads this
    {
      selectedHorario.None? || exists k :: 0 <= k < |horarios| && horarios[k] == selectedHorario.value
    }

    constructor(today: Calendar.Date)
      requires Calendar.Valid(today)
      ensures Valid()
      ensures selectedDate == today && selectedCancha == "" && selectedHorario == None
      ensures canchas == [] && horarios == [] && !loading
    {
      selectedDate := today;
      selectedCancha := "";
      selectedHorario := None;
      canchas := [];
      horarios := [];
      loading := false;
    }

    /** The mount effect: the court list, or a toast and no change when the request fails. */
    method LoadCanchas(res: Api.Fetched<seq<Obj>>)
      modifies this
      ensures canchas == (if res.Ok? then res.data else old(canchas))
      ensures selectedDate == old(selectedDate) && selectedCancha == old(selectedCancha)
      ensures selectedHorario == old(selectedHorario) && horarios == old(horarios) && loading == old(loading)
      ensures old(Valid()) ==> Valid()
    {
      if res.Ok? {
        canchas := res.data;
      }
    }

    /** The request the slot effect issues: only once a court is chosen, for that court and the
        selected day. */
    function HorariosLookup(): (c: Option<Api.Call>)
      reads this
      requires Valid()
      ensures c.Some? <==> selectedCancha != ""
      ensures c.Some? ==> c.value == Api.ReservasGetByCancha(selectedCancha, Calendar.FormatIso(selectedDate))
    {
      Api.CourtDayLookup(selectedCancha, Calendar.FormatIso(selectedDate))
    }

    /** `loadHorariosDisponibles`: the grid marked with the bookings of the response, or the
        all-free grid when the lookup fails. */
    method LoadHorarios(res: Api.Fetched<seq<Reservations.Reserva>>)
      requires Valid()
      modifies this
      ensures Valid()
      ensures horarios == Slots.Grid(if res.Ok? then Slots.FreeGiven(res.data) else Slots.AllFree())
      ensures selectedDate == old(selectedDate) && selectedCancha == old(selectedCancha)
      ensures selectedHorario == old(selectedHorario) && canchas == old(canchas) && loading == old(loading)
      ensures selectedHorario.None? ==> SelectionShown()
    {
      var free := if res.Ok? then Slots.FreeGiven(res.data) else Slots.AllFree();
      var g := Slots.GenerateHorarios(free);
      forall k | 0 <= k < Slots.SlotCount ensures Slots.IsSlotOf(g[k], k) {
        Slots.GridSlots(free, k);
      }
      horarios := g;
    }

    /** A day button: selects the day and drops the selected slot. */
    method SelectDate(day: Calendar.Date)
      requires Valid() && Calendar.Valid(day)
      modifies this
      ensures Valid()
      ensures selectedDate == day && selectedHorario == None && SelectionShown()
      ensures selectedCancha == old(selectedCancha) && canchas == old(canchas)
      ensures horarios == old(horarios) && loading == old(loading)
    {
      selectedDate := day;
      selectedHorario := None;
    }

    /** The court select: selects the court and drops the selected slot. */
    method SelectCancha(value: string)
      requires Valid()
      modifies this
      ensures Valid()
      ensures selectedCancha == value && selectedHorario == None && SelectionShown()
      ensures selectedDate == old(selectedDate) && canchas == old(canchas)
      ensures horarios == old(horarios) && loading == old(loading)
    {
      selectedCancha := value;
      selectedHorario := None;
    }

    /** A slot button: only an offered slot can be selected. */
    method ClickHorario(k: nat)
      requires Valid() && k < |horarios|
      modifies this
      ensures Valid()
      ensures selectedHorario == (if old(horarios[k].disponible) then Some(old(horarios[k])) else old(selectedHorario))
      ensures old(SelectionShown()) ==> SelectionShown()
      ensures selectedDate == old(selectedDate) && selectedCancha == old(selectedCancha)
      ensures canchas == old(canchas) && horarios == old(horarios) && loading == old(loading)
    {
      if horarios[k].disponible {
        assert Slots.IsSlotOf(horarios[k], k);
        selectedHorario := Some(horarios[k]);
      }
    }

    /** `handleReserva` up to its `await`: without a court and a slot it only shows a toast;
        otherwise it sets `loading` and posts the payload. */
    method StartReserva() returns (call: Option<Api.Call>)
      requires Valid()
      modifies this
      ensures Valid()
      ensures call.Some? <==> old(selectedCancha) != "" && old(selectedHorario).Some?
      ensures call.Some? ==> loading && selectedHorario.Some? &&
                             call.value == Api.ReservasCreate(ReservaPayload(selectedCancha, selectedDate, selectedHorario.value))
      ensures call.None? ==> loading == old(loading)
      ensures selectedDate == old(selectedDate) && selectedCancha == old(selectedCancha)
      ensures selectedHorario == old(selectedHorario) && canchas == old(canchas) && horarios == old(horarios)
    {
      if selectedCancha == "" || selectedHorario.None? {
        call := None;
      } else {
        loading := true;
        call := Some(Api.ReservasCreate(ReservaPayload(selectedCancha, selectedDate, selectedHorario.value)));
      }
    }

    /** The rest of `handleReserva`: on success the slot is dropped and the grid reloaded (with
        the response `reload` of that second lookup); `loading` ends either way. */
    method FinishReserva(res: Api.Fetched<Obj>, reload: Api.Fetched<seq<Reservations.Reserva>>)
      requires Valid()
      modifies this
      ensures Valid()
      ensures !loading
      ensures res.Ok? ==> selectedHorario == None &&
                          horarios == Slots.Grid(if reload.Ok? then Slots.FreeGiven(reload.data) else Slots.AllFree())
      ensures res.Err? ==> selectedHorario == old(selectedHorario) && horarios == old(horarios)
      ensures res.Ok? || old(SelectionShown()) ==> SelectionShown()
      ensures selectedDate == old(selectedDate) && selectedCancha == old(selectedCancha) && canchas == old(canchas)
    {
      if res.Ok? {
        selectedHorario := None;
        LoadHorarios(reload);
      }
      loading := false;
    }
  }

  /** With one confirmed booking at 08:00 the first slot of the grid is taken and the second,
      09:30 to 11:00, is offered. */
  lemma EightTaken(taken: Reservations.Reserva)
    requires taken.horaInicio == "08:00" && Reservations.IsConfirmed(taken)
    ensures var g := Slots.Grid(Slots.FreeGiven([taken]));
      !g[0].disponible && g[1] == Slots.Horario(2, "09:30", "11:00", true)
  {
    var free := Slots.FreeGiven([taken]);
    assert Clock.FormatHHMM(Slots.StartMinute(0)) == "08:00";
    assert Clock.FormatHHMM(Slots.StartMinute(1)) == "09:30";
    assert Clock.FormatHHMM(Slots.StartMinute(1) + Slots.SlotMinutes) == "11:00";
    Slots.GridSlots(free, 0);
    Slots.GridSlots(free, 1);
    assert [taken][0].horaInicio == "08:00";
    assert Slots.Occupied([taken], "08:00");
  }

  /** A page where court `1` and, on the all-free grid, the 08:00 slot are chosen. */
  method PageWithSlot(today: Calendar.Date) returns (p: Page)
    requires Calendar.Valid(today)
    ensures fresh(p) && p.Valid() && p.selectedCancha == "1" && p.selectedHorario.Some?
  {
    p := new Page(today);
    p.SelectCancha("1");
    p.LoadHorarios(Api.Ok([]));
    Slots.GridSlots(Slots.FreeGiven([]), 0);
    p.ClickHorario(0);
  }

  /** The scenario that books a taken slot on the earlier page, here with the 08:00 slot of the
      new day booked. The day change drops the selection, so nothing is requested; a click on
      the taken slot selects nothing; only a click on an offered slot of the new grid leads to
      a booking, and that booking is for the new day and the clicked slot. */
  method StaleSelectionDropped(today: Calendar.Date, other: Calendar.Date)
    returns (afterChange: Option<Api.Call>, afterTaken: Option<Api.Call>, afterFree: Option<Api.Call>)
    requires Calendar.Valid(today) && Calendar.Valid(other)
    ensures afterChange.None? && afterTaken.None?
    ensures afterFree == Some(Api.ReservasCreate(ReservaPayload("1", other, Slots.Horario(2, "09:30", "11:00", true))))
  {
    var p := PageWithSlot(today);
    p.SelectDate(other);
    var taken := Reservations.Reserva(7, Calendar.FormatIso(other), "08:00", "09:30", Reservations.Confirmada, None);
    p.LoadHorarios(Api.Ok([taken]));
    afterChange := p.StartReserva();
    EightTaken(taken);
    p.ClickHorario(0);
    afterTaken := p.StartReserva();
    p.ClickHorario(1);
    afterFree := p.StartReserva();
  }
}
