/** The player's own bookings: `src/pages/MisReservas.jsx` (backed by the service) and the
    earlier mock page `src/pages/MisReservasViejo.jsx`. The list shown is always the confirmed
    bookings, earliest first, and a cancellation removes exactly the cancelled booking. */
module MisReservas {
  import opened Js
  import Api
  import Seqs
  import Reservations
  import Calendar
  import Clock

  /** The list invariant: confirmed bookings only, in chronological order. */
  ghost predicate Shown(rs: seq<Reservations.Reserva>) {
    Seqs.SortedBy(rs, Reservations.ChronoKey) && forall r :: r in rs ==> Reservations.IsConfirmed(r)
  }

  /** Removing a booking from a shown list leaves a shown list. */
  lemma RemoveKeepsShown(rs: seq<Reservations.Reserva>, id: int)
    requires Shown(rs)
    ensures Shown(Reservations.RemoveById(rs, id))
  {
    forall r | r in Reservations.RemoveById(rs, id) ensures Reservations.IsConfirmed(r) {
      Seqs.FilterMember(rs, Reservations.OtherThan(id), r);
    }
    Seqs.FilterSorted(rs, Reservations.OtherThan(id), Reservations.ChronoKey);
  }

  class Page {
    var reservas: seq<Reservations.Reserva>
    /** The id of the booking the confirmation dialog is about, or `null`. */
    var reservaToDelete: Option<int>
    var loading: bool

    constructor()
      ensures reservas == [] && reservaToDelete == None && loading
      ensures Shown(reservas)
    {
      reservas := [];
      reservaToDelete := None;
      loading := true;
    }

    /** `loadReservas` up to its `await`. */
    method StartLoad() returns (call: Api.Call)
      modifies this
      ensures loading && call == Api.ReservasGetMisReservas()
      ensures reservas == old(reservas) && reservaToDelete == old(reservaToDelete)
    {
      loading := true;
      call := Api.ReservasGetMisReservas();
    }

    /** The rest of `loadReservas`: the confirmed bookings sorted by date and start time on
        success; on failure a toast and the previous list. */
    method FinishLoad(res: Api.Fetched<seq<Reservations.Reserva>>)
      requires Shown(reservas)
      modifies this
      ensures Shown(reservas) && !loading
      ensures reservas == if res.Ok? then Reservations.MisReservasList(res.data) else old(reservas)
      ensures reservaToDelete == old(reservaToDelete)
    {
      if res.Ok? {
        Reservations.MisReservasListFacts(res.data);
        reservas := Reservations.MisReservasList(res.data);
      }
      loading := false;
    }

    /** The cancel button of a row. */
    method AskDelete(id: int)
      modifies this
      ensures reservaToDelete == Some(id) && reservas == old(reservas) && loading == old(loading)
    {
      reservaToDelete := Some(id);
    }

    /** The dialog's `onOpenChange`. */
    method DismissDelete()
      modifies this
      ensures reservaToDelete == None && reservas == old(reservas) && loading == old(loading)
    {
      reservaToDelete := None;
    }

    /** `handleCancelar` up to its `await`: nothing without a (truthy) id. */
    method StartCancel() returns (call: Option<Api.Call>)
      ensures call.Some? <==> reservaToDelete.Some? && reservaToDelete.value != 0
      ensures call.Some? ==> call.value == Api.ReservasDelete(reservaToDelete.value)
    {
      if reservaToDelete.Some? && reservaToDelete.value != 0 {
        call := Some(Api.ReservasDelete(reservaToDelete.value));
      } else {
        call := None;
      }
    }

    /** The rest of `handleCancelar`: on success the booking leaves the local list; either way
        the dialog's booking is cleared. */
    method FinishCancel(res: Api.Fetched<Obj>)
      requires reservaToDelete.Some? && reservaToDelete.value != 0 && Shown(reservas)
      modifies this
      ensures Shown(reservas) && reservaToDelete == None && loading == old(loading)
      ensures reservas == if res.Ok? then Reservations.RemoveById(old(reservas), old(reservaToDelete.value))
                          else old(reservas)
    {
      if res.Ok? {
        RemoveKeepsShown(reservas, reservaToDelete.value);
        reservas := Reservations.RemoveById(reservas, reservaToDelete.value);
      }
      reservaToDelete := None;
    }
  }

  // ---------------------------------------------------------------- the earlier mock page

  /** The three mock bookings of the earlier page (their nested `horario` flattened). */
  const MockReservas: seq<Reservations.Reserva> := [
    Reservations.Reserva(1, "2025-10-30", "10:00", "11:30", Reservations.Confirmada, None),
    Reservations.Reserva(2, "2025-11-01", "18:00", "19:30", Reservations.Confirmada, None),
    Reservations.Reserva(3, "2025-11-03", "16:00", "17:30", Reservations.Confirmada, None)
  ]

  /** The instant of a booking whose date is the text of `d` and whose start is `HH:mm`. */
  lemma InstantOfText(r: Reservations.Reserva, d: Calendar.Date)
    requires Calendar.Valid(d) && d.year < 10000 && r.fechaReserva == Calendar.FormatIso(d)
    requires |r.horaInicio| == 5 && Clock.ParseHHMM(r.horaInicio).Some?
    ensures Calendar.ParseIso(r.fechaReserva) == Some(d)
    ensures Reservations.TimeOfDay(r.horaInicio) == Some(Clock.ParseHHMM(r.horaInicio).value * 60)
  {
    Calendar.ParseFormatIso(d);
  }

  /** The first mock booking comes before the second. */
  lemma MockFirstPair()
    ensures Reservations.ChronoKey(MockReservas[0]) < Reservations.ChronoKey(MockReservas[1])
  {
    var a, b := MockReservas[0], MockReservas[1];
    var da, db := Calendar.Date(2025, 10, 30), Calendar.Date(2025, 11, 1);
    assert Calendar.FormatIso(da) == "2025-10-30";
    assert Calendar.FormatIso(db) == "2025-11-01";
    assert Clock.ParseHHMM("10:00") == Some(600);
    assert Clock.ParseHHMM("18:00") == Some(1080);
    InstantOfText(a, da);
    InstantOfText(b, db);
    Reservations.InstantOrder(a.fechaReserva, a.horaInicio, b.fechaReserva, b.horaInicio);
  }

  /** The second mock booking comes before the third. */
  lemma MockSecondPair()
    ensures Reservations.ChronoKey(MockReservas[1]) < Reservations.ChronoKey(MockReservas[2])
  {
    var b, c := MockReservas[1], MockReservas[2];
    var db, dc := Calendar.Date(2025, 11, 1), Calendar.Date(2025, 11, 3);
    assert Calendar.FormatIso(db) == "2025-11-01";
    assert Calendar.FormatIso(dc) == "2025-11-03";
    assert Clock.ParseHHMM("18:00") == Some(1080);
    assert Clock.ParseHHMM("16:00") == Some(960);
    InstantOfText(b, db);
    InstantOfText(c, dc);
    Reservations.InstantOrder(b.fechaReserva, b.horaInicio, c.fechaReserva, c.horaInicio);
  }

  /** The mock list already is what the page would show: confirmed bookings in order. */
  lemma MockShown()
    ensures Shown(MockReservas)
  {
    var m := MockReservas;
    MockFirstPair();
    MockSecondPair();
    Seqs.SortedThree(m, Reservations.ChronoKey);
    forall r | r in m
      ensures Reservations.IsConfirmed(r)
    {
      assert r == m[0] || r == m[1] || r == m[2];
    }
  }

  class ViejoPage {
    var reservas: seq<Reservations.Reserva>
    var reservaToDelete: Option<int>

    constructor()
      ensures reservas == [] && reservaToDelete == None
    {
      reservas := [];
      reservaToDelete := None;
    }

    /** The effect on `user`: the mock list. */
    method LoadMock()
      modifies this
      ensures reservas == MockReservas && reservaToDelete == old(reservaToDelete)
    {
      reservas := MockReservas;
    }

    method AskDelete(id: int)
      modifies this
      ensures reservaToDelete == Some(id) && reservas == old(reservas)
    {
      reservaToDelete := Some(id);
    }

    method DismissDelete()
      modifies this
      ensures reservaToDelete == None && reservas == old(reservas)
    {
      reservaToDelete := None;
    }

    /** `handleCancelar`: drops the booking locally, with no request, and clears the dialog. */
    method HandleCancelar()
      modifies this
      ensures old(reservaToDelete).Some? && old(reservaToDelete).value != 0 ==>
        reservas == Reservations.RemoveById(old(reservas), old(reservaToDelete).value) && reservaToDelete == None
      ensures !(old(reservaToDelete).Some? && old(reservaToDelete).value != 0) ==>
        reservas == old(reservas) && reservaToDelete == old(reservaToDelete)
    {
      if reservaToDelete.Some? && reservaToDelete.value != 0 {
        reservas := Reservations.RemoveById(reservas, reservaToDelete.value);
        reservaToDelete := None;
      }
    }
  }
}
