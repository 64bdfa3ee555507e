/** The administrator's booking page of `src/pages/AdminReservas.jsx`: the confirmed bookings
    of one court and day, narrowed by a search box, and their cancellation. Each awaited
    service call is an input of the handler that awaits it. */
module AdminReservas {
  import opened Js
  import Api
  import Calendar
  import Reservations
  import Seqs

  class Page {
    var selectedDate: Calendar.Date
    var selectedCancha: string
    var canchas: seq<Obj>
    var reservas: seq<Reservations.Reserva>
    /** The booking the confirmation dialog is about, or `null`. */
    var reservaToDelete: Option<Reservations.Reserva>
    var loading: bool
    var searchTerm: string

    /** The day is a calendar day and the loaded list holds confirmed bookings only. */
    ghost predicate Valid()
      reads this
    {
      Calendar.Valid(selectedDate) && forall i :: 0 <= i < |reservas| ==> Reservations.IsConfirmed(reservas[i])
    }

    constructor(today: Calendar.Date)
      requires Calendar.Valid(today)
      ensures Valid()
      ensures selectedDate == today && selectedCancha == "" && canchas == [] && reservas == []
      ensures reservaToDelete == None && !loading && searchTerm == ""
    {
      selectedDate := today;
      selectedCancha := "";
      canchas := [];
      reservas := [];
      reservaToDelete := None;
      loading := false;
      searchTerm := "";
    }

    /** `reservasFiltradas`: the bookings the list shows. */
    function Shown(): seq<Reservations.Reserva>
      reads this
    {
      Reservations.Filtered(reservas, searchTerm)
    }

    /** The mount effect: the court list, or a toast and no change when the request fails. */
    method LoadCanchas(res: Api.Fetched<seq<Obj>>)
      modifies this
      ensures canchas == (if res.Ok? then res.data else old(canchas))
      ensures selectedDate == old(selectedDate) && selectedCancha == old(selectedCancha)
      ensures reservas == old(reservas) && reservaToDelete == old(reservaToDelete)
      ensures loading == old(loading) && searchTerm == old(searchTerm)
      ensures old(Valid()) ==> Valid()
    {
      if res.Ok? {
        canchas := res.data;
      }
    }

    /** The request the list effect issues: only once a court is chosen, for that court and the
        selected day. */
    function ReservasLookup(): (c: Option<Api.Call>)
      reads this
      requires Valid()
      ensures c.Some? <==> selectedCancha != ""
      ensures c.Some? ==> c.value == Api.ReservasGetByCancha(selectedCancha, Calendar.FormatIso(selectedDate))
    {
      Api.CourtDayLookup(selectedCancha, Calendar.FormatIso(selectedDate))
    }

    /** `loadReservas` up to its `await`. */
    method StartLoad() returns (call: Api.Call)
      requires Valid()
      modifies this
      ensures Valid() && loading
      ensures call == Api.ReservasGetByCancha(selectedCancha, Calendar.FormatIso(selectedDate))
      ensures selectedDate == old(selectedDate) && selectedCancha == old(selectedCancha) && canchas == old(canchas)
      ensures reservas == old(reservas) && reservaToDelete == old(reservaToDelete) && searchTerm == old(searchTerm)
    {
      loading := true;
      call := Api.ReservasGetByCancha(selectedCancha, Calendar.FormatIso(selectedDate));
    }

    /** The rest of `loadReservas`: the confirmed bookings in the order received, or the empty
        list when the request fails; `loading` ends either way. */
    method FinishLoad(res: Api.Fetched<seq<Reservations.Reserva>>)
      requires Valid()
      modifies this
      ensures Valid() && !loading
      ensures reservas == if res.Ok? then Reservations.Confirmed(res.data) else []
      ensures selectedDate == old(selectedDate) && selectedCancha == old(selectedCancha) && canchas == old(canchas)
      ensures reservaToDelete == old(reservaToDelete) && searchTerm == old(searchTerm)
    {
      if res.Ok? {
        reservas := Reservations.Confirmed(res.data);
      } else {
        reservas := [];
      }
      loading := false;
    }

    /** A day button: selects the day only. */
    method SelectDate(day: Calendar.Date)
      requires Valid() && Calendar.Valid(day)
      modifies this
      ensures Valid() && selectedDate == day
      ensures selectedCancha == old(selectedCancha) && canchas == old(canchas) && reservas == old(reservas)
      ensures reservaToDelete == old(reservaToDelete) && loading == old(loading) && searchTerm == old(searchTerm)
    {
      selectedDate := day;
    }

    /** The court select. */
    method SelectCancha(value: string)
      requires Valid()
      modifies this
      ensures Valid() && selectedCancha == value
      ensures selectedDate == old(selectedDate) && canchas == old(canchas) && reservas == old(reservas)
      ensures reservaToDelete == old(reservaToDelete) && loading == old(loading) && searchTerm == old(searchTerm)
    {
      selectedCancha := value;
    }

    /** The search box. */
    method SetSearch(term: string)
      requires Valid()
      modifies this
      ensures Valid() && searchTerm == term && Shown() == Reservations.Filtered(reservas, term)
      ensures selectedDate == old(selectedDate) && selectedCancha == old(selectedCancha) && canchas == old(canchas)
      ensures reservas == old(reservas) && reservaToDelete == old(reservaToDelete) && loading == old(loading)
    {
      searchTerm := term;
    }

    /** The cancel button of the `k`-th shown row: the dialog is about that booking. */
    method AskDelete(k: nat)
      requires Valid() && k < |Shown()|
      modifies this
      ensures Valid() && reservaToDelete == Some(old(Shown()[k]))
      ensures reservaToDelete.value in reservas && Reservations.IsConfirmed(reservaToDelete.value)
      ensures selectedDate == old(selectedDate) && selectedCancha == old(selectedCancha) && canchas == old(canchas)
      ensures reservas == old(reservas) && loading == old(loading) && searchTerm == old(searchTerm)
    {
      Reservations.SearchKeeps(reservas, searchTerm, Shown()[k]);
      reservaToDelete := Some(Shown()[k]);
    }

    /** The dialog's `onOpenChange`. */
    method DismissDelete()
      modifies this
      ensures reservaToDelete == None
      ensures selectedDate == old(selectedDate) && selectedCancha == old(selectedCancha) && canchas == old(canchas)
      ensures reservas == old(reservas) && loading == old(loading) && searchTerm == old(searchTerm)
    {
      reservaToDelete := None;
    }

    /** `handleCancelar` up to its first `await`: nothing without a booking in the dialog,
        otherwise the deletion of that booking by its id. */
    method StartCancel() returns (call: Option<Api.Call>)
      ensures call.Some? <==> reservaToDelete.Some?
      ensures call.Some? ==> call.value == Api.ReservasDelete(reservaToDelete.value.idReserva)
    {
      if reservaToDelete.None? {
        call := None;
      } else {
        call := Some(Api.ReservasDelete(reservaToDelete.value.idReserva));
      }
    }

    /** The rest of `handleCancelar`. On success the list is reloaded (`reload` is that lookup's
        response) and then the dialog's booking is cleared; on failure only a toast is shown and
        the booking stays in the dialog. */
    method FinishCancel(res: Api.Fetched<Obj>, reload: Api.Fetched<seq<Reservations.Reserva>>)
      returns (lookup: Option<Api.Call>)
      requires Valid() && reservaToDelete.Some?
      modifies this
      ensures Valid()
      ensures lookup.Some? <==> res.Ok?
      ensures res.Ok? ==> lookup.value == Api.ReservasGetByCancha(selectedCancha, Calendar.FormatIso(selectedDate))
                          && reservaToDelete == None && !loading
                          && reservas == (if reload.Ok? then Reservations.Confirmed(reload.data) else [])
      ensures res.Err? ==> reservaToDelete == old(reservaToDelete) && reservas == old(reservas) && loading == old(loading)
      ensures selectedDate == old(selectedDate) && selectedCancha == old(selectedCancha) && canchas == old(canchas)
      ensures searchTerm == old(searchTerm)
    {
      if res.Ok? {
        var c := StartLoad();
        FinishLoad(reload);
        reservaToDelete := None;
        lookup := Some(c);
      } else {
        lookup := None;
      }
    }
  }

  /** Loaded and searched, the page shows exactly the received bookings that are confirmed
      and match the term, each as often as received and in the order received. */
  lemma LoadedList(data: seq<Reservations.Reserva>, term: string, x: Reservations.Reserva)
    ensures multiset(Reservations.Filtered(Reservations.Confirmed(data), term))[x]
            == if Reservations.IsConfirmed(x) && Reservations.MatchesSearch(term, x) then multiset(data)[x] else 0
    ensures Seqs.IsSubsequence(Reservations.Filtered(Reservations.Confirmed(data), term), data)
  {
    var both := Seqs.Both(Reservations.IsConfirmed, Reservations.SearchFilter(term));
    Seqs.FilterFilter(data, Reservations.IsConfirmed, Reservations.SearchFilter(term));
    Seqs.FilterCount(data, both, x);
    Seqs.FilterIsSubsequence(data, both);
  }
}
