/** Bookings as the backend returns them, and the list pipelines the pages apply to them:
    the confirmed filter, the chronological order of `src/pages/MisReservas.jsx`, the removal
    of a cancelled booking and the search of `src/pages/AdminReservas.jsx`. */
module Reservations {
  import opened Js
  import Clock
  import Calendar
  import Seqs

  /** The `usuario` a booking carries, each field possibly absent. */
  datatype UsuarioRef = UsuarioRef(nombre: Option<string>, apellido: Option<string>, dni: Option<string>)

  /** A booking record: its id, `yyyy-MM-dd` date, start and end times, state and holder. */
  datatype Reserva = Reserva(idReserva: int, fechaReserva: string, horaInicio: string, horaFin: string,
                             estado: string, usuario: Option<UsuarioRef>)

  const Confirmada: string := "confirmada"

  predicate IsConfirmed(r: Reserva) { r.estado == Confirmada }

  /** `data.filter(r => r.estado === 'confirmada')`. */
  function Confirmed(rs: seq<Reserva>): (r: seq<Reserva>)
    ensures forall i :: 0 <= i < |r| ==> IsConfirmed(r[i])
  {
    Seqs.Filter(rs, IsConfirmed)
  }

  /** The confirmed filter keeps every confirmed booking (as often as it occurs), drops the
      rest, and keeps the backend's order. */
  lemma ConfirmedExactly(rs: seq<Reserva>, x: Reserva)
    ensures multiset(Confirmed(rs))[x] == if IsConfirmed(x) then multiset(rs)[x] else 0
    ensures Seqs.IsSubsequence(Confirmed(rs), rs)
  {
    Seqs.FilterCount(rs, IsConfirmed, x);
    Seqs.FilterIsSubsequence(rs, IsConfirmed);
  }

  // ---------------------------------------------------------------- chronological order

  /** Seconds after midnight written by `HH:mm` or `HH:mm:ss`, the two time forms of the
      ECMAScript date time string format (section 21.4.1.32 of ECMA-262). */
  function TimeOfDay(s: string): (r: Option<nat>)
    ensures r.Some? ==> r.value < 86400
  {
    if |s| == 5 then
      match Clock.ParseHHMM(s)
      case Some(m) => Some(m * 60)
      case None => None
    else if |s| == 8 && s[5] == ':' && IsDigit(s[6]) && IsDigit(s[7])
            && Clock.ParseHHMM(s[..5]).Some? && DigitValue(s[6]) * 10 + DigitValue(s[7]) < 60 then
      Some(Clock.ParseHHMM(s[..5]).value * 60 + DigitValue(s[6]) * 10 + DigitValue(s[7]))
    else None
  }

  /** `new Date(`${fecha}T${hora}`)` as seconds since 0001-01-01 in local time, or `None` for
      an Invalid Date. */
  function Instant(fecha: string, hora: string): Option<int> {
    match Calendar.ParseIso(fecha)
    case None => None
    case Some(d) =>
      match TimeOfDay(hora)
      case None => None
      case Some(t) => Some(Calendar.DayNumber(d) * 86400 + t)
  }

  lemma DayAndTime(n1: int, t1: nat, n2: int, t2: nat)
    requires t1 < 86400 && t2 < 86400
    ensures n1 * 86400 + t1 < n2 * 86400 + t2 <==> n1 < n2 || (n1 == n2 && t1 < t2)
    ensures n1 * 86400 + t1 == n2 * 86400 + t2 <==> n1 == n2 && t1 == t2
  {
    if n1 < n2 {
      assert n1 * 86400 + 86400 <= n2 * 86400;
    } else if n2 < n1 {
      assert n2 * 86400 + 86400 <= n1 * 86400;
    }
  }

  /** Instants order bookings by calendar date first and by time of day within a date. */
  lemma InstantOrder(fa: string, ha: string, fb: string, hb: string)
    requires Instant(fa, ha).Some? && Instant(fb, hb).Some?
    ensures var da, db := Calendar.ParseIso(fa).value, Calendar.ParseIso(fb).value;
      var ta, tb := TimeOfDay(ha).value, TimeOfDay(hb).value;
      (Instant(fa, ha).value < Instant(fb, hb).value <==> Calendar.Before(da, db) || (da == db && ta < tb))
      && (Instant(fa, ha).value == Instant(fb, hb).value <==> da == db && ta == tb)
  {
    var da, db := Calendar.ParseIso(fa).value, Calendar.ParseIso(fb).value;
    Calendar.DayNumberOrder(da, db);
    DayAndTime(Calendar.DayNumber(da), TimeOfDay(ha).value, Calendar.DayNumber(db), TimeOfDay(hb).value);
  }

  /** The sort key of a booking; a record whose date or time does not parse sorts as instant 0. */
  function ChronoKey(r: Reserva): int {
    match Instant(r.fechaReserva, r.horaInicio)
    case Some(t) => t
    case None => 0
  }

  /** `sort((a, b) => dateA - dateB)`. */
  function SortChrono(rs: seq<Reserva>): seq<Reserva> {
    Seqs.SortBy(rs, ChronoKey)
  }

  /** The list `MisReservas` shows: the confirmed bookings, earliest first. */
  function MisReservasList(data: seq<Reserva>): seq<Reserva> {
    SortChrono(Confirmed(data))
  }

  /** The list holds exactly the confirmed bookings of the response, in chronological order. */
  lemma MisReservasListFacts(data: seq<Reserva>)
    ensures Seqs.SortedBy(MisReservasList(data), ChronoKey)
    ensures multiset(MisReservasList(data)) == multiset(Confirmed(data))
    ensures forall r :: r in MisReservasList(data) ==> IsConfirmed(r) && r in data
  {
    Seqs.SortByFacts(Confirmed(data), ChronoKey);
    forall r | r in MisReservasList(data) ensures IsConfirmed(r) && r in data {
      assert r in multiset(Confirmed(data));
      Seqs.FilterMember(data, IsConfirmed, r);
    }
  }

  /** Confirmed bookings of the same instant stay in the order the response lists them. */
  lemma MisReservasListStable(data: seq<Reserva>, k: int)
    ensures Seqs.Filter(MisReservasList(data), Seqs.KeyIs(ChronoKey, k))
         == Seqs.Filter(Confirmed(data), Seqs.KeyIs(ChronoKey, k))
  {
    Seqs.SortStable(Confirmed(data), ChronoKey, k);
  }

  // ---------------------------------------------------------------- removal of a cancelled booking

  function OtherThan(id: int): Reserva -> bool {
    (r: Reserva) => r.idReserva != id
  }

  /** `reservas.filter(r => r.idReserva !== id)`. */
  function RemoveById(rs: seq<Reserva>, id: int): (r: seq<Reserva>)
    ensures forall i :: 0 <= i < |r| ==> r[i].idReserva != id
  {
    Seqs.Filter(rs, OtherThan(id))
  }

  /** Removal drops the bookings with that id and nothing else, keeping the order, so a
      chronologically sorted list stays sorted. */
  lemma RemoveByIdFacts(rs: seq<Reserva>, id: int, x: Reserva)
    ensures multiset(RemoveById(rs, id))[x] == if x.idReserva == id then 0 else multiset(rs)[x]
    ensures Seqs.IsSubsequence(RemoveById(rs, id), rs)
    ensures Seqs.SortedBy(rs, ChronoKey) ==> Seqs.SortedBy(RemoveById(rs, id), ChronoKey)
  {
    Seqs.FilterCount(rs, OtherThan(id), x);
    Seqs.FilterIsSubsequence(rs, OtherThan(id));
    if Seqs.SortedBy(rs, ChronoKey) {
      Seqs.FilterSorted(rs, OtherThan(id), ChronoKey);
    }
  }

  // ---------------------------------------------------------------- search by holder

  /** `r.usuario?.field?.toLowerCase() || ''`. */
  function LowerField(f: Option<string>): string {
    if f.Some? then ToLower(f.value) else ""
  }

  function Holder(r: Reserva): UsuarioRef {
    if r.usuario.Some? then r.usuario.value else UsuarioRef(None, None, None)
  }

  /** The filter callback of `reservasFiltradas`. */
  predicate MatchesSearch(term: string, r: Reserva) {
    if term == "" then true
    else
      var search := ToLower(term);
      var u := Holder(r);
      Includes(LowerField(u.nombre), search) || Includes(LowerField(u.apellido), search)
        || Includes(LowerField(u.dni), search)
  }

  function SearchFilter(term: string): Reserva -> bool {
    (r: Reserva) => MatchesSearch(term, r)
  }

  function Filtered(rs: seq<Reserva>, term: string): (r: seq<Reserva>)
    ensures forall i :: 0 <= i < |r| ==> MatchesSearch(term, r[i])
  {
    Seqs.Filter(rs, SearchFilter(term))
  }

  /** An empty search box shows every booking. */
  lemma SearchEmptyKeepsAll(rs: seq<Reserva>)
    ensures Filtered(rs, "") == rs
  {
    Seqs.FilterKeepsAll(rs, SearchFilter(""));
  }

  /** A non-empty term matches exactly when its lower-case text occurs in the lower-case name,
      surname or DNI of the holder. */
  lemma SearchIff(term: string, r: Reserva)
    requires term != ""
    ensures MatchesSearch(term, r) <==>
      Occurs(LowerField(Holder(r).nombre), ToLower(term)) || Occurs(LowerField(Holder(r).apellido), ToLower(term))
      || Occurs(LowerField(Holder(r).dni), ToLower(term))
  {
    var u, s := Holder(r), ToLower(term);
    IncludesIff(LowerField(u.nombre), s);
    IncludesIff(LowerField(u.apellido), s);
    IncludesIff(LowerField(u.dni), s);
  }

  /** The search shows exactly the matching bookings, and only hides bookings, never reorders them. */
  lemma SearchKeeps(rs: seq<Reserva>, term: string, r: Reserva)
    ensures r in Filtered(rs, term) <==> r in rs && MatchesSearch(term, r)
    ensures Seqs.IsSubsequence(Filtered(rs, term), rs)
  {
    Seqs.FilterCount(rs, SearchFilter(term), r);
    assert r in Filtered(rs, term) <==> r in multiset(Filtered(rs, term));
    Seqs.FilterIsSubsequence(rs, SearchFilter(term));
  }

  /** A booking with no holder matches only the empty term. */
  lemma SearchWithoutHolder(term: string, r: Reserva)
    requires r.usuario.None?
    ensures MatchesSearch(term, r) <==> term == ""
  {
  }

  lemma {:induction false} LowerIdempotent(s: string)
    ensures ToLower(ToLower(s)) == ToLower(s)
  {
    assert forall i :: 0 <= i < |s| ==> LowerChar(LowerChar(s[i])) == LowerChar(s[i]);
  }

  /** The search ignores the case of the term (ASCII letters). */
  lemma SearchCaseInsensitive(term: string, r: Reserva)
    ensures MatchesSearch(ToLower(term), r) == MatchesSearch(term, r)
  {
    LowerIdempotent(term);
  }
}
