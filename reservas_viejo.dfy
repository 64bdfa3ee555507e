/** The earlier mock booking page of `src/pages/ReservasViejo.jsx`: fixed courts, a slot grid
    whose availability is drawn at random, and a booking that only resets the selection. The
    random draws are an input: `random(k)` says whether draw `k` exceeded 0.3. */
module ReservasViejo {
  import opened Js
  import Calendar
  import Slots

  /** The three mock courts. */
  const MockCanchas: seq<Obj> := [
    map["idCancha" := Num(1), "numero" := Str("1"), "tipo" := Str("indoor")],
    map["idCancha" := Num(2), "numero" := Str("2"), "tipo" := Str("outdoor")],
    map["idCancha" := Num(3), "numero" := Str("3"), "tipo" := Str("indoor")]
  ]

  function RandomFree(random: nat -> bool): (nat, string) -> bool {
    (k: nat, h: string) => random(k)
  }

  class Page {
    var selectedDate: Calendar.Date
    var selectedCancha: string
    /** The selected slot's id, or `''`. */
    var selectedHorario: Value
    var canchas: seq<Obj>
    var horarios: seq<Slots.Horario>

    constructor(today: Calendar.Date)
      ensures selectedDate == today && selectedCancha == "" && selectedHorario == Str("")
      ensures canchas == [] && horarios == []
    {
      selectedDate := today;
      selectedCancha := "";
      selectedHorario := Str("");
      canchas := [];
      horarios := [];
    }

    /** The mount effect: the fixed court list. */
    method LoadCanchas()
      modifies this
      ensures canchas == MockCanchas
      ensures selectedDate == old(selectedDate) && selectedCancha == old(selectedCancha)
      ensures selectedHorario == old(selectedHorario) && horarios == old(horarios)
    {
      canchas := MockCanchas;
    }

    /** The slot effect that follows a change of day or court: a fresh random grid once a
        court is chosen. The selected slot is left as it was. */
    method SlotsEffect(random: nat -> bool)
      modifies this
      ensures horarios == if old(selectedCancha) != "" then Slots.Grid(RandomFree(random)) else old(horarios)
      ensures selectedDate == old(selectedDate) && selectedCancha == old(selectedCancha)
      ensures selectedHorario == old(selectedHorario) && canchas == old(canchas)
    {
      if selectedCancha != "" {
        horarios := Slots.GenerateHorarios(RandomFree(random));
      }
    }

    /** A day button: selects the day only; the selected slot survives. */
    method SelectDate(day: Calendar.Date)
      modifies this
      ensures selectedDate == day
      ensures selectedCancha == old(selectedCancha) && selectedHorario == old(selectedHorario)
      ensures canchas == old(canchas) && horarios == old(horarios)
    {
      selectedDate := day;
    }

    /** The court select: selects the court only. */
    method SelectCancha(value: string)
      modifies this
      ensures selectedCancha == value
      ensures selectedDate == old(selectedDate) && selectedHorario == old(selectedHorario)
      ensures canchas == old(canchas) && horarios == old(horarios)
    {
      selectedCancha := value;
    }

    /** A slot button: an offered slot's id becomes the selection. */
    method ClickHorario(k: nat)
      requires k < |horarios|
      modifies this
      ensures selectedHorario == if old(horarios[k].disponible) then Num(old(horarios[k].id)) else old(selectedHorario)
      ensures selectedDate == old(selectedDate) && selectedCancha == old(selectedCancha)
      ensures canchas == old(canchas) && horarios == old(horarios)
    {
      if horarios[k].disponible {
        selectedHorario := Num(horarios[k].id);
      }
    }

    /** `handleReserva`: with a court and a slot id selected it confirms and clears both. */
    method HandleReserva() returns (confirmed: bool)
      modifies this
      ensures confirmed <==> old(selectedCancha) != "" && Truthy(old(selectedHorario))
      ensures confirmed ==> selectedCancha == "" && selectedHorario == Str("")
      ensures !confirmed ==> selectedCancha == old(selectedCancha) && selectedHorario == old(selectedHorario)
      ensures selectedDate == old(selectedDate) && canchas == old(canchas) && horarios == old(horarios)
    {
      if selectedCancha == "" || !Truthy(selectedHorario) {
        confirmed := false;
      } else {
        selectedCancha := "";
        selectedHorario := Str("");
        confirmed := true;
      }
    }
  }

  /** Pick court 1 and the first slot, then another day whose draw marks that slot taken:
      the booking is still confirmed, for a slot the page shows as not available. */
  method StaleSelectionBooked(today: Calendar.Date, other: Calendar.Date)
    returns (offered: bool, confirmed: bool)
    ensures !offered && confirmed
  {
    var p := new Page(today);
    p.SelectCancha("1");
    p.SlotsEffect((k: nat) => true);
    Slots.GridSlots(RandomFree((k: nat) => true), 0);
    p.ClickHorario(0);
    p.SelectDate(other);
    p.SlotsEffect((k: nat) => false);
    Slots.GridSlots(RandomFree((k: nat) => false), 0);
    offered := p.horarios[0].disponible;
    confirmed := p.HandleReserva();
  }
}
