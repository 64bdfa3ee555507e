/** The grid of bookable 90-minute slots that `src/pages/Reservas.jsx` and
    `src/pages/ReservasViejo.jsx` generate: starts at 08:00, 09:30, ..., 21:30. The loop
    variable of the source counts hours in steps of 1.5; here it counts minutes in steps of 90,
    which takes the same values exactly. */
module Slots {
  import opened Js
  import Clock
  import Reservations

  /** One generated slot. */
  datatype Horario = Horario(id: nat, horaInicio: string, horaFin: string, disponible: bool)

  const FirstStart: nat := 8 * 60
  const LastStart: nat := 22 * 60
  const SlotMinutes: nat := 90
  const SlotCount: nat := 10

  function StartMinute(k: nat): nat { FirstStart + SlotMinutes * k }

  /** The slot at position `k` of the grid, as the loop builds it. */
  function SlotAt(k: nat, free: (nat, string) -> bool): Horario
    requires k < SlotCount
  {
    var h := Clock.FormatHHMM(StartMinute(k));
    Horario(k + 1, h, Clock.FormatHHMM(StartMinute(k) + SlotMinutes), free(k, h))
  }

  /** The whole grid; `free(k, horaInicio)` decides `disponible` for the slot at position `k`. */
  function Grid(free: (nat, string) -> bool): (g: seq<Horario>)
    ensures |g| == SlotCount
  {
    seq(SlotCount, k requires 0 <= k < SlotCount => SlotAt(k, free))
  }

  /** Extending a prefix of the grid by the slot at the next position. */
  lemma GridStep(free: (nat, string) -> bool, n: nat)
    requires n < SlotCount
    ensures Grid(free)[..n + 1] == Grid(free)[..n] + [SlotAt(n, free)]
  {
    assert Grid(free)[n] == SlotAt(n, free);
  }

  /** `for (let hour = 8; hour <= 22; hour += 1.5) horarios.push({ id: horarios.length + 1, ... })`. */
  method GenerateHorarios(free: (nat, string) -> bool) returns (horarios: seq<Horario>)
    ensures horarios == Grid(free)
  {
    horarios := [];
    var minute := FirstStart;
    while minute <= LastStart
      invariant |horarios| <= SlotCount
      invariant minute == StartMinute(|horarios|)
      invariant horarios == Grid(free)[..|horarios|]
      decreases LastStart + SlotMinutes - minute
    {
      var n := |horarios|;
      var horaInicio := Clock.FormatHHMM(minute);
      var horaFin := Clock.FormatHHMM(minute + SlotMinutes);
      var slot := Horario(n + 1, horaInicio, horaFin, free(n, horaInicio));
      assert n < SlotCount;
      assert slot == SlotAt(n, free);
      GridStep(free, n);
      horarios := horarios + [slot];
      minute := minute + SlotMinutes;
    }
    assert |horarios| == SlotCount;
  }

  /** `h` has the id and times of position `k` of the grid, whatever its availability. */
  predicate IsSlotOf(h: Horario, k: nat) {
    k < SlotCount && h.id == k + 1 && h.horaInicio == Clock.FormatHHMM(StartMinute(k))
      && h.horaFin == Clock.FormatHHMM(StartMinute(k) + SlotMinutes)
  }

  predicate IsSlot(h: Horario) {
    exists k :: 0 <= k < SlotCount && IsSlotOf(h, k)
  }

  /** Ten slots with ids 1..10 in grid order. */
  lemma GridSlots(free: (nat, string) -> bool, k: nat)
    requires k < SlotCount
    ensures IsSlotOf(Grid(free)[k], k) && Grid(free)[k].id == k + 1
    ensures Grid(free)[k].disponible == free(k, Grid(free)[k].horaInicio)
  {
  }

  /** The first slot starts at 08:00 and the last one ends at 23:00. */
  lemma GridBounds(free: (nat, string) -> bool)
    ensures Grid(free)[0].horaInicio == "08:00"
    ensures Grid(free)[SlotCount - 1].horaFin == "23:00"
  {
    assert Clock.Pad2(8) == "08" && Clock.Pad2(0) == "00" && Clock.Pad2(23) == "23";
    assert Clock.FormatHHMM(480) == "08:00";
    assert Clock.FormatHHMM(1380) == "23:00";
  }

  /** Each slot ends where the next one starts. */
  lemma GridContiguous(free: (nat, string) -> bool, k: nat)
    requires k + 1 < SlotCount
    ensures Grid(free)[k].horaFin == Grid(free)[k + 1].horaInicio
  {
    assert StartMinute(k) + SlotMinutes == StartMinute(k + 1);
  }

  /** Every slot starts between 08:00 and 22:00 and ends by 23:00. */
  lemma StartBounds(k: nat)
    requires k < SlotCount
    ensures FirstStart <= StartMinute(k) <= LastStart
    ensures StartMinute(k) + SlotMinutes <= 23 * 60 < Clock.MinutesPerDay
  {
  }

  /** The times of a slot at position `k` read back as that position's start and end. */
  lemma SlotOfTimes(h: Horario, k: nat)
    requires IsSlotOf(h, k)
    ensures Clock.ParseHHMM(h.horaInicio) == Some(StartMinute(k))
    ensures Clock.ParseHHMM(h.horaFin) == Some(StartMinute(k) + SlotMinutes)
  {
    StartBounds(k);
    Clock.ParseFormat(StartMinute(k));
    Clock.ParseFormat(StartMinute(k) + SlotMinutes);
  }

  /** Each slot lasts exactly 90 minutes. */
  lemma GridDuration(free: (nat, string) -> bool, k: nat)
    requires k < SlotCount
    ensures Clock.ParseHHMM(Grid(free)[k].horaInicio) == Some(StartMinute(k))
    ensures Clock.ParseHHMM(Grid(free)[k].horaFin) == Some(StartMinute(k) + SlotMinutes)
  {
    GridSlots(free, k);
    SlotOfTimes(Grid(free)[k], k);
  }

  /** No two slots start at the same time, so a booking's start time blocks at most one slot. */
  lemma GridDistinct(free: (nat, string) -> bool, j: nat, k: nat)
    requires j < k < SlotCount
    ensures Grid(free)[j].horaInicio != Grid(free)[k].horaInicio
  {
    Clock.FormatInjective(StartMinute(j), StartMinute(k));
  }

  /** Whether some confirmed booking starts at `horaInicio`: the `some` of `Reservas.jsx`. */
  predicate Occupied(existing: seq<Reservations.Reserva>, horaInicio: string) {
    exists i :: 0 <= i < |existing| && existing[i].horaInicio == horaInicio
      && Reservations.IsConfirmed(existing[i])
  }

  /** Availability after a successful lookup: free unless a confirmed booking starts then. */
  function FreeGiven(existing: seq<Reservations.Reserva>): (nat, string) -> bool {
    (k: nat, h: string) => !Occupied(existing, h)
  }

  /** Availability of the fallback grid built when the lookup fails. */
  function AllFree(): (nat, string) -> bool {
    (k: nat, h: string) => true
  }

  /** A slot is offered exactly when no confirmed booking of that court and day starts at its
      start time; cancelled or pending bookings never block a slot. */
  lemma OccupancyIff(existing: seq<Reservations.Reserva>, k: nat)
    requires k < SlotCount
    ensures Grid(FreeGiven(existing))[k].disponible <==>
      forall i :: 0 <= i < |existing| && existing[i].horaInicio == Grid(FreeGiven(existing))[k].horaInicio
                  ==> !Reservations.IsConfirmed(existing[i])
  {
  }

  /** When the lookup fails every slot is offered. */
  lemma FallbackAllFree(k: nat)
    requires k < SlotCount
    ensures Grid(AllFree())[k].disponible
  {
  }

  /** Availability is the only thing the lookup changes: the times and ids are fixed. */
  lemma GridTimesFixed(free1: (nat, string) -> bool, free2: (nat, string) -> bool, k: nat)
    requires k < SlotCount
    ensures Grid(free1)[k].(disponible := true) == Grid(free2)[k].(disponible := true)
  {
  }
}
