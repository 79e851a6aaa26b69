/** Admission of a booking request (`agendamento`): the opening-hours check
    on the start, the day-scoped selection of the room's bookings, the
    half-open overlap scan, and the store invariant that no room is
    double-booked.

    Moments are counts of minutes; the day of a moment is `t / 1440` and its
    clock time `t % 1440` (both floor operations, as the divisor is positive). */
module Scheduling {
  import opened Models

  const MinutesPerDay: int := 1440

  /** The day number of 9999-12-31, the last day a `datetime` can hold,
      counting 0001-01-01 as day 0. */
  const LastDay: int := 3652058

  /** A moment a `datetime` can hold: from 0001-01-01 00:00 up to, not
      including, 10000-01-01 00:00. */
  predicate Representable(t: int) {
    0 <= t < (LastDay + 1) * MinutesPerDay
  }

  /** The rooms and durations the booking form offers. */
  const Salas: seq<string> := ["Sala 1", "Sala 2", "Sala 3", "Sala 4"]
  const Duracoes: set<int> := {30, 40, 60}

  function Day(t: int): (day: int) {
    t / MinutesPerDay
  }

  function TimeOfDay(t: int): (m: int)
    ensures 0 <= m < MinutesPerDay
    ensures t == Day(t) * MinutesPerDay + m
  {
    t % MinutesPerDay
  }

  function Hour(t: int): (h: int)
    ensures 0 <= h < 24
  {
    TimeOfDay(t) / 60
  }

  function Minute(t: int): (m: int)
    ensures 0 <= m < 60
  {
    TimeOfDay(t) % 60
  }

  /** The opening-hours test on a start: any start from 09:00 to 16:59, and
      17:00 exactly, whatever the duration. */
  predicate WithinHours(t: int) {
    (9 <= Hour(t) < 17) || (Hour(t) == 17 && Minute(t) == 0)
  }

  /** The window is the closed clock-time range 09:00..17:00. */
  lemma WithinHoursRange(t: int)
    ensures WithinHours(t) <==> 9 * 60 <= TimeOfDay(t) <= 17 * 60
  {
    var m := TimeOfDay(t);
    assert m == Hour(t) * 60 + Minute(t);
  }

  /** 08:59 and 17:01 are refused, 09:00 and 17:00 admitted, on any day. */
  lemma WindowBoundaries(day: int)
    ensures !WithinHours(day * MinutesPerDay + 8 * 60 + 59)
    ensures WithinHours(day * MinutesPerDay + 9 * 60)
    ensures WithinHours(day * MinutesPerDay + 17 * 60)
    ensures !WithinHours(day * MinutesPerDay + 17 * 60 + 1)
  {
    ClockTimeOf(day, 8 * 60 + 59);
    ClockTimeOf(day, 9 * 60);
    ClockTimeOf(day, 17 * 60);
    ClockTimeOf(day, 17 * 60 + 1);
    WithinHoursRange(day * MinutesPerDay + 8 * 60 + 59);
    WithinHoursRange(day * MinutesPerDay + 9 * 60);
    WithinHoursRange(day * MinutesPerDay + 17 * 60);
    WithinHoursRange(day * MinutesPerDay + 17 * 60 + 1);
  }

  lemma ClockTimeOf(day: int, m: int)
    requires 0 <= m < MinutesPerDay
    ensures Day(day * MinutesPerDay + m) == day && TimeOfDay(day * MinutesPerDay + m) == m
  {
    var t := day * MinutesPerDay + m;
    assert t == Day(t) * MinutesPerDay + TimeOfDay(t);
  }

  /** Adding an offered duration to a start leaves the `datetime` range only
      from 23:00 on 9999-12-31, a start that opening hours refuse anyway. */
  lemma EndOverflowsOnlyAfterHours(t: int, d: int)
    requires Representable(t) && d in Duracoes
    requires !Representable(t + d)
    ensures Day(t) == LastDay && TimeOfDay(t) >= 23 * 60
    ensures !WithinHours(t)
  {
    ClockTimeOf(LastDay, t - LastDay * MinutesPerDay);
    WithinHoursRange(t);
  }

  // ---- the overlap test ----

  /** `[s1, s1 + d1)` and `[s2, s2 + d2)` intersect (the half-open rule). */
  predicate Overlaps(s1: int, d1: int, s2: int, d2: int) {
    s1 < s2 + d2 && s1 + d1 > s2
  }

  /** Minute `m` lies in the slot `[s, s + d)`. */
  predicate Occupies(s: int, d: int, m: int) {
    s <= m < s + d
  }

  /** For slots of positive length the test says exactly that some minute
      is occupied by both. */
  lemma OverlapsIffSharedMinute(s1: int, d1: int, s2: int, d2: int)
    requires d1 > 0 && d2 > 0
    ensures Overlaps(s1, d1, s2, d2) <==> exists m :: Occupies(s1, d1, m) && Occupies(s2, d2, m)
  {
    if Overlaps(s1, d1, s2, d2) {
      var m := if s1 < s2 then s2 else s1;
      assert Occupies(s1, d1, m) && Occupies(s2, d2, m);
    }
  }

  lemma OverlapsSymmetric(s1: int, d1: int, s2: int, d2: int)
    ensures Overlaps(s1, d1, s2, d2) <==> Overlaps(s2, d2, s1, d1)
  {
  }

  /** A slot that starts when another ends does not clash with it. */
  lemma AdjacentSlotsDoNotOverlap(s: int, d1: int, d2: int)
    ensures !Overlaps(s, d1, s + d1, d2) && !Overlaps(s + d1, d2, s, d1)
  {
  }

  // ---- the day-scoped selection ----

  /** `inicio_dia <= t <= fim_dia`: from 00:00 to 23:59 of `inicio`'s day
      (minute resolution, so 23:59:59.999999 adds nothing). */
  predicate InDayOf(t: int, inicio: int) {
    Day(inicio) * MinutesPerDay <= t <= Day(inicio) * MinutesPerDay + (23 * 60 + 59)
  }

  lemma InDayOfIffSameDay(t: int, inicio: int)
    ensures InDayOf(t, inicio) <==> Day(t) == Day(inicio)
  {
    ClockTimeOf(Day(t), TimeOfDay(t));
    if InDayOf(t, inicio) {
      ClockTimeOf(Day(inicio), t - Day(inicio) * MinutesPerDay);
    }
  }

  /** The query for bookings of `sala` whose start lies on `inicio`'s day,
      in store order. */
  function SameDayInRoom(store: seq<Appointment>, sala: string, inicio: int): (r: seq<Appointment>)
    ensures |r| <= |store|
    ensures forall a :: a in r <==> a in store && a.sala == sala && Day(a.inicio) == Day(inicio)
  {
    if store == [] then []
    else
      var rest := SameDayInRoom(store[..|store| - 1], sala, inicio);
      var a := store[|store| - 1];
      InDayOfIffSameDay(a.inicio, inicio);
      assert forall x :: x in store <==> x in store[..|store| - 1] || x == a;
      if a.sala == sala && InDayOf(a.inicio, inicio) then rest + [a] else rest
  }

  /** The booking `a` clashes with the requested slot. */
  predicate Clashes(a: Appointment, inicio: int, duracao: int) {
    Overlaps(inicio, duracao, a.inicio, a.duracao)
  }

  /** The scan over the selected bookings, stopping at the first clash: it
      reports a clash exactly when one exists, so stopping early loses
      nothing. */
  method ScanForConflict(candidates: seq<Appointment>, inicio: int, duracao: int) returns (conflito: bool)
    ensures conflito <==> exists a :: a in candidates && Clashes(a, inicio, duracao)
  {
    conflito := false;
    var i := 0;
    while i < |candidates|
      invariant 0 <= i <= |candidates|
      invariant forall j :: 0 <= j < i ==> !Clashes(candidates[j], inicio, duracao)
    {
      var ag := candidates[i];
      var agFim := ag.inicio + ag.duracao;
      if inicio < agFim && inicio + duracao > ag.inicio {
        conflito := true;
        assert ag in candidates && Clashes(ag, inicio, duracao);
        break;
      }
      i := i + 1;
    }
    if !conflito {
      forall a | a in candidates ensures !Clashes(a, inicio, duracao) {
        var j :| 0 <= j < |candidates| && candidates[j] == a;
      }
    }
  }

  /** The room is taken: some booking of `sala` starting on the request's day
      clashes with `[inicio, inicio + duracao)`. */
  ghost predicate RoomBusy(store: seq<Appointment>, sala: string, inicio: int, duracao: int) {
    exists a :: a in store && a.sala == sala && Day(a.inicio) == Day(inicio) && Clashes(a, inicio, duracao)
  }

  /** A booking in another room, or on another day, never makes a room busy. */
  lemma OtherRoomOrDayNeverBlocks(store: seq<Appointment>, x: Appointment, sala: string, inicio: int, duracao: int)
    requires x.sala != sala || Day(x.inicio) != Day(inicio)
    ensures RoomBusy(store + [x], sala, inicio, duracao) <==> RoomBusy(store, sala, inicio, duracao)
  {
    assert forall a :: a in store + [x] <==> a in store || a == x;
  }

  // ---- the store invariant ----

  /** What every admitted booking satisfies: a room and duration the form
      offers, a start inside opening hours, and a start and end that a
      `datetime` holds, so recomputing the end during a later scan never
      fails. */
  predicate WellFormed(a: Appointment) {
    && a.sala in Salas && a.duracao in Duracoes && WithinHours(a.inicio)
    && Representable(a.inicio) && Representable(a.inicio + a.duracao)
  }

  /** No two bookings of the same room overlap. */
  ghost predicate NoDoubleBooking(store: seq<Appointment>) {
    forall i, j :: 0 <= i < j < |store| && store[i].sala == store[j].sala ==>
      !Overlaps(store[i].inicio, store[i].duracao, store[j].inicio, store[j].duracao)
  }

  ghost predicate AllWellFormed(store: seq<Appointment>) {
    forall a :: a in store ==> WellFormed(a)
  }

  /** Bookings on different days never overlap, since each starts by 17:00 and
      lasts at most an hour: no booking reaches past midnight, so looking
      at one day only cannot miss a clash. */
  lemma DifferentDaysNeverOverlap(s1: int, d1: int, s2: int, d2: int)
    requires WithinHours(s1) && WithinHours(s2)
    requires 0 < d1 <= 60 && 0 < d2 <= 60
    requires Day(s1) != Day(s2)
    ensures !Overlaps(s1, d1, s2, d2)
  {
    WithinHoursRange(s1);
    WithinHoursRange(s2);
    if Day(s1) < Day(s2) {
      assert Day(s1) * MinutesPerDay <= Day(s2) * MinutesPerDay - MinutesPerDay;
    } else {
      assert Day(s2) * MinutesPerDay <= Day(s1) * MinutesPerDay - MinutesPerDay;
    }
  }

  /** A well-formed request that finds its room free on its day clashes
      with no booking of that room on any day. */
  lemma DayScopedCheckSuffices(store: seq<Appointment>, a: Appointment)
    requires AllWellFormed(store) && WellFormed(a)
    requires !RoomBusy(store, a.sala, a.inicio, a.duracao)
    ensures forall x :: x in store && x.sala == a.sala ==> !Overlaps(x.inicio, x.duracao, a.inicio, a.duracao)
  {
    forall x | x in store && x.sala == a.sala
      ensures !Overlaps(x.inicio, x.duracao, a.inicio, a.duracao)
    {
      if Day(x.inicio) != Day(a.inicio) {
        DifferentDaysNeverOverlap(x.inicio, x.duracao, a.inicio, a.duracao);
      } else {
        assert !Clashes(x, a.inicio, a.duracao);
      }
    }
  }

  /** Admitting a well-formed request that found its room free keeps every
      room free of double bookings. */
  lemma AdmitPreservesNoDoubleBooking(store: seq<Appointment>, a: Appointment)
    requires NoDoubleBooking(store) && AllWellFormed(store) && WellFormed(a)
    requires !RoomBusy(store, a.sala, a.inicio, a.duracao)
    ensures NoDoubleBooking(store + [a]) && AllWellFormed(store + [a])
  {
    DayScopedCheckSuffices(store, a);
    var s := store + [a];
    forall i, j | 0 <= i < j < |s| && s[i].sala == s[j].sala
      ensures !Overlaps(s[i].inicio, s[i].duracao, s[j].inicio, s[j].duracao)
    {
      if j == |store| {
        assert s[i] in store;
      } else {
        assert s[i] == store[i] && s[j] == store[j];
      }
    }
  }
}
