/** The views of the clinic application: which guards each one carries, and
    the three views that change the store — creating a staff account,
    booking a room, and adding an entry to a patient's record — plus the
    record page itself. The store is a `Clinic` object whose tables are
    sequences that the views extend. */
module Routes {
  import opened Calendar
  import opened Models
  import opened Decorators
  import opened Scheduling
  import opened Ledger

  datatype Route =
    | Index | Login | Logout | NovoUsuario | Dashboard | DashboardDetalhado
    | NovoPaciente | ListaPacientes | Prontuario | Agendamento | ListaAgendamentos
    | ExportarDocx | ExportarXlsx

  /** The decorators stacked on a view, outermost first. */
  datatype Guard =
    | Public
    | LoginRequired
    | LoginAndRole(role: Role)
    | LoginAndRoles(roles: seq<Role>)

  /** The decorators each view is declared with. */
  function GuardOf(route: Route): (g: Guard) {
    match route
    case Index => Public
    case Login => Public
    case NovoUsuario => LoginAndRoles([Administrador, Gerencia])
    case Prontuario => LoginAndRoles([Medico])
    case ExportarDocx => LoginAndRole(Medico)
    case ExportarXlsx => LoginAndRole(Medico)
    case _ => LoginRequired
  }

  /** The decision for a request to `route`: `login_required` runs first and
      sends anonymous requesters to the login page, then the role guard, if
      any. */
  function Access(route: Route, actor: Actor): (v: Verdict)
    ensures GuardOf(route).Public? ==> v == Proceed
    ensures !GuardOf(route).Public? && actor.Anonymous? ==> v == Unauthenticated
  {
    match GuardOf(route)
    case Public => Proceed
    case LoginRequired => if actor.Anonymous? then Unauthenticated else Proceed
    case LoginAndRole(role) => if actor.Anonymous? then Unauthenticated else RoleRequired(role, actor)
    case LoginAndRoles(roles) => if actor.Anonymous? then Unauthenticated else RolesRequired(roles, actor)
  }

  /** The permission matrix: who may use each view once logged in. */
  function AllowedRoles(route: Route): (roles: set<Role>) {
    if route == NovoUsuario then {Administrador, Gerencia}
    else if route in {Prontuario, ExportarDocx, ExportarXlsx} then {Medico}
    else AllRoles
  }

  /** The guards realise the matrix: on every view but the two public ones a
      requester gets through exactly when logged in with an admitted role,
      is sent to log in when anonymous, and is otherwise turned away with a
      message. */
  lemma GuardsRealiseMatrix(route: Route, actor: Actor)
    requires route != Index && route != Login
    ensures Access(route, actor) == Proceed <==> actor.LoggedIn? && actor.funcao in AllowedRoles(route)
    ensures Access(route, actor) == Unauthenticated <==> actor.Anonymous?
    ensures Access(route, actor).Denied? <==> actor.LoggedIn? && actor.funcao !in AllowedRoles(route)
  {
    RolesAreClosed();
  }

  /** Only physicians read or extend medical records or export them. */
  lemma OnlyPhysiciansSeeRecords(actor: Actor)
    ensures Access(Prontuario, actor) == Proceed <==> actor.LoggedIn? && actor.funcao == Medico
    ensures Access(ExportarDocx, actor) == Proceed <==> actor.LoggedIn? && actor.funcao == Medico
    ensures Access(ExportarXlsx, actor) == Proceed <==> actor.LoggedIn? && actor.funcao == Medico
  {
    if actor.LoggedIn? {
      assert actor.funcao in [Medico] <==> actor.funcao == Medico;
    }
  }

  // ---- the store and the views that change it ----

  /** What a view answers. */
  datatype Outcome =
    | LoginPage                  // sent to log in
    | Refused(message: string)   // role not admitted: message, back to the dashboard
    | NotFound                   // no such patient (404)
    | FormRedisplayed            // the form did not validate
    | OutsideHours               // start outside 09:00–17:00
    | RoomTaken                  // the room is occupied then
    | UsernameTaken              // an account with that username exists
    | Saved                      // the row was inserted
    | ServerError                // an uncaught exception: rollback and the 500 page

  /** Turns a guard's refusal into the view's answer. */
  function Blocked(v: Verdict): (o: Outcome)
    requires v != Proceed
    ensures v.Unauthenticated? <==> o == LoginPage
    ensures v.Denied? ==> o == Refused(v.message)
  {
    if v.Unauthenticated? then LoginPage else Refused(v.message)
  }

  /** The account form as typed in; the role is one of the offered choices. */
  datatype UserForm = UserForm(username: string, senha: string, nomeCompleto: string, funcao: Role)

  /** The booking form; the start is a count of minutes. */
  datatype AppointmentForm = AppointmentForm(
    pacienteId: int, sala: string, dataHora: int, duracao: int, observacoes: string)

  /** The record-entry form. */
  datatype RecordForm = RecordForm(dataSessao: DateTime, evolucao: string)

  /** The booking form validates when its start parses as a `datetime` and
      its choices are among those offered: a registered patient, one of the
      rooms, one of the durations. */
  predicate AppointmentFormValid(form: AppointmentForm, pacientes: set<int>) {
    && Representable(form.dataHora)
    && form.pacienteId in pacientes && form.sala in Salas && form.duracao in Duracoes
  }

  /** The ASCII characters `str.strip` removes: space, tab, line feed,
      carriage return, vertical tab, form feed and the four information
      separators U+001C..U+001F. */
  predicate IsBlank(c: char) {
    || c == ' ' || c == '\t' || c == '\n' || c == '\r' || c == '\U{0B}' || c == '\U{0C}'
    || c == '\U{1C}' || c == '\U{1D}' || c == '\U{1E}' || c == '\U{1F}'
  }

  /** A required text field is filled in: something other than blanks. */
  predicate Filled(s: string) {
    exists i :: 0 <= i < |s| && !IsBlank(s[i])
  }

  /** The record form validates when the session moment is a real date-time
      and the text is filled in. */
  predicate RecordFormValid(form: RecordForm) {
    ValidDateTime(form.dataSessao) && Filled(form.evolucao)
  }

  /** The account form validates when the username has 3 to 80 characters,
      the password at least 6 and the full name at most 120, all filled in. */
  predicate UserFormValid(form: UserForm) {
    && Filled(form.username) && 3 <= |form.username| <= 80
    && Filled(form.senha) && |form.senha| >= 6
    && Filled(form.nomeCompleto) && |form.nomeCompleto| <= 120
  }

  predicate HasUsername(users: seq<User>, username: string) {
    exists u :: u in users && u.username == username
  }

  ghost predicate UsernamesUnique(users: seq<User>) {
    forall i, j :: 0 <= i < j < |users| ==> users[i].username != users[j].username
  }

  class Clinic {
    var users: seq<User>
    var appointments: seq<Appointment>
    var records: seq<MedicalRecord>

    /** Usernames are unique, ids count up from 1, no room is double-booked,
        every booking passed the admission checks, and every session moment
        is a real date-time. */
    ghost predicate Valid()
      reads this
    {
      && UsernamesUnique(users)
      && (forall i :: 0 <= i < |users| ==> users[i].id == i + 1)
      && NoDoubleBooking(appointments)
      && AllWellFormed(appointments)
      && (forall e :: e in records ==> ValidDateTime(e.dataSessao))
    }

    constructor ()
      ensures Valid()
      ensures users == [] && appointments == [] && records == []
    {
      users, appointments, records := [], [], [];
    }

    /** `novo_usuario`: administrators and management only; a form that does
        not validate or a taken username stores nothing; otherwise exactly
        one account is added, holding `senhaHash`, the hash the caller made
        of the typed password. */
    method NovoUsuario(actor: Actor, form: UserForm, senhaHash: string) returns (outcome: Outcome)
      requires Valid()
      modifies this
      ensures Valid()
      ensures appointments == old(appointments) && records == old(records)
      ensures Access(Route.NovoUsuario, actor) != Proceed ==>
        outcome == Blocked(Access(Route.NovoUsuario, actor)) && users == old(users)
      ensures Access(Route.NovoUsuario, actor) == Proceed && !UserFormValid(form) ==>
        outcome == FormRedisplayed && users == old(users)
      ensures (Access(Route.NovoUsuario, actor) == Proceed && UserFormValid(form)
               && HasUsername(old(users), form.username)) ==>
        outcome == UsernameTaken && users == old(users)
      ensures (Access(Route.NovoUsuario, actor) == Proceed && UserFormValid(form)
               && !HasUsername(old(users), form.username)) ==>
        outcome == Saved
        && users == old(users) + [User(|old(users)| + 1, form.username, senhaHash, form.nomeCompleto, form.funcao)]
    {
      var verdict := Access(Route.NovoUsuario, actor);
      if verdict != Proceed {
        return Blocked(verdict);
      }
      if !UserFormValid(form) {
        return FormRedisplayed;
      }
      if HasUsername(users, form.username) {
        return UsernameTaken;
      }
      users := users + [User(|users| + 1, form.username, senhaHash, form.nomeCompleto, form.funcao)];
      outcome := Saved;
    }

    /** `agendamento`: any logged-in user books for themself as the
        physician. The form's choices are checked; the end is computed,
        which fails with a server error past the `datetime` range; then the
        opening hours and the room on that day are checked. Only a request
        passing all of these is stored, as exactly one new booking. */
    method Agendamento(actor: Actor, form: AppointmentForm, pacientes: set<int>) returns (outcome: Outcome)
      requires Valid()
      modifies this
      ensures Valid()
      ensures users == old(users) && records == old(records)
      ensures actor.Anonymous? ==> outcome == LoginPage && appointments == old(appointments)
      ensures actor.LoggedIn? && !AppointmentFormValid(form, pacientes) ==>
        outcome == FormRedisplayed && appointments == old(appointments)
      ensures actor.LoggedIn? && AppointmentFormValid(form, pacientes)
              && !Representable(form.dataHora + form.duracao) ==>
        outcome == ServerError && appointments == old(appointments)
      ensures (actor.LoggedIn? && AppointmentFormValid(form, pacientes)
               && Representable(form.dataHora + form.duracao) && !WithinHours(form.dataHora)) ==>
        outcome == OutsideHours && appointments == old(appointments)
      ensures (actor.LoggedIn? && AppointmentFormValid(form, pacientes)
               && Representable(form.dataHora + form.duracao) && WithinHours(form.dataHora)
               && RoomBusy(old(appointments), form.sala, form.dataHora, form.duracao)) ==>
        outcome == RoomTaken && appointments == old(appointments)
      ensures (actor.LoggedIn? && AppointmentFormValid(form, pacientes)
               && Representable(form.dataHora + form.duracao) && WithinHours(form.dataHora)
               && !RoomBusy(old(appointments), form.sala, form.dataHora, form.duracao)) ==>
        outcome == Saved
        && appointments == old(appointments)
           + [Appointment(form.pacienteId, actor.id, form.sala, form.dataHora, form.duracao, form.observacoes)]
    {
      var verdict := Access(Route.Agendamento, actor);
      if verdict != Proceed {
        return Blocked(verdict);
      }
      if !AppointmentFormValid(form, pacientes) {
        return FormRedisplayed;
      }
      var novoInicio := form.dataHora;
      var duracaoMin := form.duracao;
      if !Representable(novoInicio + duracaoMin) {
        return ServerError;
      }
      if !WithinHours(novoInicio) {
        return OutsideHours;
      }
      var agendamentosNoDia := SameDayInRoom(appointments, form.sala, novoInicio);
      var conflito := ScanForConflict(agendamentosNoDia, novoInicio, duracaoMin);
      assert conflito <==> RoomBusy(appointments, form.sala, novoInicio, duracaoMin);
      if conflito {
        return RoomTaken;
      }
      var novo := Appointment(form.pacienteId, actor.id, form.sala, novoInicio, duracaoMin, form.observacoes);
      AdmitPreservesNoDoubleBooking(appointments, novo);
      appointments := appointments + [novo];
      outcome := Saved;
    }

    /** `prontuario` on submission: physicians only, for a registered
        patient; a valid entry is appended with the current user as author. */
    method AddEvolucao(actor: Actor, pacienteId: int, pacientes: set<int>, form: RecordForm)
      returns (outcome: Outcome)
      requires Valid()
      modifies this
      ensures Valid()
      ensures users == old(users) && appointments == old(appointments)
      ensures Access(Route.Prontuario, actor) != Proceed ==>
        outcome == Blocked(Access(Route.Prontuario, actor)) && records == old(records)
      ensures Access(Route.Prontuario, actor) == Proceed && pacienteId !in pacientes ==>
        outcome == NotFound && records == old(records)
      ensures Access(Route.Prontuario, actor) == Proceed && pacienteId in pacientes && !RecordFormValid(form) ==>
        outcome == FormRedisplayed && records == old(records)
      ensures Access(Route.Prontuario, actor) == Proceed && pacienteId in pacientes && RecordFormValid(form) ==>
        outcome == Saved
        && records == old(records) + [MedicalRecord(pacienteId, actor.id, form.dataSessao, form.evolucao)]
    {
      var verdict := Access(Route.Prontuario, actor);
      if verdict != Proceed {
        return Blocked(verdict);
      }
      if pacienteId !in pacientes {
        return NotFound;
      }
      if !RecordFormValid(form) {
        return FormRedisplayed;
      }
      records := records + [MedicalRecord(pacienteId, actor.id, form.dataSessao, form.evolucao)];
      outcome := Saved;
    }

    /** `prontuario` when displayed: the guard, then the patient lookup, then
        the listing and chart of that patient's entries. */
    function ProntuarioPage(actor: Actor, pacienteId: int, pacientes: set<int>): (r: Page)
      reads this
      requires Valid()
      ensures r.Shown? <==> Access(Route.Prontuario, actor) == Proceed && pacienteId in pacientes
      ensures Access(Route.Prontuario, actor) != Proceed ==> r == NotShown(Blocked(Access(Route.Prontuario, actor)))
      ensures Access(Route.Prontuario, actor) == Proceed && pacienteId !in pacientes ==> r == NotShown(NotFound)
      ensures r.Shown? ==> r.chart == ChartOf(records, pacienteId)
    {
      var verdict := Access(Route.Prontuario, actor);
      if verdict != Proceed then NotShown(Blocked(verdict))
      else if pacienteId !in pacientes then NotShown(NotFound)
      else Shown(ChartOf(records, pacienteId))
    }
  }

  /** The record page, or the answer given instead of it. */
  datatype Page = Shown(chart: Chart) | NotShown(outcome: Outcome)

  /** In Sala 1, a booking from 10:00 to 10:30 blocks 10:15 for 40 minutes
      but not 10:30 for 30. */
  method BookingScenario() {
    var clinic := new Clinic();
    var doctor := LoggedIn(7, Medico);
    var day := 20000;
    ClockTimeOf(day, 10 * 60);
    ClockTimeOf(day, 10 * 60 + 15);
    ClockTimeOf(day, 10 * 60 + 30);
    WithinHoursRange(day * MinutesPerDay + 10 * 60);
    WithinHoursRange(day * MinutesPerDay + 10 * 60 + 15);
    WithinHoursRange(day * MinutesPerDay + 10 * 60 + 30);

    var o := clinic.Agendamento(doctor, AppointmentForm(1, "Sala 1", day * MinutesPerDay + 10 * 60, 30, ""), {1});
    assert o == Saved;
    var booked := clinic.appointments[0];

    o := clinic.Agendamento(doctor, AppointmentForm(1, "Sala 1", day * MinutesPerDay + 10 * 60 + 15, 40, ""), {1});
    assert booked in clinic.appointments && Clashes(booked, day * MinutesPerDay + 10 * 60 + 15, 40);
    assert o == RoomTaken;

    o := clinic.Agendamento(doctor, AppointmentForm(1, "Sala 1", day * MinutesPerDay + 10 * 60 + 30, 30, ""), {1});
    assert o == Saved;
  }

  /** The same clock time on the next day is free, 08:45 is refused, and
      23:30 on the last day a `datetime` holds fails before the hours are
      looked at. */
  method BookingEdgeScenario() {
    var clinic := new Clinic();
    var doctor := LoggedIn(7, Medico);
    var day := 20000;
    ClockTimeOf(day, 10 * 60);
    ClockTimeOf(day + 1, 10 * 60);
    ClockTimeOf(day, 8 * 60 + 45);
    WithinHoursRange(day * MinutesPerDay + 10 * 60);
    WithinHoursRange((day + 1) * MinutesPerDay + 10 * 60);
    WithinHoursRange(day * MinutesPerDay + 8 * 60 + 45);

    var o := clinic.Agendamento(doctor, AppointmentForm(1, "Sala 1", day * MinutesPerDay + 10 * 60, 30, ""), {1});
    assert o == Saved;

    o := clinic.Agendamento(doctor, AppointmentForm(1, "Sala 1", (day + 1) * MinutesPerDay + 10 * 60, 30, ""), {1});
    assert o == Saved;

    o := clinic.Agendamento(doctor, AppointmentForm(1, "Sala 1", day * MinutesPerDay + 8 * 60 + 45, 30, ""), {1});
    assert o == OutsideHours;

    o := clinic.Agendamento(doctor, AppointmentForm(1, "Sala 1", LastDay * MinutesPerDay + 23 * 60 + 30, 30, ""), {1});
    assert o == ServerError;
  }
}
