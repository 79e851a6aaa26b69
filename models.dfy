/** The clinic's records: the staff roles, users, appointments and
    medical-record entries, and the patient's age computed from a birth date. */
module Models {
  import opened Calendar

  /** The closed set of staff functions (`UserRole`). */
  datatype Role = Administrador | Medico | Gerencia | Recepcao

  /** The string stored in `User.funcao` for each role. */
  function RoleName(r: Role): (s: string)
    ensures |s| > 0
  {
    match r
    case Administrador => "administrador"
    case Medico => "médico"
    case Gerencia => "gerencia"
    case Recepcao => "recepcao"
  }

  /** The role whose stored name is `s`, if any. */
  function RoleOf(s: string): (r: Option<Role>)
    ensures r.Some? ==> RoleName(r.value) == s
  {
    if s == "administrador" then Some(Administrador)
    else if s == "médico" then Some(Medico)
    else if s == "gerencia" then Some(Gerencia)
    else if s == "recepcao" then Some(Recepcao)
    else None
  }

  const AllRoles: set<Role> := {Administrador, Medico, Gerencia, Recepcao}

  /** The enumeration has exactly four members, each with its own name, and
      each name reads back as its role. */
  lemma RolesAreClosed()
    ensures forall r: Role :: r in AllRoles
    ensures |AllRoles| == 4
    ensures forall r: Role :: RoleOf(RoleName(r)) == Some(r)
    ensures forall r1: Role, r2: Role :: RoleName(r1) == RoleName(r2) ==> r1 == r2
  {
    assert AllRoles == {Administrador, Medico, Gerencia} + {Recepcao};
    assert |{Administrador, Medico, Gerencia}| == 3 by {
      assert {Administrador, Medico, Gerencia} == {Administrador, Medico} + {Gerencia};
    }
    forall r: Role ensures r in AllRoles && RoleOf(RoleName(r)) == Some(r) {
      match r
      case Administrador =>
      case Medico =>
        assert RoleName(r) != "administrador" by { assert RoleName(r)[0] != 'a'; }
      case Gerencia =>
        assert RoleName(r) != "administrador" && RoleName(r) != "médico" by { assert RoleName(r)[0] == 'g'; }
      case Recepcao =>
        assert RoleName(r)[0] == 'r';
    }
  }

  /** A staff account (`User`); `senha` holds a password hash. */
  datatype User = User(id: int, username: string, senha: string, nomeCompleto: string, funcao: Role)

  /** A booked slot (`Appointment`): the start is a count of minutes, the
      duration a number of minutes. */
  datatype Appointment = Appointment(
    pacienteId: int, medicoId: int, sala: string, inicio: int, duracao: int, observacoes: string)

  /** A clinical note (`MedicalRecord`). */
  datatype MedicalRecord = MedicalRecord(
    pacienteId: int, medicoId: int, dataSessao: DateTime, evolucao: string)

  // ---- age (Patient.calcula_idade and the inline formula of novo_paciente) ----

  /** Completed years between `birth` and `today`: the year difference, less
      one while this year's birthday, compared as a (month, day) pair, is
      still ahead. */
  function Age(birth: Date, today: Date): (years: int) {
    today.year - birth.year
      - (if MonthDayBefore(today.month, today.day, birth.month, birth.day) then 1 else 0)
  }

  /** `calcula_idade`: no age without a birth date. */
  function CalculaIdade(birth: Option<Date>, today: Date): (r: Option<int>)
    ensures r.None? <==> birth.None?
    ensures birth.Some? ==> r.value == Age(birth.value, today)
  {
    match birth
    case None => None
    case Some(b) => Some(Age(b, today))
  }

  /** The `k`-th birthday, as a (possibly non-existent, e.g. 29 February)
      triple compared field by field. */
  function Anniversary(birth: Date, k: int): (d: Date) {
    Date(birth.year + k, birth.month, birth.day)
  }

  /** The age is the number of birthdays reached: the `Age`-th anniversary is
      on or before today and the next one is after it. */
  lemma AgeIsCompletedYears(birth: Date, today: Date)
    ensures DateLe(Anniversary(birth, Age(birth, today)), today)
    ensures !DateLe(Anniversary(birth, Age(birth, today) + 1), today)
  {
  }

  /** Only one number of years satisfies that characterisation. */
  lemma CompletedYearsUnique(birth: Date, today: Date, k: int)
    requires DateLe(Anniversary(birth, k), today)
    requires !DateLe(Anniversary(birth, k + 1), today)
    ensures k == Age(birth, today)
  {
  }

  /** Someone born no later than today has a non-negative age. */
  lemma AgeNonNegative(birth: Date, today: Date)
    requires DateLe(birth, today)
    ensures Age(birth, today) >= 0
  {
  }

  /** On the birthday itself the age is the plain year difference, because
      the tuple comparison is strict. */
  lemma AgeOnBirthday(birth: Date, year: int)
    ensures Age(birth, Date(year, birth.month, birth.day)) == year - birth.year
  {
  }

  /** The age never decreases as today advances. */
  lemma AgeMonotonic(birth: Date, today1: Date, today2: Date)
    requires DateLe(today1, today2)
    ensures Age(birth, today1) <= Age(birth, today2)
  {
  }

  /** On any day of the year before the birthday, the eve included (also
      the last day of the previous month for a birthday on the 1st), the age
      is still one less than the year difference. */
  lemma AgeDayBeforeBirthday(birth: Date, today: Date)
    requires MonthDayBefore(today.month, today.day, birth.month, birth.day)
    ensures Age(birth, today) == today.year - birth.year - 1
  {
  }
}
