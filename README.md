# Clinic scheduling and access control, modelled in Dafny

This project models the logic core of a small clinic-management web application
(patients, staff accounts, room bookings and medical records). Four parts are modelled:

- **Booking admission** (`agendamento`). A request first has to pass the form's choice
  lists: a registered patient, one of the rooms "Sala 1".."Sala 4", and a duration of
  30, 40 or 60 minutes. Its end is then computed, which fails with a server error
  when it falls past the last moment a Python `datetime` holds. Its start must then
  lie in opening hours, from 09:00 to 16:59 or at exactly 17:00. Last, the request's
  half-open interval must clash with none of that room's bookings on the same
  calendar day. Only a request that passes all of these is stored, as one new booking whose physician is the current user. The
  central property is the store invariant that no room is double-booked. The check
  looks at one day only, and the invariant still holds because no admitted booking
  reaches past midnight.
- **Access guards** (`role_required`, `roles_required`) and the table saying which
  guards each view carries. Each guard sends an anonymous requester to the login page.
  It redirects a logged-in user with a role it does not admit to the dashboard, with a
  message that names the admitted roles. Otherwise it lets the view run.
- **Age** (`Patient.calcula_idade` and the same formula inline in `novo_paciente`).
  The age is the year difference, minus one while this year's (month, day) birthday
  is still ahead. It is proved equal to the number of completed years.
- **The medical-record page** (`prontuario`). It lists a patient's entries in
  ascending session order. Its chart series give one `dd/mm/YYYY` label and one text
  length per entry. Adding an entry and creating a staff account are both
  check-then-insert operations on the store.

Files, one module each: `calendar.dfy` holds dates, date-times, their order and the
`%d/%m/%Y` rendering with its inverse. `models.dfy` holds roles, record shapes and age.
`decorators.dfy` holds the guards, `scheduling.dfy` admission and the invariant, and
`ledger.dfy` the listing and chart. `routes.dfy` holds the route table and the
`Clinic` store class with its views.

Modelling choices:

- Booking starts are integer minutes counted from 0001-01-01 00:00: the day is
  `t / 1440` and the clock time `t % 1440`. A `datetime` holds minutes up to, not
  including, 10000-01-01 00:00. Booking forms have minute resolution, so the query
  bound 23:59:59.999999 means the same as 23:59.
- Session times of records are `DateTime` values, because their labels print the date.
- "Today", the set of registered patient ids and the password hash are parameters.
  They come from the clock, the patient table and a hashing library.
- A staff member's function is the closed `Role` datatype with its four stored names.

Behaviour of the code that the model keeps as it is:

- The opening-hours test looks at the start only, so a 17:00 start of any length is
  admitted and runs past closing time.
- The end of a booking is computed before the hours test. From 23:00 on 9999-12-31,
  an end past the `datetime` range raises, and the 500 page is shown (`ServerError`)
  instead of the hours message. `EndOverflowsOnlyAfterHours` shows that only starts
  the hours test would refuse are affected.
- A duration or a patient outside the form's choice lists is not a separate error: the
  form is shown again and nothing is stored (`FormRedisplayed`).
- An anonymous requester is sent to the login page before any role is looked at
  (`LoginPage`), on every view but the two public ones.
- `roles_required('médico')` and `role_required('médico')` reach the same decision.
  Their messages are worded differently ("com as funções médico" against "com a função
  'médico'"), and `SingleRoleSameDecision` proves both facts.

## Model

| member | source | states |
|---|---|---|
| `Models.RolesAreClosed` | models.py:17-21 | Every role is one of exactly four values, the four stored names are distinct, and each name reads back as its role |
| `Models.CalculaIdade` | models.py:50-54 | There is no age exactly when there is no birth date; otherwise the age is that of the birth date |
| `Models.AgeIsCompletedYears` | routes.py:124 | The age is the number of birthdays reached: the age-th anniversary is on or before today and the next one is after it. The inline formula is the same expression as `calcula_idade` |
| `Models.CompletedYearsUnique` | models.py:53 | No other number of years meets that anniversary characterisation |
| `Models.AgeNonNegative` | models.py:53 | Someone born on or before today has a non-negative age |
| `Models.AgeOnBirthday` | models.py:53 | On the birthday the age is the plain year difference, because the tuple comparison is strict |
| `Models.AgeDayBeforeBirthday` | models.py:53 | On every day of the year before the birthday, its eve included, the age is one less than the year difference |
| `Models.AgeMonotonic` | models.py:53 | The age never decreases as today advances |
| `Decorators.RoleRequired` | decorators.py:6-18 | Anonymous requesters get the login response whatever the role; a logged-in user proceeds iff their role is the admitted one; otherwise the verdict is a denial admitting that role, with a message naming it |
| `Decorators.RolesRequired` | decorators.py:20-33 | Anonymous requesters get the login response; a logged-in user proceeds iff their role is among the admitted ones; otherwise the verdict is a denial listing the admitted roles, with a message naming every one of them |
| `Decorators.JoinNamesMentions` | decorators.py:28 | Joining the admitted roles with ", " mentions every admitted role's name |
| `Decorators.NamesRoleInMessage` | decorators.py:14 | The single-role denial message contains the role's name |
| `Decorators.NamesRolesInMessage` | decorators.py:28-29 | The several-role denial message contains each admitted role's name |
| `Decorators.JoinSingle` | decorators.py:28 | Joining one role gives just its name |
| `Decorators.SingleRoleSameDecision` | decorators.py:11-31 | `roles_required(r)` and `role_required(r)` reach the same decision and admit the same roles for every requester, but word the denial differently |
| `Routes.Access` | routes.py:168-170 | On a public view everyone proceeds; on any other view an anonymous requester is sent to log in before any role check |
| `Routes.GuardsRealiseMatrix` | routes.py:48-51 | On every guarded view a requester proceeds iff logged in with a role the permission table admits, is sent to log in iff anonymous, and is denied iff logged in with another role |
| `Routes.OnlyPhysiciansSeeRecords` | routes.py:236-239 | The record page and the two exports let a requester through iff they are a logged-in physician |
| `Routes.Blocked` | decorators.py:11-15 | A guard's login verdict becomes the login page, and a denial becomes a refusal carrying the denial's message |
| `Scheduling.WithinHoursRange` | routes.py:183-184 | A start passes the opening-hours test iff its clock time is from 09:00 to 17:00 inclusive |
| `Scheduling.EndOverflowsOnlyAfterHours` | routes.py:180-184 | Computing the end of a booking with an offered duration leaves the `datetime` range only for a start from 23:00 on 9999-12-31, a start the hours test refuses anyway |
| `Scheduling.WindowBoundaries` | routes.py:184 | On any day 08:59 and 17:01 are refused, and 09:00 and 17:00 are admitted |
| `Scheduling.OverlapsIffSharedMinute` | routes.py:202-204 | For positive durations the overlap test holds iff some minute lies in both half-open intervals |
| `Scheduling.OverlapsSymmetric` | routes.py:204 | The overlap test does not depend on which slot is the request |
| `Scheduling.AdjacentSlotsDoNotOverlap` | routes.py:180 | A slot that starts exactly when another ends does not clash with it, in either order |
| `Scheduling.InDayOfIffSameDay` | routes.py:189-190 | A start lies between the day's first and last moment iff it is on the same calendar day |
| `Scheduling.SameDayInRoom` | routes.py:192-196 | The query returns exactly the bookings of the chosen room that start on the request's day |
| `Scheduling.ScanForConflict` | routes.py:199-206 | The scan reports a conflict iff some selected booking overlaps the request, so stopping at the first one changes nothing |
| `Scheduling.OtherRoomOrDayNeverBlocks` | routes.py:189-196 | Adding a booking in another room or on another day never changes whether a room is busy for a request |
| `Scheduling.DifferentDaysNeverOverlap` | routes.py:184 | Two admitted bookings on different days never overlap, because each starts by 17:00 and lasts at most an hour |
| `Scheduling.DayScopedCheckSuffices` | routes.py:188-206 | A well-formed request that finds no clash on its own day clashes with no booking of its room on any day |
| `Scheduling.AdmitPreservesNoDoubleBooking` | routes.py:208-222 | Appending such a request to a store without double bookings leaves it without double bookings, with every booking still well-formed |
| `Routes.Clinic.Agendamento` | routes.py:168-226 | Anonymous requesters go to log in. A bad form choice, then an end past the `datetime` range (a server error), then a start outside hours, then a busy room each return their own outcome and leave the store unchanged. Otherwise exactly one booking is appended, with the current user as physician and the form's patient, room, start, duration and notes. The invariant is kept |
| `Routes.Clinic.NovoUsuario` | routes.py:48-67 | Only administrators and management get through. An invalid form or a taken username stores nothing. Otherwise exactly one account is appended, with the next id and the form's data. Usernames stay unique |
| `Routes.Clinic.AddEvolucao` | routes.py:139-155 | Only physicians get through. An unknown patient is not found and an invalid form is shown again; neither stores anything. Otherwise exactly one entry is appended, with the current user as author |
| `Routes.Clinic.ProntuarioPage` | routes.py:139-162 | The page is shown iff a physician asks for a registered patient, and then it shows that patient's listing and chart; otherwise the guard's answer or not found is given |
| `Ledger.OfPatient` | routes.py:157 | The query keeps exactly one patient's entries, each as often as the store holds it |
| `Ledger.InsertBySession` | routes.py:157 | Inserting into an ascending listing keeps it ascending and adds exactly the one entry |
| `Ledger.SortBySession` | routes.py:157 | The arrangement is ascending by session time and a permutation of its input |
| `Ledger.ListEntries` | routes.py:157 | The listing is ascending by session time and holds exactly the patient's entries, with their multiplicity |
| `Ledger.ChartOf` | routes.py:157-159 | Labels and values run parallel to the listing; each label reads back as its entry's session date, and each value is its entry's text length |
| `Ledger.Labels` | routes.py:158 | One label per entry, and each reads back as its entry's session date |
| `Ledger.Valores` | routes.py:159 | One value per entry, and each is its entry's text length |
| `Ledger.AppendShowsInListing` | routes.py:145-157 | An appended entry appears once more in its patient's listing and in no other |
| `Calendar.FormatDate` | routes.py:158 | A label is ten characters with slashes at positions 2 and 5 |
| `Calendar.ParseFormatDate` | routes.py:158 | Every label reads back as the date it was made from, so distinct session dates never share a label |

## Left out

- Login, logout, the session and `load_user` are left out. The requester is an input: anonymous, or logged in with an id and a role.
- Password hashing is left out. `NovoUsuario` stores the hash the caller passes in.
- The Word and Excel exports generate files through outside libraries and are not modelled. Only their guards are modelled.
- The dashboard, the detailed dashboard, the patient list and the booking list are not modelled. They are read-only listings, and the dashboard's depends on the wall clock.
- Registering a patient (`novo_paciente`) is plain record insertion and is not modelled. Only its age formula is. Registered patient ids are a parameter.
- The 404 and 500 pages themselves are not modelled. `NotFound` and `ServerError` stand for them, and a server error leaves the store as it was.
- The app configuration and the `create-admin` command are not modelled.
- Concurrency is not modelled. Two simultaneous requests can both pass the room check before either is stored and double-book a room. The model's sequential calls cannot show this.
- Form validation covers the choice lists, the required fields and the length limits of the forms used here. A field counts as blank when it holds only the ten ASCII characters `str.strip` removes: space, tab, line feed, carriage return, vertical tab, form feed and U+001C..U+001F. Non-ASCII spaces such as U+00A0 or U+2028, which `strip` also removes, are not treated as blank.
- `DataRequired` refuses a patient id of 0 because 0 is falsy in Python. The model does not refuse it; stored patient ids start at 1.
- Ledger.SortBySession: SQL leaves the order of entries with equal session times unspecified. The model keeps their store order, and the contract fixes only the ascending order and the contents.
- Calendar.FormatDate: years before 1000 are zero-padded to four digits, while the C library Python uses on Linux prints them unpadded.
- Booking starts are whole minutes, as the form's `%Y-%m-%dT%H:%M` format gives. Seconds are not modelled.
