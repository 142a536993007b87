# Travel portal handlers and the lock demonstration, modelled in Dafny

This project models the event-handler logic of a classroom travel-booking
portal and one thread-synchronisation demonstration:

- **Bank** (`bank.dfy`): a shared balance `saldo` of 200. `retirar(dinero)`
  makes two withdrawal attempts. Each attempt checks `saldo >= dinero` and
  subtracts inside one `with lock:` block, so it is one atomic step
  (`Account.TryWithdraw`). The two-thread run is an arbitrary serial
  *schedule* of those steps in which each worker appears exactly twice.
- **Stock** (`stock.dfy`): a stock counter that starts at 5. A click lowers it
  by one, never below zero. The screen goes to a warning state below 3, and
  at 0 the button is disabled and reads "¡Sin Stock!".
- **Admin** (`admin.dfy`): the administrator dashboard. It holds the user
  registry keyed by (user, password), per-role user metrics, the add-user
  form, and the cost/discount table. Saving the table writes each row's cost
  and discount only when the new value passes its check.
- **Destinations** (`destinations.dfy`): the inventory manager. It shows the
  total and active destination counts and has a form that appends a
  validated destination.
- **Reservation** (`reservation.dfy`): the client's reservation and the
  handler that edits it. The handler checks the three selections, reads the
  date text up to its first space and the time text's first two
  colon-separated fields, and commits the destination and departure only
  after every step has succeeded.
- **Common** (`common.dfy`): `Option`, `Result`, and Python's
  `str.split(sep)` with its join round-trip.

Each Python global that a handler mutates is a class field: `saldo`,
`SIMULATED_USERS`, `SIMULATED_INVENTORY`, `INVENTORY_DATA` and
`CLIENT_RESERVATION`. The handlers are methods. Each method's postcondition
ties the new state to a specification function, and lemmas prove the
properties of that function. The source's library calls are passed in as
function-valued parameters: `float()`, `int()`, `datetime.strptime`,
`str.strip().title()` and number formatting. `None` stands for the exception
such a call raises, so every property holds for any parser.

## Model

| member | source | states |
|---|---|---|
| `Bank.Account.constructor` | SIS_EJEMPLOS_P_C_CLAS05/Lock.py:4 | the shared balance starts at 200 |
| `Bank.Account.TryWithdraw` | SIS_EJEMPLOS_P_C_CLAS05/Lock.py:10-17 | an attempt is granted exactly when `saldo >= dinero`; a granted attempt subtracts `dinero`, a refused one leaves `saldo` unchanged |
| `Bank.Account.Retirar` | SIS_EJEMPLOS_P_C_CLAS05/Lock.py:7-17 | one call makes exactly two attempts; its outcomes and final balance are those of two serial attempts of `dinero` |
| `Bank.Account.RunSchedule` | SIS_EJEMPLOS_P_C_CLAS05/Lock.py:9-13 | running the locked blocks in any order gives the outcomes and balance of the serial run in that order |
| `Bank.ScheduledAmounts` | SIS_EJEMPLOS_P_C_CLAS05/Lock.py:9-13 | the run has one attempt per scheduled step, and step i withdraws the amount of the worker taking that step |
| `Bank.AttemptEffect` | SIS_EJEMPLOS_P_C_CLAS05/Lock.py:11-17 | the guarded step, restated on the specification: appending one attempt to a run is granted iff the balance covers it; the balance drops by exactly the amount or stays |
| `Bank.RunIsInitialMinusGranted` | SIS_EJEMPLOS_P_C_CLAS05/Lock.py:10-13 | for every serial order of attempts, the final balance is the initial one minus the sum of the granted amounts |
| `Bank.BalanceNeverNegative` | SIS_EJEMPLOS_P_C_CLAS05/Lock.py:11-13 | from a non-negative balance, the balance is non-negative after every prefix of attempts, whatever the amounts |
| `Bank.DemoOutcome` | SIS_EJEMPLOS_P_C_CLAS05/Lock.py:4-20 | for every interleaving of the two workers' two 100-unit attempts on 200, the outcomes in lock order are granted, granted, refused, refused, and the balance ends at 0 |
| `Bank.Demo` | SIS_EJEMPLOS_P_C_CLAS05/Lock.py:19-29 | for the whole demonstration and any interleaving: four attempts, exactly two granted, final balance 0 = 200 minus the granted sum |
| `Stock.StockControl.constructor` | PRUEBA_CALI_EXAMEN_U1/boton.py:8-22 | stock 5 is shown, and the button is enabled, reads "Restar 1" and has the normal colours |
| `Stock.StockControl.BotonClick` | PRUEBA_CALI_EXAMEN_U1/boton.py:24-43 | the new screen is `Click` of the old one, and a consistent screen stays consistent |
| `Stock.ClickEffect` | PRUEBA_CALI_EXAMEN_U1/boton.py:28-30 | the click step, restated on the specification: a click on positive stock lowers it and the label by exactly 1; a click at 0 changes nothing; the stock never goes negative |
| `Stock.ClickDisplay` | PRUEBA_CALI_EXAMEN_U1/boton.py:32-43 | the redraw step, restated on the specification: after a decrement, 0 means disabled, "¡Sin Stock!" and red; 1 or 2 means the warning colours; 3 or more means the normal colours |
| `Stock.ClickPreservesConsistent` | PRUEBA_CALI_EXAMEN_U1/boton.py:28-43 | a click keeps the invariant: stock >= 0, the label shows it, disabled and sold-out text exactly at 0, colours matching the level |
| `Stock.ReachableConsistent` | PRUEBA_CALI_EXAMEN_U1/boton.py:8-43 | every screen reached from the start by clicks satisfies that invariant |
| `Stock.StockAfterClicks` | PRUEBA_CALI_EXAMEN_U1/boton.py:8-29 | after k clicks from the start, the stock is max(0, 5 - k) |
| `Stock.DisabledStaysDisabled` | PRUEBA_CALI_EXAMEN_U1/boton.py:32-34 | once disabled with the sold-out text, the button stays so through any number of clicks; nothing re-enables it |
| `Admin.AdminView.constructor` | PRUEBA_CALI_EXAMEN_U1/Administrador.py:9-28 | the registry and inventory hold the seeded entries, the table has one cell per row, and the form is empty |
| `Admin.AdminView.CreateInventoryTable` | PRUEBA_CALI_EXAMEN_U1/Administrador.py:80-107 | cost cell i and discount cell i keep row index i and show row i's formatted cost and discount |
| `Admin.AdminView.CalculateUserMetrics` | PRUEBA_CALI_EXAMEN_U1/Administrador.py:38-48 | the metrics hold the four role keys plus every role present; each key maps to the number of registry entries with that role (0 for an absent role) |
| `Admin.SumCountsIsEntriesWithListedRole` | PRUEBA_CALI_EXAMEN_U1/Administrador.py:46-48 | each entry is counted once under its own role: the counts over distinct roles sum to the number of entries holding one of them |
| `Admin.CountsAddUpToUsers` | PRUEBA_CALI_EXAMEN_U1/Administrador.py:39-48 | when every entry's role is listed, the role counts sum to the number of registry entries |
| `Admin.InsertRaisesOneCount` | PRUEBA_CALI_EXAMEN_U1/Administrador.py:177 | inserting a fresh key raises its role's count by 1 and leaves every other role's count unchanged |
| `Admin.AdminView.AddNewUser` | PRUEBA_CALI_EXAMEN_U1/Administrador.py:169-196 | an empty field means refusal with nothing changed; an existing (user, password) pair means refusal with nothing changed; otherwise exactly that key is inserted with the chosen role, and the form is cleared |
| `Admin.AddThenRecount` | PRUEBA_CALI_EXAMEN_U1/Administrador.py:176-189 | the metrics are re-computed only after a successful add; then the registry has one more entry, the chosen role's metric is one higher, and every other metric is unchanged |
| `Admin.ApplyCosts` | PRUEBA_CALI_EXAMEN_U1/Administrador.py:145-152 | saving cost cells never changes the inventory's length, any row's name or any row's discount |
| `Admin.ApplyDiscounts` | PRUEBA_CALI_EXAMEN_U1/Administrador.py:154-161 | saving discount cells never changes the inventory's length, any row's name or any row's cost |
| `Admin.AdminView.SaveInventoryChanges` | PRUEBA_CALI_EXAMEN_U1/Administrador.py:141-161 | the new inventory is all cost cells, then all discount cells, applied in list order to the row each cell's `data` names |
| `Admin.CostUntargeted` | PRUEBA_CALI_EXAMEN_U1/Administrador.py:145-150 | a row that no cost cell names keeps its row unchanged |
| `Admin.DiscountUntargeted` | PRUEBA_CALI_EXAMEN_U1/Administrador.py:154-159 | a row that no discount cell names keeps its row unchanged |
| `Admin.UntargetedRowUnchanged` | PRUEBA_CALI_EXAMEN_U1/Administrador.py:141-161 | saving leaves unchanged every row that no cell names |
| `Admin.TableCosts` | PRUEBA_CALI_EXAMEN_U1/Administrador.py:145-152 | with one cell per row, row i gets the parsed cost if it parses and is >= 0, else keeps its old cost |
| `Admin.TableDiscounts` | PRUEBA_CALI_EXAMEN_U1/Administrador.py:154-161 | with one cell per row, row i gets the parsed discount if it parses and lies in 0..100, else keeps its old discount |
| `Admin.SaveTable` | PRUEBA_CALI_EXAMEN_U1/Administrador.py:141-161 | saving the table as built keeps length and names; row i's cost and discount become the checked values of its own two cells |
| `Destinations.DestinationsView.constructor` | PRUEBA_CALI_EXAMEN_U1/Usuario.py:6-11 | the inventory holds the four seeded destinations, and the form is empty |
| `Destinations.CountActive` | PRUEBA_CALI_EXAMEN_U1/Usuario.py:29 | the active count never exceeds the number of entries |
| `Destinations.Summary` | PRUEBA_CALI_EXAMEN_U1/Usuario.py:26-34 | the active-destination count never exceeds the total count |
| `Destinations.SummaryAppend` | PRUEBA_CALI_EXAMEN_U1/Usuario.py:28-29 | appending one entry adds 1 to the total, and adds 1 to the active count when the entry is active |
| `Destinations.NewDestination` | PRUEBA_CALI_EXAMEN_U1/Usuario.py:40-58 | refused as missing exactly when a field is empty; accepted exactly when cost and discount parse and the percentage lies in 0..100 (cost has no range check, so a negative cost passes); the item is the normalised name, the cost, percentage/100 and "Activo" |
| `Destinations.DestinationsView.AddNewDestination` | PRUEBA_CALI_EXAMEN_U1/Usuario.py:36-75 | on acceptance exactly that item is appended at the end and the form is cleared; on refusal the inventory and form are unchanged and the error is reported |
| `Destinations.AddRaisesBothCounts` | PRUEBA_CALI_EXAMEN_U1/Usuario.py:53-60 | a successful add raises both the total count and the active count by exactly 1 |
| `Common.Split` | PRUEBA_CALI_EXAMEN_U1/Cliente.py:70 | `split` always yields at least one piece, and no piece contains the separator |
| `Common.JoinSplit` | PRUEBA_CALI_EXAMEN_U1/Cliente.py:61 | joining the pieces of a split with the separator gives back the original text |
| `Reservation.ReplaceTime` | PRUEBA_CALI_EXAMEN_U1/Cliente.py:72 | `replace` succeeds exactly for hour 0..23 and minute 0..59; the result has those hour and minute values and otherwise equals the input datetime |
| `Reservation.ParseAll` | PRUEBA_CALI_EXAMEN_U1/Cliente.py:70 | `list(map(int, ...))` succeeds exactly when every piece parses, and then holds each piece's value in order |
| `Reservation.SecondsIgnored` | PRUEBA_CALI_EXAMEN_U1/Cliente.py:70 | "H:M:S" gives the same parsed parts as "H:M": seconds are ignored |
| `Reservation.TextTime` | PRUEBA_CALI_EXAMEN_U1/Cliente.py:67-72 | from "H:M" or "H:M:S" text, hour and minute are the parsed H and M; the seconds field, if any, is ignored |
| `Reservation.NoColonNone` | PRUEBA_CALI_EXAMEN_U1/Cliente.py:70-72 | text with no colon gives a single field, so taking its second element fails and there is no hour and minute, whatever the parser does |
| `Reservation.DateFirstWord` | PRUEBA_CALI_EXAMEN_U1/Cliente.py:57-61 | only the text before the first space is parsed as the date |
| `Reservation.DepartureFromText` | PRUEBA_CALI_EXAMEN_U1/Cliente.py:57-72 | the new departure is the parsed day with hour and minute replaced by the parsed H and M |
| `Reservation.OutOfRangeFails` | PRUEBA_CALI_EXAMEN_U1/Cliente.py:72 | an out-of-range hour or minute makes the new departure fail |
| `Reservation.ClientReservation.constructor` | PRUEBA_CALI_EXAMEN_U1/Cliente.py:7-15 | the seeded reservation record, with its departure at 10:00 a week ahead |
| `Reservation.ForeignTimeFails` | PRUEBA_CALI_EXAMEN_U1/Cliente.py:67-72 | a time object that is not an `ft.Time` makes the new departure fail for any hour and minute; the same hour and minute as an `ft.Time` replace those of the selected day |
| `Reservation.ClientReservation.UpdateReservation` | PRUEBA_CALI_EXAMEN_U1/Cliente.py:32-85 | a missing selection means nothing is written; the update succeeds exactly when all three are present and the departure builds; then only `current_destination` and `departure_datetime` change, to the choice and the new departure; any failure leaves both unchanged |

## Left out

- Widget construction, layout, colours beyond the three display states,
  snack bars, dialogs, summary texts, `page.update()` and the `print` error
  lines of `save_inventory_changes`: these are presentation. Feedback is modelled as an outcome value.
- Threads, `threading.Lock`, `time.sleep` and `print` in `Lock.py`: each
  locked block is one atomic method call, and the run of the two threads is a
  schedule (a sequence of workers). This is not real concurrency.
- `SIS_EJEMPLOS_P_C_CLAS05/ejemplo _banco.py` is not part of this model. It
  repeats the lock pattern with three attempts.
- `SIS_EJEMPLOS_P_C_CLAS05/Semáforo.py` is not part of this model. It is a
  counting-semaphore demo: six client threads share one
  `threading.Semaphore(2)` (two cashiers), and at most two are inside
  `with cajeros:` at a time. Its only state is the library semaphore, and it
  lies outside the modelled handlers.
- `SIS_EJEMPLOS_P_C_CLAS05/hilos.py`, `Visitante.py`, `index.py`,
  `Dashboard.py` and the MySQL files are not part of this model. They hold a
  thread demo without shared state, static views, navigation and database
  I/O.
- `create_report`: it uses `random.randint` and float revenue arithmetic.
- `total_value` in `calculate_summary`: float arithmetic.
- Float values are exact `real`s. `float(x) / 100` and its comparison with
  0 and 1 have no rounding.
- `Destinations.NewDestination`: NaN and ±infinity are not modelled, since
  a parser here returns an exact real or fails. The source accepts them where
  nothing checks them: `float("nan")` and `float("inf")` costs are stored,
  and a "nan" percentage passes the 0..100 test, because both comparisons
  with NaN are false, so an item with a NaN discount is appended.
- `Admin.AdminView.SaveInventoryChanges`: ±infinity and NaN costs are not
  modelled. In the source, "inf", or a digit string too large for a float,
  parses to infinity, passes `>= 0` and is stored; a "nan" cost fails
  `>= 0` and is skipped. Discounts go through `int()` and have no such
  values.
- `float()`, `int()`, `datetime.strptime`, `str.strip().title()` and the
  `f"{cost:.2f}"` / `str()` formatting are library behaviour, passed in as
  functions. Their internals are not modelled.
- `Destinations.NewDestination`: the text of the `ValueError` message is
  not modelled. Every data error is `BadData`.
- `Reservation.ClientReservation.UpdateReservation`: the success path for a
  picked time assumes the picker hands over an `ft.Time` (`TimeValue`). The
  Flet library is not part of this model, so whether its seed value, a
  `datetime.time`, is an `ft.Time` is not established here. A time object of
  another class is modelled (`OtherTime`) and fails, as the source's `.split`
  on it would. If `ft.Time` did not exist at all, the `isinstance` test would
  raise and every update would fail; the model does not capture that case.
- `Reservation.ClientReservation.UpdateReservation`: a date picker value that
  is neither a `datetime` nor text (a plain `date`) is not modelled. The
  source catches such a value as an exception, the same outcome as
  `UpdateFailed`.
- `Reservation.ClientReservation.constructor`: the clock is not modelled.
  The caller supplies the instant a week ahead. Adding seven days does not
  change the time of day, so the constructor replaces 10:00 on that instant.
- `Admin.AdminView.SaveInventoryChanges`: it requires every cell's row
  index to exist. The source guarantees this because it builds the cells from
  the same inventory, and nothing changes the inventory's length.
- `Admin.AdminView.AddNewUser`: an unselected role dropdown (`None`) and an
  empty text field are both modelled as the empty string. Both are false in
  the source's test.
- `Stock.StockControl.BotonClick`: the model lets a disabled button be
  clicked. The handler then changes nothing, because the stock is 0.
