/** The administrator's dashboard: the user registry keyed by the pair
    (user, password) with a role per entry, the per-role user metrics, the
    "add user" form, and the editable cost/discount table over the
    destination inventory.

    Python's `float(...)` and `int(...)` on a text field, and the
    formatting of numbers into the table's text fields, are library calls;
    they are passed in as functions (`None` stands for a `ValueError`). */
module Admin {
  import opened Common

  const Administrador: string := "Administrador"
  const Usuario: string := "Usuario"
  const Cliente: string := "Cliente"
  const Visitante: string := "Visitante"
  /** The four roles the metrics always report (and the role dropdown offers). */
  const Roles: seq<string> := [Administrador, Usuario, Cliente, Visitante]

  /** A registry key: (user name, password). */
  type Credential = (string, string)

  datatype InventoryRow = InventoryRow(name: string, cost: real, discountPercent: int)

  /** An editable table cell: the row index kept in its `data`, and its text. */
  datatype EditField = EditField(row: int, text: string)

  datatype AddUserOutcome = UserAdded | UserExists | MissingFields

  function SeedUsers(): map<Credential, string>
  {
    map[("admin", "admin123") := Administrador,
        ("user", "user123") := Usuario,
        ("client", "client123") := Cliente,
        ("visit", "visit123") := Visitante,
        ("jfernandez", "pass1") := Usuario,
        ("mrodriguez", "pass2") := Cliente,
        ("testguest", "12345") := Visitante]
  }

  function SeedInventory(): seq<InventoryRow>
  {
    [InventoryRow("Tour de Machu Picchu", 450.00, 10),
     InventoryRow("Cataratas del Iguazú", 320.00, 5),
     InventoryRow("Desierto de Atacama", 500.00, 0),
     InventoryRow("Río Amazonas Aventura", 750.00, 15),
     InventoryRow("Playas de Cancún", 280.00, 10),
     InventoryRow("Islas Galápagos", 900.00, 20)]
  }

  // ---------------------------------------------------------------------
  // User metrics

  function UsersWithRole(users: map<Credential, string>, role: string): set<Credential>
  {
    set k | k in users && users[k] == role
  }

  /** Number of registry entries whose role is `role`. */
  function RoleCount(users: map<Credential, string>, role: string): nat
  {
    |UsersWithRole(users, role)|
  }

  /** The sum of the role counts over `roles`. */
  function SumCounts(users: map<Credential, string>, roles: seq<string>): nat
    decreases |roles|
  {
    if |roles| == 0 then 0
    else SumCounts(users, roles[..|roles| - 1]) + RoleCount(users, roles[|roles| - 1])
  }

  predicate Distinct(roles: seq<string>)
  {
    forall i, j :: 0 <= i < j < |roles| ==> roles[i] != roles[j]
  }

  /** Each entry is counted exactly once, under its own role: summing the
      counts over distinct roles gives the number of entries holding one
      of them. */
  lemma {:induction false} SumCountsIsEntriesWithListedRole(users: map<Credential, string>, roles: seq<string>)
    requires Distinct(roles)
    ensures SumCounts(users, roles) == |set k | k in users && users[k] in roles|
    decreases |roles|
  {
    if |roles| == 0 {
      assert (set k | k in users && users[k] in roles) == {};
    } else {
      var n := |roles| - 1;
      var front := roles[..n];
      SumCountsIsEntriesWithListedRole(users, front);
      var a := set k | k in users && users[k] in front;
      var b := UsersWithRole(users, roles[n]);
      assert roles[n] !in front by {
        forall i | 0 <= i < n ensures front[i] != roles[n] { assert roles[i] != roles[n]; }
      }
      assert a * b == {};
      assert (set k | k in users && users[k] in roles) == a + b by {
        forall k | k in users ensures users[k] in roles <==> users[k] in front || users[k] == roles[n] {
          assert roles == front + [roles[n]];
        }
      }
    }
  }

  /** When every entry's role is among distinct `roles`, the counts add up
      to the number of registry entries. */
  lemma CountsAddUpToUsers(users: map<Credential, string>, roles: seq<string>)
    requires Distinct(roles)
    requires forall k :: k in users ==> users[k] in roles
    ensures SumCounts(users, roles) == |users|
  {
    SumCountsIsEntriesWithListedRole(users, roles);
    assert (set k | k in users && users[k] in roles) == users.Keys;
  }

  /** Inserting a fresh key raises its role's count by one and leaves
      every other role's count as it was. */
  lemma InsertRaisesOneCount(users: map<Credential, string>, key: Credential, role: string)
    requires key !in users
    ensures RoleCount(users[key := role], role) == RoleCount(users, role) + 1
    ensures forall r :: r != role ==> RoleCount(users[key := role], r) == RoleCount(users, r)
  {
    var after := users[key := role];
    assert UsersWithRole(after, role) == UsersWithRole(users, role) + {key};
    forall r | r != role
      ensures RoleCount(after, r) == RoleCount(users, r)
    {
      assert UsersWithRole(after, r) == UsersWithRole(users, r);
    }
  }

  /** Entries among `seen` whose role is `role`, counted. */
  ghost function Tally(users: map<Credential, string>, seen: set<Credential>, role: string): nat
  {
    |set k | k in seen && k in users && users[k] == role|
  }

  ghost function RolesOf(users: map<Credential, string>, seen: set<Credential>): set<string>
  {
    set k | k in seen && k in users :: users[k]
  }

  /** Visiting one more entry adds one to its own role's tally only. */
  lemma TallyStep(users: map<Credential, string>, seen: set<Credential>, key: Credential)
    requires key in users && key !in seen
    ensures forall r :: (Tally(users, seen + {key}, r) ==
                         Tally(users, seen, r) + (if users[key] == r then 1 else 0))
    ensures RolesOf(users, seen + {key}) == RolesOf(users, seen) + {users[key]}
    ensures users[key] !in RolesOf(users, seen) ==> Tally(users, seen, users[key]) == 0
  {
    forall r ensures Tally(users, seen + {key}, r) == Tally(users, seen, r) + (if users[key] == r then 1 else 0) {
      var a := set k | k in seen && k in users && users[k] == r;
      if users[key] == r {
        assert (set k | k in seen + {key} && k in users && users[k] == r) == a + {key};
      } else {
        assert (set k | k in seen + {key} && k in users && users[k] == r) == a;
      }
    }
    if users[key] !in RolesOf(users, seen) {
      assert (set k | k in seen && k in users && users[k] == users[key]) == {};
    }
  }

  // ---------------------------------------------------------------------
  // Saving the cost/discount table

  predicate FieldsIn(fields: seq<EditField>, rows: int)
  {
    forall i :: 0 <= i < |fields| ==> 0 <= fields[i].row < rows
  }

  /** The table as `create_inventory_table` builds it: cell i edits row i. */
  predicate TableShaped(fields: seq<EditField>, rows: int)
  {
    |fields| == rows && forall i :: 0 <= i < |fields| ==> fields[i].row == i
  }

  /** The cost a row keeps after its cell is saved: the parsed value if it
      parses and is not negative, the old cost otherwise. */
  function StoredCost(was: real, parsed: Option<real>): real
  {
    if parsed.Some? && parsed.value >= 0.0 then parsed.value else was
  }

  /** The discount a row keeps: the parsed percentage if it parses and lies
      in 0..100, the old discount otherwise. */
  function StoredDiscount(was: int, parsed: Option<int>): int
  {
    if parsed.Some? && 0 <= parsed.value <= 100 then parsed.value else was
  }

  /** The cost cells saved one after the other, in list order. */
  function ApplyCosts(inv: seq<InventoryRow>, fields: seq<EditField>, parseFloat: string -> Option<real>): (r: seq<InventoryRow>)
    requires FieldsIn(fields, |inv|)
    ensures |r| == |inv|
    ensures forall i :: 0 <= i < |inv| ==>
      r[i].name == inv[i].name && r[i].discountPercent == inv[i].discountPercent
    decreases |fields|
  {
    if |fields| == 0 then inv
    else
      var before := ApplyCosts(inv, fields[..|fields| - 1], parseFloat);
      var f := fields[|fields| - 1];
      before[f.row := before[f.row].(cost := StoredCost(before[f.row].cost, parseFloat(f.text)))]
  }

  /** The discount cells saved one after the other, in list order. */
  function ApplyDiscounts(inv: seq<InventoryRow>, fields: seq<EditField>, parseInt: string -> Option<int>): (r: seq<InventoryRow>)
    requires FieldsIn(fields, |inv|)
    ensures |r| == |inv|
    ensures forall i :: 0 <= i < |inv| ==> r[i].name == inv[i].name && r[i].cost == inv[i].cost
    decreases |fields|
  {
    if |fields| == 0 then inv
    else
      var before := ApplyDiscounts(inv, fields[..|fields| - 1], parseInt);
      var f := fields[|fields| - 1];
      before[f.row := before[f.row].(discountPercent := StoredDiscount(before[f.row].discountPercent, parseInt(f.text)))]
  }

  /** A row that no cell points at is left exactly as it was. */
  lemma {:induction false} UntargetedRowUnchanged(inv: seq<InventoryRow>, costFields: seq<EditField>,
                                                 discountFields: seq<EditField>, parseFloat: string -> Option<real>,
                                                 parseInt: string -> Option<int>, i: int)
    requires FieldsIn(costFields, |inv|) && FieldsIn(discountFields, |inv|)
    requires 0 <= i < |inv|
    requires forall j :: 0 <= j < |costFields| ==> costFields[j].row != i
    requires forall j :: 0 <= j < |discountFields| ==> discountFields[j].row != i
    ensures ApplyDiscounts(ApplyCosts(inv, costFields, parseFloat), discountFields, parseInt)[i] == inv[i]
  {
    CostUntargeted(inv, costFields, parseFloat, i);
    DiscountUntargeted(ApplyCosts(inv, costFields, parseFloat), discountFields, parseInt, i);
  }

  lemma {:induction false} CostUntargeted(inv: seq<InventoryRow>, fields: seq<EditField>, parseFloat: string -> Option<real>, i: int)
    requires FieldsIn(fields, |inv|) && 0 <= i < |inv|
    requires forall j :: 0 <= j < |fields| ==> fields[j].row != i
    ensures ApplyCosts(inv, fields, parseFloat)[i] == inv[i]
    decreases |fields|
  {
    if |fields| > 0 {
      CostUntargeted(inv, fields[..|fields| - 1], parseFloat, i);
    }
  }

  lemma {:induction false} DiscountUntargeted(inv: seq<InventoryRow>, fields: seq<EditField>, parseInt: string -> Option<int>, i: int)
    requires FieldsIn(fields, |inv|) && 0 <= i < |inv|
    requires forall j :: 0 <= j < |fields| ==> fields[j].row != i
    ensures ApplyDiscounts(inv, fields, parseInt)[i] == inv[i]
    decreases |fields|
  {
    if |fields| > 0 {
      DiscountUntargeted(inv, fields[..|fields| - 1], parseInt, i);
    }
  }

  /** With one cost cell per row, cell i decides row i's cost alone. */
  lemma {:induction false} TableCosts(inv: seq<InventoryRow>, fields: seq<EditField>, parseFloat: string -> Option<real>)
    requires |fields| <= |inv| && forall j :: 0 <= j < |fields| ==> fields[j].row == j
    ensures FieldsIn(fields, |inv|)
    ensures forall i :: 0 <= i < |fields| ==>
      ApplyCosts(inv, fields, parseFloat)[i].cost == StoredCost(inv[i].cost, parseFloat(fields[i].text))
    ensures forall i :: |fields| <= i < |inv| ==> ApplyCosts(inv, fields, parseFloat)[i] == inv[i]
    decreases |fields|
  {
    if |fields| > 0 {
      var n := |fields| - 1;
      TableCosts(inv, fields[..n], parseFloat);
    }
  }

  /** With one discount cell per row, cell i decides row i's discount alone. */
  lemma {:induction false} TableDiscounts(inv: seq<InventoryRow>, fields: seq<EditField>, parseInt: string -> Option<int>)
    requires |fields| <= |inv| && forall j :: 0 <= j < |fields| ==> fields[j].row == j
    ensures FieldsIn(fields, |inv|)
    ensures forall i :: 0 <= i < |fields| ==>
      ApplyDiscounts(inv, fields, parseInt)[i].discountPercent == StoredDiscount(inv[i].discountPercent, parseInt(fields[i].text))
    ensures forall i :: |fields| <= i < |inv| ==> ApplyDiscounts(inv, fields, parseInt)[i] == inv[i]
    decreases |fields|
  {
    if |fields| > 0 {
      var n := |fields| - 1;
      TableDiscounts(inv, fields[..n], parseInt);
    }
  }

  /** Saving the table as built: every row keeps its name, and its cost and
      discount become the checked values of its own two cells. */
  lemma SaveTable(inv: seq<InventoryRow>, costFields: seq<EditField>, discountFields: seq<EditField>,
                  parseFloat: string -> Option<real>, parseInt: string -> Option<int>)
    requires TableShaped(costFields, |inv|) && TableShaped(discountFields, |inv|)
    ensures FieldsIn(costFields, |inv|) && FieldsIn(discountFields, |inv|)
    ensures var r := ApplyDiscounts(ApplyCosts(inv, costFields, parseFloat), discountFields, parseInt);
      |r| == |inv| &&
      forall i :: 0 <= i < |inv| ==>
        r[i] == InventoryRow(inv[i].name,
                             StoredCost(inv[i].cost, parseFloat(costFields[i].text)),
                             StoredDiscount(inv[i].discountPercent, parseInt(discountFields[i].text)))
  {
    TableCosts(inv, costFields, parseFloat);
    TableDiscounts(ApplyCosts(inv, costFields, parseFloat), discountFields, parseInt);
  }

  // ---------------------------------------------------------------------
  // The dashboard's shared state and its handlers

  class AdminView {
    var users: map<Credential, string>
    var inventory: seq<InventoryRow>
    var costFields: seq<EditField>
    var discountFields: seq<EditField>
    var usernameField: string
    var passwordField: string
    /** The role dropdown; "" when nothing is selected. */
    var roleField: string

    /** Every table cell points at an existing inventory row. */
    predicate Valid()
      reads this
    {
      FieldsIn(costFields, |inventory|) && FieldsIn(discountFields, |inventory|)
    }

    constructor (formatCost: real -> string, formatPercent: int -> string)
      ensures Valid()
      ensures users == SeedUsers() && inventory == SeedInventory()
      ensures TableShaped(costFields, |inventory|) && TableShaped(discountFields, |inventory|)
      ensures usernameField == "" && passwordField == "" && roleField == ""
    {
      users := SeedUsers();
      inventory := SeedInventory();
      costFields := [];
      discountFields := [];
      usernameField := "";
      passwordField := "";
      roleField := "";
      new;
      CreateInventoryTable(formatCost, formatPercent);
    }

    /** `create_inventory_table`: one cost cell and one discount cell per
        row, each remembering its row index and showing the current value. */
    method CreateInventoryTable(formatCost: real -> string, formatPercent: int -> string)
      modifies this`costFields, this`discountFields
      ensures Valid()
      ensures TableShaped(costFields, |inventory|) && TableShaped(discountFields, |inventory|)
      ensures forall i :: 0 <= i < |inventory| ==>
        costFields[i].text == formatCost(inventory[i].cost) &&
        discountFields[i].text == formatPercent(inventory[i].discountPercent)
    {
      costFields := [];
      discountFields := [];
      for i := 0 to |inventory|
        invariant |costFields| == i && |discountFields| == i
        invariant forall j :: 0 <= j < i ==>
          costFields[j] == EditField(j, formatCost(inventory[j].cost)) &&
          discountFields[j] == EditField(j, formatPercent(inventory[j].discountPercent))
      {
        costFields := costFields + [EditField(i, formatCost(inventory[i].cost))];
        discountFields := discountFields + [EditField(i, formatPercent(inventory[i].discountPercent))];
      }
    }

    /** `calculate_user_metrics`: the four roles start at 0 and every entry
        adds one to its own role (creating the key for any other role). */
    method CalculateUserMetrics() returns (metrics: map<string, int>)
      ensures forall r :: r in Roles ==> r in metrics
      ensures metrics.Keys == (set r | r in Roles) + users.Values
      ensures forall r :: r in metrics ==> metrics[r] == RoleCount(users, r)
    {
      metrics := map[Administrador := 0, Usuario := 0, Cliente := 0, Visitante := 0];
      var pending := users.Keys;
      ghost var seen: set<Credential> := {};
      while pending != {}
        invariant pending !! seen && pending + seen == users.Keys
        invariant metrics.Keys == (set r | r in Roles) + RolesOf(users, seen)
        invariant forall r :: r in metrics ==> metrics[r] == Tally(users, seen, r)
        decreases pending
      {
        var key :| key in pending;
        var role := users[key];
        var current := if role in metrics then metrics[role] else 0;
        TallyStep(users, seen, key);
        metrics := metrics[role := current + 1];
        pending := pending - {key};
        seen := seen + {key};
      }
      forall r | r in metrics ensures metrics[r] == RoleCount(users, r) {
        assert Tally(users, seen, r) == RoleCount(users, r) by {
          assert (set k | k in seen && k in users && users[k] == r) == UsersWithRole(users, r);
        }
      }
      assert RolesOf(users, seen) == users.Values;
    }

    /** `save_inventory_changes`: every cost cell, then every discount cell,
        is parsed and, when it passes its check, stored into the row its
        `data` names; a cell that fails leaves that row's value as it was. */
    method SaveInventoryChanges(parseFloat: string -> Option<real>, parseInt: string -> Option<int>)
      requires Valid()
      modifies this`inventory
      ensures Valid()
      ensures inventory == ApplyDiscounts(ApplyCosts(old(inventory), costFields, parseFloat), discountFields, parseInt)
    {
      ghost var start := inventory;
      for i := 0 to |costFields|
        invariant inventory == ApplyCosts(start, costFields[..i], parseFloat)
      {
        var index := costFields[i].row;
        assert costFields[..i + 1][..i] == costFields[..i];
        match parseFloat(costFields[i].text) {
          case Some(newCost) =>
            if newCost >= 0.0 {
              inventory := inventory[index := inventory[index].(cost := newCost)];
            }
          case None =>
        }
      }
      assert costFields[..|costFields|] == costFields;
      ghost var costed := inventory;
      for i := 0 to |discountFields|
        invariant inventory == ApplyDiscounts(costed, discountFields[..i], parseInt)
      {
        var index := discountFields[i].row;
        assert discountFields[..i + 1][..i] == discountFields[..i];
        match parseInt(discountFields[i].text) {
          case Some(newDiscount) =>
            if 0 <= newDiscount <= 100 {
              inventory := inventory[index := inventory[index].(discountPercent := newDiscount)];
            }
          case None =>
        }
      }
      assert discountFields[..|discountFields|] == discountFields;
    }

    /** `add_new_user`: insert (user, password) -> role when all three
        fields are filled and the pair is new, then clear the form. */
    method AddNewUser() returns (outcome: AddUserOutcome)
      modifies this`users, this`usernameField, this`passwordField, this`roleField
      ensures outcome == MissingFields <==> old(usernameField) == "" || old(passwordField) == "" || old(roleField) == ""
      ensures outcome == UserExists <==> outcome != MissingFields && (old(usernameField), old(passwordField)) in old(users)
      ensures outcome == UserAdded ==>
        users == old(users)[(old(usernameField), old(passwordField)) := old(roleField)] &&
        usernameField == "" && passwordField == "" && roleField == ""
      ensures outcome != UserAdded ==>
        users == old(users) &&
        usernameField == old(usernameField) && passwordField == old(passwordField) && roleField == old(roleField)
    {
      var newUser, newPass, newRole := usernameField, passwordField, roleField;
      if newUser != "" && newPass != "" && newRole != "" {
        if (newUser, newPass) !in users {
          users := users[(newUser, newPass) := newRole];
          usernameField, passwordField, roleField := "", "", "";
          outcome := UserAdded;
        } else {
          outcome := UserExists;
        }
      } else {
        outcome := MissingFields;
      }
    }
  }

  /** A successful add shows up in the re-computed metrics: the chosen
      role's card goes up by one, the others stay, and the registry now
      holds exactly one more entry. The metrics are re-computed only after
      a successful add, as the handler refreshes the cards only then; after
      a refusal they are the empty map. */
  method AddThenRecount(view: AdminView) returns (outcome: AddUserOutcome, metrics: map<string, int>)
    modifies view`users, view`usernameField, view`passwordField, view`roleField
    ensures outcome == UserAdded ==>
      |view.users| == |old(view.users)| + 1 &&
      old(view.roleField) in metrics &&
      metrics[old(view.roleField)] == RoleCount(old(view.users), old(view.roleField)) + 1 &&
      forall r :: r in metrics && r != old(view.roleField) ==> metrics[r] == RoleCount(old(view.users), r)
    ensures outcome != UserAdded ==> metrics == map[]
  {
    ghost var before := view.users;
    ghost var role := view.roleField;
    ghost var key := (view.usernameField, view.passwordField);
    outcome := view.AddNewUser();
    metrics := map[];
    if outcome == UserAdded {
      metrics := view.CalculateUserMetrics();
      InsertRaisesOneCount(before, key, role);
      assert role in view.users.Values by { assert view.users[key] == role; }
    }
  }
}
