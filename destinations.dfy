/** The inventory manager's screen: the list of travel destinations, the
    summary counts (total and active destinations) and the form that
    appends a new destination after validating it.

    `float(...)` on a text field and `.strip().title()` on the name are
    library calls; they are passed in as functions (`None` stands for a
    `ValueError`). Costs and discounts are exact reals. */
module Destinations {
  import opened Common

  const Activo: string := "Activo"
  const Inactivo: string := "Inactivo"

  /** One inventory entry; `discount` is a fraction (0.10 for 10%). */
  datatype Destination = Destination(name: string, cost: real, discount: real, status: string)

  /** Why the form was refused: an empty field, or data that `float` could
      not read or a percentage outside 0..100 (both a `ValueError`). */
  datatype FormError = MissingFields | BadData

  /** The feedback line under the form. */
  datatype Feedback = NoFeedback | Refused(error: FormError) | Added(name: string)

  function SeedDestinations(): seq<Destination>
  {
    [Destination("Ciudad Antigua", 550.00, 0.10, Activo),
     Destination("Playas del Sol", 899.50, 0.00, Activo),
     Destination("Montaña Escondida", 320.00, 0.25, Inactivo),
     Destination("Mercado Local", 150.00, 0.05, Activo)]
  }

  // ---------------------------------------------------------------------
  // Summary counts

  /** `sum(1 for item in inventory if item["status"] == "Activo")`. */
  function CountActive(inv: seq<Destination>): (r: nat)
    ensures r <= |inv|
    decreases |inv|
  {
    if |inv| == 0 then 0
    else (if inv[0].status == Activo then 1 else 0) + CountActive(inv[1..])
  }

  /** The two counts of `calculate_summary`: (total, active). */
  function Summary(inv: seq<Destination>): (r: (nat, nat))
    ensures r.1 <= r.0
  {
    (|inv|, CountActive(inv))
  }

  /** Appending one entry adds one to the total and, if the entry is
      active, one to the active count. */
  lemma {:induction false} SummaryAppend(inv: seq<Destination>, d: Destination)
    ensures Summary(inv + [d]).0 == Summary(inv).0 + 1
    ensures Summary(inv + [d]).1 == Summary(inv).1 + (if d.status == Activo then 1 else 0)
    decreases |inv|
  {
    if |inv| > 0 {
      SummaryAppend(inv[1..], d);
      assert (inv + [d])[1..] == inv[1..] + [d];
    } else {
      assert [] + [d] == [d];
    }
  }

  // ---------------------------------------------------------------------
  // The add-destination form

  /** What `add_new_destination` makes of the form: every field must be
      non-empty, cost and discount must parse, and the percentage must lie
      in 0..100. The cost has no range check, so a negative cost passes. */
  function NewDestination(name: string, costText: string, discountText: string,
                          parseFloat: string -> Option<real>, titleCase: string -> string): (r: Result<Destination, FormError>)
    ensures r == Err(MissingFields) <==> name == "" || costText == "" || discountText == ""
    ensures r.Ok? <==>
      && name != "" && costText != "" && discountText != ""
      && parseFloat(costText).Some? && parseFloat(discountText).Some?
      && 0.0 <= parseFloat(discountText).value <= 100.0
    ensures r.Ok? ==>
      r.value == Destination(titleCase(name), parseFloat(costText).value, parseFloat(discountText).value / 100.0, Activo)
  {
    if name == "" || costText == "" || discountText == "" then Err(MissingFields)
    else
      match parseFloat(costText)
      case None => Err(BadData)
      case Some(cost) =>
        match parseFloat(discountText)
        case None => Err(BadData)
        case Some(percent) =>
          var discount := percent / 100.0;
          if discount < 0.0 || discount > 1.0 then Err(BadData)
          else Ok(Destination(titleCase(name), cost, discount, Activo))
  }

  class DestinationsView {
    var inventory: seq<Destination>
    var nameField: string
    var costField: string
    var discountField: string
    var feedback: Feedback

    constructor ()
      ensures inventory == SeedDestinations()
      ensures nameField == "" && costField == "" && discountField == "" && feedback == NoFeedback
    {
      inventory := SeedDestinations();
      nameField, costField, discountField := "", "", "";
      feedback := NoFeedback;
    }

    /** `add_new_destination`: validate the form, append the new entry at
        the end and clear the form, or leave everything but the feedback
        as it was. */
    method AddNewDestination(parseFloat: string -> Option<real>, titleCase: string -> string)
      modifies this
      ensures match NewDestination(old(nameField), old(costField), old(discountField), parseFloat, titleCase)
        case Ok(d) =>
          && inventory == old(inventory) + [d]
          && nameField == "" && costField == "" && discountField == ""
          && feedback == Added(d.name)
        case Err(e) =>
          && inventory == old(inventory)
          && nameField == old(nameField) && costField == old(costField) && discountField == old(discountField)
          && feedback == Refused(e)
    {
      if nameField == "" || costField == "" || discountField == "" {
        feedback := Refused(MissingFields);
        return;
      }
      match parseFloat(costField)
      case None =>
        feedback := Refused(BadData);
      case Some(cost) =>
        match parseFloat(discountField)
        case None =>
          feedback := Refused(BadData);
        case Some(percent) =>
          var discount := percent / 100.0;
          if discount < 0.0 || discount > 1.0 {
            feedback := Refused(BadData);
          } else {
            var item := Destination(titleCase(nameField), cost, discount, Activo);
            inventory := inventory + [item];
            nameField, costField, discountField := "", "", "";
            feedback := Added(item.name);
          }
    }
  }

  /** A successful add raises both summary counts by exactly one, so the
      active count still does not exceed the total. */
  lemma AddRaisesBothCounts(inv: seq<Destination>, name: string, costText: string, discountText: string,
                            parseFloat: string -> Option<real>, titleCase: string -> string)
    requires NewDestination(name, costText, discountText, parseFloat, titleCase).Ok?
    ensures var after := inv + [NewDestination(name, costText, discountText, parseFloat, titleCase).value];
      Summary(after) == (Summary(inv).0 + 1, Summary(inv).1 + 1)
  {
    SummaryAppend(inv, NewDestination(name, costText, discountText, parseFloat, titleCase).value);
  }
}
