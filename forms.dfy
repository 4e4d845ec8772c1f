/**
 * The two form rules shared by both builds: the name fallback of
 * `updateCarOnPage` (with the `carIdForChange` and `previousName` globals
 * that `focusOnInput` sets) and the empty-name check of `addCreatedCar`.
 */
module Forms {
  import opened Wrappers

  const EmptyNameMessage := "Please, enter the car name!"

  /** The body of a create request. */
  datatype CarBody = CarBody(name: string, color: string)

  /** What `addCreatedCar` does: the request it sends (if any), the name field and the error text after it. */
  datatype CreateOutcome = CreateOutcome(request: Option<CarBody>, nameField: string, message: string)

  /** The body of an update request; id and name are `undefined` when no car was selected. */
  datatype ChangeRequest = ChangeRequest(id: Option<int>, name: Option<string>, color: string)

  /**
   * `addCreatedCar`: an empty name shows the error text and sends nothing;
   * otherwise the car is created and the field and message are cleared.
   */
  function AddCreatedCar(nameField: string, color: string): (o: CreateOutcome)
    ensures o.request.None? <==> nameField == ""
    ensures o.request.Some? ==> o.request.value == CarBody(nameField, color) && o.message == ""
    ensures o.request.None? ==> o.message == EmptyNameMessage
    ensures o.nameField == ""
  {
    if |nameField| == 0 then CreateOutcome(None, nameField, EmptyNameMessage)
    else CreateOutcome(Some(CarBody(nameField, color)), "", "")
  }

  /** `updateCarOnPage`'s name: the typed one when non-empty, else the selected car's previous name. */
  function ChosenName(typed: string, previous: Option<string>): (r: Option<string>)
    ensures typed != "" ==> r == Some(typed)
    ensures typed == "" ==> r == previous
    ensures r.Some? && r.value == "" ==> previous == Some("")
  {
    if |typed| > 0 then Some(typed) else previous
  }

  /**
   * Names stay non-empty: the form creates no car with an empty name, and
   * renaming a car that has a non-empty name never sends an empty one.
   */
  lemma NamesStayNonEmpty(nameField: string, color: string, typed: string, previous: string)
    requires previous != ""
    ensures AddCreatedCar(nameField, color).request.Some? ==> AddCreatedCar(nameField, color).request.value.name != ""
    ensures ChosenName(typed, Some(previous)).Some? && ChosenName(typed, Some(previous)).value != ""
    ensures typed == "" ==> ChosenName(typed, Some(previous)) == Some(previous)
  {
  }

  /** The update form's state: the selected car and its name, and the update button. */
  class UpdateForm {
    var carIdForChange: Option<int>
    var previousName: Option<string>
    var updateDisabled: bool

    /** As `createControlPanel` builds it: nothing selected, update disabled. */
    constructor ()
      ensures carIdForChange == None && previousName == None && updateDisabled
    {
      carIdForChange, previousName, updateDisabled := None, None, true;
    }

    /** `focusOnInput`: select the car and enable the update button. */
    method FocusOnInput(id: int, name: string)
      modifies this
      ensures carIdForChange == Some(id) && previousName == Some(name) && !updateDisabled
    {
      carIdForChange, previousName, updateDisabled := Some(id), Some(name), false;
    }

    /** `updateCarOnPage`: send the change with the chosen name and disable the button again. */
    method UpdateCarOnPage(typed: string, color: string) returns (request: ChangeRequest)
      modifies this`updateDisabled
      ensures request == ChangeRequest(carIdForChange, ChosenName(typed, previousName), color)
      ensures updateDisabled
    {
      var name := if |typed| > 0 then Some(typed) else previousName;
      request := ChangeRequest(carIdForChange, name, color);
      updateDisabled := true;
    }
  }
}
