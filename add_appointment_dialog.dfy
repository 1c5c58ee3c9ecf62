/** The dialog that books a veterinary appointment: loading the pets to choose from,
    the submit guard, the pet lookup, the request body and the outcome. */
module AddAppointmentDialog {
  import opened Js
  import opened Models
  import opened Alerts
  import opened Messages
  import opened ApiStore

  /** The times offered for an appointment. */
  const AvailableTimes: seq<string> := ["13:30", "14:00", "14:30", "15:00", "15:30"]

  /** The pet list load. The messages go to `window.alert`, not to the alert store:
      a 200 array sets the pets; a 200 with anything else is a data-format error;
      400, 404 and 500 have their own messages and anything else is unexpected; a
      rejection is a network error. Only a 200 array changes the list. */
  method FetchPets<P>(outcome: Outcome<seq<P>>, pets: seq<P>) returns (newPets: seq<P>, browserAlert: Option<string>)
    ensures ResolvedWith(outcome, 200) && outcome.isArray ==> newPets == outcome.data && browserAlert == None
    ensures !(ResolvedWith(outcome, 200) && outcome.isArray) ==> newPets == pets && browserAlert.Some?
    ensures ResolvedWith(outcome, 200) && !outcome.isArray ==> browserAlert == Some(UnexpectedDataFormat)
    ensures ResolvedWith(outcome, 400) ==> browserAlert == Some(InvalidUserId)
    ensures ResolvedWith(outcome, 404) ==> browserAlert == Some(NoPetsFound)
    ensures ResolvedWith(outcome, 500) ==> browserAlert == Some(ServerError)
    ensures outcome.Resolved? && outcome.status !in {200, 400, 404, 500} ==> browserAlert == Some(UnexpectedError)
    ensures !outcome.Resolved? ==> browserAlert == Some(NetworkUnreachable)
  {
    newPets := pets;
    match outcome {
      case Resolved(status, data, isArray) =>
        if status == 200 {
          if isArray {
            newPets := data;
            browserAlert := None;
          } else {
            browserAlert := Some(UnexpectedDataFormat);
          }
        } else if status == 400 {
          browserAlert := Some(InvalidUserId);
        } else if status == 404 {
          browserAlert := Some(NoPetsFound);
        } else if status == 500 {
          browserAlert := Some(ServerError);
        } else {
          browserAlert := Some(UnexpectedError);
        }
      case RejectedWithResponse(_) =>
        browserAlert := Some(NetworkUnreachable);
      case RejectedNoResponse =>
        browserAlert := Some(NetworkUnreachable);
    }
  }

  /** The guard of both appointment forms: a pet id that is set and not 0, a date,
      and a non-empty time. */
  predicate Filled(selectedPet: Option<int>, selectedDate: Option<CalendarDate>, selectedTime: string)
  {
    selectedPet.Some? && selectedPet.value != 0 && selectedDate.Some? && Truthy(selectedTime)
  }

  /** The position of the first pet with the id, or |pets| when there is none. */
  function FirstIndexWithId(pets: seq<Pet>, id: int): (k: nat)
    ensures k <= |pets|
    ensures k < |pets| ==> pets[k].id == id
    ensures forall j :: 0 <= j < k ==> pets[j].id != id
  {
    if |pets| == 0 then 0
    else if pets[0].id == id then 0
    else 1 + FirstIndexWithId(pets[1..], id)
  }

  /** `pets.find(pet => pet.id === id)`: the first pet with the id, if any. */
  function FindPet(pets: seq<Pet>, id: int): (r: Option<Pet>)
    ensures r.None? <==> forall p :: p in pets ==> p.id != id
    ensures r.Some? ==> r.value in pets && r.value.id == id
    ensures r.Some? ==> exists k :: 0 <= k < |pets| && pets[k] == r.value && forall j :: 0 <= j < k ==> pets[j].id != id
  {
    var k := FirstIndexWithId(pets, id);
    if k < |pets| then Some(pets[k]) else None
  }

  /** The body the dialog sends for the found pet. */
  function RequestBody(pet: Pet, dateTimeString: string): (b: AppointmentBody)
    ensures b.id.None? && b.userId == 1 && b.petId == pet.id && b.status == Scheduled
    ensures b.localDateTime == dateTimeString
    ensures b.duration == 30 && b.costCents == 2500
  {
    AppointmentBody(None, 1, pet.id, Scheduled, dateTimeString, AppointmentDuration, AppointmentBaseCostCents)
  }

  const PetNotFound := "Selected pet not found."

  /** `handleSubmit` up to the request: an incomplete form or an id no loaded pet has
      raises its browser alert and sends nothing; otherwise the body for the found pet
      is sent. The date and time text is computed by the browser and passed in. */
  method Submit(selectedPet: Option<int>, selectedDate: Option<CalendarDate>, selectedTime: string,
                dateTimeString: string, pets: seq<Pet>)
    returns (sent: Option<AppointmentBody>, browserAlert: Option<string>)
    ensures !Filled(selectedPet, selectedDate, selectedTime) ==>
      sent == None && browserAlert == Some(FillOutRequiredFields)
    ensures Filled(selectedPet, selectedDate, selectedTime) && FindPet(pets, selectedPet.value).None? ==>
      sent == None && browserAlert == Some(PetNotFound)
    ensures sent.Some? <==> Filled(selectedPet, selectedDate, selectedTime) && FindPet(pets, selectedPet.value).Some?
    ensures sent.Some? ==>
      browserAlert == None && sent.value.petId == selectedPet.value &&
      sent.value == RequestBody(FindPet(pets, selectedPet.value).value, dateTimeString)
  {
    if !Filled(selectedPet, selectedDate, selectedTime) {
      return None, Some(FillOutRequiredFields);
    }
    var pet := FindPet(pets, selectedPet.value);
    if pet.None? {
      return None, Some(PetNotFound);
    }
    sent := Some(RequestBody(pet.value, dateTimeString));
    browserAlert := None;
  }

  /** The outcome of `addVeterinaryAppointment`: 201 hands the created appointment to
      `onSubmit` and closes the dialog; any other resolved status is unexpected and
      keeps it open; a rejection without a response is a network error, 400, 401 and
      500 have their own messages, anything else is a failure to add. */
  method HandleOutcome(outcome: Outcome<Appointment>)
    returns (submitted: Option<Appointment>, closed: bool, alert: Option<Alert>)
    ensures ResolvedWith(outcome, 201) <==> closed
    ensures ResolvedWith(outcome, 201) ==> submitted == Some(outcome.data) && alert == None
    ensures !ResolvedWith(outcome, 201) ==> submitted == None && alert.Some? && alert.value.severity == Some(Error)
    ensures outcome.Resolved? && outcome.status != 201 ==> alert == Some(ErrorAlert(UnexpectedStatus))
    ensures outcome.RejectedNoResponse? ==> alert == Some(ErrorAlert(NetworkCheckConnection))
    ensures RejectedWith(outcome, 400) ==> alert == Some(ErrorAlert(BadPetRequest))
    ensures RejectedWith(outcome, 401) ==> alert == Some(ErrorAlert(Unauthorized))
    ensures RejectedWith(outcome, 500) ==> alert == Some(ErrorAlert(ServerErrorShort))
    ensures outcome.RejectedWithResponse? && outcome.status !in {400, 401, 500} ==>
      alert == Some(ErrorAlert(FailedToAddPet))
  {
    submitted := None;
    closed := false;
    match outcome {
      case Resolved(status, data, _) =>
        if status == 201 {
          submitted := Some(data);
          closed := true;
          alert := None;
        } else {
          alert := Some(ErrorAlert(UnexpectedStatus));
        }
      case RejectedNoResponse =>
        alert := Some(ErrorAlert(NetworkCheckConnection));
      case RejectedWithResponse(status) =>
        if status == 400 {
          alert := Some(ErrorAlert(BadPetRequest));
        } else if status == 401 {
          alert := Some(ErrorAlert(Unauthorized));
        } else if status == 500 {
          alert := Some(ErrorAlert(ServerErrorShort));
        } else {
          alert := Some(ErrorAlert(FailedToAddPet));
        }
    }
  }
}
