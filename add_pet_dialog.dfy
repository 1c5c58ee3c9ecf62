/** The dialog that adds a pet: the request it builds from its fields and the
    outcome it shows. */
module AddPetDialog {
  import opened Js
  import opened Messages
  import opened ApiStore

  /** The body `handleAddClick` sends: the texts as they are, the gender flag, and
      age and weight through `parseInt(_, 10)`. */
  function NewPetFields(name: string, gender: bool, age: string, breed: string, weight: string, image: string)
    : (b: PetFields)
    ensures b.name == Str(name) && b.gender == Bool(gender) && b.breed == Str(breed) && b.image == Str(image)
    ensures b.age.Number? && b.weight.Number?
  {
    PetFields(Str(name), Bool(gender), Number(ParseInt(age, 10)), Str(breed), Number(ParseInt(weight, 10)), Str(image))
  }

  /** Whole numbers typed into the age and weight fields, followed by any text that
      does not start with a digit (such as " kg"), are sent as those numbers. */
  lemma TypedNumbersSent(name: string, gender: bool, age: int, ageUnit: string, breed: string,
                         weight: int, weightUnit: string, image: string)
    requires ageUnit == [] || !IsDecimalDigit(ageUnit[0])
    requires weightUnit == [] || !IsDecimalDigit(weightUnit[0])
    ensures var b := NewPetFields(name, gender, IntToString(age) + ageUnit, breed, IntToString(weight) + weightUnit, image);
      b.age == Number(Int(age)) && b.weight == Number(Int(weight))
  {
    ParseIntOfIntToString(age, ageUnit);
    ParseIntOfIntToString(weight, weightUnit);
  }

  /** An empty age or weight field is sent as NaN. */
  lemma EmptyNumbersSendNaN(name: string, gender: bool, breed: string, image: string)
    ensures NewPetFields(name, gender, "", breed, "", image).age == Number(NaN)
    ensures NewPetFields(name, gender, "", breed, "", image).weight == Number(NaN)
  {
    ParseIntOfEmpty();
  }

  /** `handleAddClick`: clears the error and sends the new pet to "/add". A 200
      hands the returned id to `onAddPet` and closes; any other resolved status is
      unexpected; a rejection without a response is a network error; 400, 401 and 500
      have their own messages and any other status a generic one. */
  method HandleAddClick(name: string, gender: bool, age: string, breed: string, weight: string, image: string,
                        outcome: Outcome<int>)
    returns (sent: Req, error: Option<string>, added: Option<int>, closed: bool)
    ensures sent == AddPet(NewPetFields(name, gender, age, breed, weight, image))
    ensures closed <==> ResolvedWith(outcome, 200)
    ensures closed ==> added == Some(outcome.data) && error == None
    ensures !closed ==> added == None && error.Some?
    ensures outcome.Resolved? && outcome.status != 200 ==> error == Some(UnexpectedStatus)
    ensures outcome.RejectedNoResponse? ==> error == Some(NetworkCheckConnection)
    ensures RejectedWith(outcome, 400) ==> error == Some(BadPetRequest)
    ensures RejectedWith(outcome, 401) ==> error == Some(Unauthorized)
    ensures RejectedWith(outcome, 500) ==> error == Some(ServerErrorShort)
    ensures outcome.RejectedWithResponse? && outcome.status !in {400, 401, 500} ==> error == Some(FailedToAddPet)
  {
    sent := AddPet(NewPetFields(name, gender, age, breed, weight, image));
    error, added, closed := None, None, false;
    match outcome {
      case Resolved(status, data, _) =>
        if status == 200 {
          added := Some(data);
          closed := true;
        } else {
          error := Some(UnexpectedStatus);
        }
      case RejectedNoResponse =>
        error := Some(NetworkCheckConnection);
      case RejectedWithResponse(status) =>
        if status == 400 {
          error := Some(BadPetRequest);
        } else if status == 401 {
          error := Some(Unauthorized);
        } else if status == 500 {
          error := Some(ServerErrorShort);
        } else {
          error := Some(FailedToAddPet);
        }
    }
  }

  /** The add as the store delivers it: `addPet` turns every failure into an error
      without a response, so a failed add always shows the network message and the
      per-status messages are never shown. */
  method AddThroughStore(name: string, gender: bool, age: string, breed: string, weight: string, image: string,
                         raw: Outcome<int>)
    returns (sent: Req, error: Option<string>, added: Option<int>, closed: bool)
    ensures !raw.Resolved? ==> error == Some(NetworkCheckConnection) && !closed
    ensures ResolvedWith(raw, 200) ==> closed && added == Some(raw.data)
    ensures error != Some(BadPetRequest) && error != Some(Unauthorized)
    ensures error != Some(ServerErrorShort) && error != Some(FailedToAddPet)
  {
    sent, error, added, closed := HandleAddClick(name, gender, age, breed, weight, image, PlainErrorOnFailure(raw));
  }
}
