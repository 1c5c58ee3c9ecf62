/** The dialog that edits a pet: its own pet record with every field but the id as
    text, the fields it fills from that record, the update request and its outcome. */
module EditPetDialog {
  import opened Js
  import opened Messages
  import opened ApiStore

  /** The pet record this dialog (and the appointment form) works with: an id and
      every other field as text. */
  datatype FormPet = FormPet(id: int, name: string, image: string, gender: string, age: string, breed: string,
                             weight: string)

  /** The text fields of the dialog. */
  datatype EditFields = EditFields(name: string, gender: string, age: string, breed: string, weight: string,
                                   image: string)

  /** The effect of the dialog's pet changing: a pet fills every field from its own
      record; no pet leaves the fields as they are. */
  function InitFields(pet: Option<FormPet>, fields: EditFields): (f: EditFields)
    ensures pet.None? ==> f == fields
    ensures pet.Some? ==>
      f.name == pet.value.name && f.gender == pet.value.gender && f.age == pet.value.age &&
      f.breed == pet.value.breed && f.weight == pet.value.weight && f.image == pet.value.image
  {
    match pet
    case None => fields
    case Some(p) => EditFields(p.name, p.gender, p.age, p.breed, p.weight, p.image)
  }

  /** The body of the update: every field as the text it holds. */
  function SentFields(f: EditFields): (b: PetFields)
    ensures b.name == Str(f.name) && b.gender == Str(f.gender) && b.age == Str(f.age)
    ensures b.breed == Str(f.breed) && b.weight == Str(f.weight) && b.image == Str(f.image)
  {
    PetFields(Str(f.name), Str(f.gender), Str(f.age), Str(f.breed), Str(f.weight), Str(f.image))
  }

  const PetNotFoundDeleted := "Pet not found. It may have been deleted."
  const FailedToUpdatePet := "Failed to update pet. Please try again."

  /** `handleUpdateClick`: clears the error; with no pet it does nothing more. With a
      pet it posts the fields to the pet's path. A 200 hands the response data to
      `onUpdatePet` and closes; any other resolved status is unexpected; a rejection
      without a response is a network error; 400, 401, 404 and 500 have their own
      messages and any other status a generic one. */
  method HandleUpdateClick<D>(pet: Option<FormPet>, fields: EditFields, outcome: Outcome<D>)
    returns (sent: Option<Req>, error: Option<string>, updated: Option<D>, closed: bool)
    ensures pet.None? ==> sent == None && error == None && updated == None && !closed
    ensures pet.Some? ==> sent == Some(UpdatePet(pet.value.id, SentFields(fields)))
    ensures closed <==> pet.Some? && ResolvedWith(outcome, 200)
    ensures closed ==> updated == Some(outcome.data) && error == None
    ensures !closed ==> updated == None
    ensures pet.Some? && outcome.Resolved? && outcome.status != 200 ==> error == Some(UnexpectedStatus)
    ensures pet.Some? && outcome.RejectedNoResponse? ==> error == Some(NetworkCheckConnection)
    ensures pet.Some? && RejectedWith(outcome, 400) ==> error == Some(BadPetRequest)
    ensures pet.Some? && RejectedWith(outcome, 401) ==> error == Some(Unauthorized)
    ensures pet.Some? && RejectedWith(outcome, 404) ==> error == Some(PetNotFoundDeleted)
    ensures pet.Some? && RejectedWith(outcome, 500) ==> error == Some(ServerErrorShort)
    ensures pet.Some? && outcome.RejectedWithResponse? && outcome.status !in {400, 401, 404, 500} ==>
      error == Some(FailedToUpdatePet)
  {
    sent, error, updated, closed := None, None, None, false;
    if pet.Some? {
      sent := Some(UpdatePet(pet.value.id, SentFields(fields)));
      match outcome {
        case Resolved(status, data, _) =>
          if status == 200 {
            updated := Some(data);
            closed := true;
          } else {
            error := Some(UnexpectedStatus);
          }
        case RejectedNoResponse =>
          error := Some(NetworkCheckConnection);
        case RejectedWithResponse(status) =>
          if status == 400 {
            error := Some(BadPetRequest);
          } else if status == 401 {
            error := Some(Unauthorized);
          } else if status == 404 {
            error := Some(PetNotFoundDeleted);
          } else if status == 500 {
            error := Some(ServerErrorShort);
          } else {
            error := Some(FailedToUpdatePet);
          }
      }
    }
  }

  /** The update as the store delivers it: `updatePet` turns every failure into an
      error without a response, so a failed update always shows the network message
      and the per-status messages are never shown. */
  method UpdateThroughStore<D>(pet: Option<FormPet>, fields: EditFields, raw: Outcome<D>)
    returns (sent: Option<Req>, error: Option<string>, updated: Option<D>, closed: bool)
    ensures pet.Some? && !raw.Resolved? ==> error == Some(NetworkCheckConnection) && !closed
    ensures pet.Some? && ResolvedWith(raw, 200) ==> closed && updated == Some(raw.data)
    ensures error != Some(BadPetRequest) && error != Some(Unauthorized) && error != Some(PetNotFoundDeleted)
    ensures error != Some(ServerErrorShort) && error != Some(FailedToUpdatePet)
  {
    sent, error, updated, closed := HandleUpdateClick(pet, fields, PlainErrorOnFailure(raw));
  }

  /** Opening the dialog on a pet and saving without editing posts to that pet's
      path exactly the texts of its own record. */
  lemma UnchangedSaveSendsPet(p: FormPet, fields: EditFields)
    ensures var f := InitFields(Some(p), fields);
      UpdatePet(p.id, SentFields(f)) ==
      UpdatePet(p.id, PetFields(Str(p.name), Str(p.gender), Str(p.age), Str(p.breed), Str(p.weight), Str(p.image)))
  {
  }
}
