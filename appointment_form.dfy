/** The appointment page form: the date and time text it sends, how it picks the pet,
    and what it reports about the request. It shares the pet-list load, the guard and
    the time slots with the appointment dialog, but works on the edit dialog's pet
    record. */
module AppointmentForm {
  import opened Js
  import opened Models
  import opened EditPetDialog
  import AddAppointmentDialog

  /** `s.split("T")[0]`: the text before the first 'T', or all of it. */
  function BeforeFirstT(s: string): (r: string)
    ensures |r| <= |s| && r == s[..|r|]
    ensures 'T' !in r
    ensures |r| == |s| || s[|r|] == 'T'
  {
    if |s| == 0 || s[0] == 'T' then ""
    else [s[0]] + BeforeFirstT(s[1..])
  }

  /** The date part of an ISO timestamp is read back whole. */
  lemma {:induction false} BeforeFirstTOfIso(date: string, rest: string)
    requires 'T' !in date
    ensures BeforeFirstT(date + "T" + rest) == date
  {
    if |date| > 0 {
      assert (date + "T" + rest)[1..] == date[1..] + "T" + rest;
      BeforeFirstTOfIso(date[1..], rest);
    } else {
      assert (date + "T" + rest)[0] == 'T';
    }
  }

  /** The `localDateTime` sent: the date part of the browser's ISO text for the
      chosen day, a 'T', the chosen time and ":00". */
  function LocalDateTime(isoDate: string, time: string): (s: string)
    ensures |s| == |BeforeFirstT(isoDate)| + |time| + 4
    ensures s[..|BeforeFirstT(isoDate)|] == isoDate[..|BeforeFirstT(isoDate)|]
    ensures s[|BeforeFirstT(isoDate)|] == 'T'
    ensures s[|s| - 3..] == ":00"
  {
    var date := BeforeFirstT(isoDate);
    var s := date + "T" + time + ":00";
    assert s[..|date|] == date;
    assert s[|s| - 3..] == ":00";
    s
  }

  /** For an ISO text "<date>T<clock>" the sent text is "<date>T<time>:00": the
      browser's clock part is dropped and the chosen time put in its place. */
  lemma LocalDateTimeOfIso(date: string, clock: string, time: string)
    requires 'T' !in date
    ensures LocalDateTime(date + "T" + clock, time) == date + "T" + time + ":00"
  {
    BeforeFirstTOfIso(date, clock);
  }

  /** `pets[selectedPet - 1]`: the pet at the position one below the selected value,
      none (`undefined`) outside the list. */
  function PetAtPosition(pets: seq<FormPet>, selected: int): (r: Option<FormPet>)
    ensures r.Some? <==> 1 <= selected <= |pets|
    ensures r.Some? ==> r.value in pets
  {
    if 1 <= selected <= |pets| then Some(pets[selected - 1]) else None
  }

  /** The position of the first pet with the id, or |pets| when there is none. */
  function FirstIndexWithId(pets: seq<FormPet>, id: int): (k: nat)
    ensures k <= |pets|
    ensures k < |pets| ==> pets[k].id == id
    ensures forall j :: 0 <= j < k ==> pets[j].id != id
  {
    if |pets| == 0 || pets[0].id == id then 0
    else 1 + FirstIndexWithId(pets[1..], id)
  }

  /** The pet the menu value stands for: the id is first turned into the position
      (counted from 1) of the first pet holding it, and that position is read. */
  function PetWithId(pets: seq<FormPet>, id: int): (r: Option<FormPet>)
    ensures r.None? <==> forall p :: p in pets ==> p.id != id
    ensures r.Some? ==> r.value in pets && r.value.id == id
    ensures r.Some? ==> exists k :: 0 <= k < |pets| && pets[k] == r.value && forall j :: 0 <= j < k ==> pets[j].id != id
  {
    PetAtPosition(pets, FirstIndexWithId(pets, id) + 1)
  }

  /** The two coincide exactly when the list holds the ids 1, 2, 3, ... in order,
      which is what indexing by the id minus one takes for granted. */
  lemma PositionIsIdWhenConsecutive(pets: seq<FormPet>, id: int)
    requires forall k :: 0 <= k < |pets| ==> pets[k].id == k + 1
    ensures PetAtPosition(pets, id) == PetWithId(pets, id)
  {
    var k := FirstIndexWithId(pets, id);
    if 1 <= id <= |pets| {
      assert pets[id - 1].id == id;
      assert k == id - 1;
    } else {
      assert k == |pets|;
    }
  }

  /** The menu offers each pet under its id, but the form looks its pet up by
      position: with pets 2 and 1 in that order, choosing pet 1 books pet 2; with a
      single pet 7, choosing it reads past the end of the list. Looking the pet up by
      id finds the chosen pet in both cases. */
  lemma PositionLookupMisses()
    ensures var pets := [FormPet(2, "Rex", "", "Male", "3", "Beagle", "12"),
                         FormPet(1, "Tom", "", "Male", "5", "Tabby", "4")];
      PetAtPosition(pets, 1) == Some(pets[0]) && pets[0].id != 1 && PetWithId(pets, 1) == Some(pets[1])
    ensures var pets := [FormPet(7, "Rex", "", "Male", "3", "Beagle", "12")];
      PetAtPosition(pets, 7) == None && PetWithId(pets, 7) == Some(pets[0])
  {
    var pets := [FormPet(2, "Rex", "", "Male", "3", "Beagle", "12"), FormPet(1, "Tom", "", "Male", "5", "Tabby", "4")];
    assert FirstIndexWithId(pets, 1) == 1 by {
      assert pets[1..][0].id == 1;
    }
  }

  /** The body the form sends: like the dialog's, but with an `id` of 0. */
  function RequestBody(pet: FormPet, localDateTime: string): (b: AppointmentBody)
    ensures b.id == Some(0) && b.userId == 1 && b.petId == pet.id && b.status == Scheduled
    ensures b.localDateTime == localDateTime
    ensures b.duration == 30 && b.costCents == 2500
  {
    AppointmentBody(Some(0), 1, pet.id, Scheduled, localDateTime, AppointmentDuration, AppointmentBaseCostCents)
  }

  /** `handleSubmit` as written up to the request: an incomplete form raises the
      browser alert; otherwise the pet is taken by position, and when the position is
      outside the list reading its id throws, so nothing is sent and nothing shown. */
  method Submit(selectedPet: Option<int>, selectedDate: Option<CalendarDate>, selectedTime: string,
                isoDate: string, pets: seq<FormPet>)
    returns (sent: Option<AppointmentBody>, browserAlert: Option<string>, threw: bool)
    ensures !AddAppointmentDialog.Filled(selectedPet, selectedDate, selectedTime) ==>
      sent == None && browserAlert == Some(Messages.FillOutRequiredFields) && !threw
    ensures AddAppointmentDialog.Filled(selectedPet, selectedDate, selectedTime) ==> browserAlert == None
    ensures threw <==>
      AddAppointmentDialog.Filled(selectedPet, selectedDate, selectedTime) && PetAtPosition(pets, selectedPet.value).None?
    ensures sent.Some? <==>
      AddAppointmentDialog.Filled(selectedPet, selectedDate, selectedTime) && PetAtPosition(pets, selectedPet.value).Some?
    ensures sent.Some? ==>
      sent.value == RequestBody(PetAtPosition(pets, selectedPet.value).value, LocalDateTime(isoDate, selectedTime))
  {
    if !AddAppointmentDialog.Filled(selectedPet, selectedDate, selectedTime) {
      return None, Some(Messages.FillOutRequiredFields), false;
    }
    var pet := PetAtPosition(pets, selectedPet.value);
    if pet.None? {
      return None, None, true;
    }
    sent, browserAlert, threw := Some(RequestBody(pet.value, LocalDateTime(isoDate, selectedTime))), None, false;
  }

  /** `handleSubmit` with the pet looked up by id, as the dialog does: a chosen id no
      loaded pet has raises the dialog's "not found" alert, and a sent body always
      names the chosen pet. */
  method SubmitCorrected(selectedPet: Option<int>, selectedDate: Option<CalendarDate>, selectedTime: string,
                         isoDate: string, pets: seq<FormPet>)
    returns (sent: Option<AppointmentBody>, browserAlert: Option<string>)
    ensures !AddAppointmentDialog.Filled(selectedPet, selectedDate, selectedTime) ==>
      sent == None && browserAlert == Some(Messages.FillOutRequiredFields)
    ensures sent.Some? <==>
      AddAppointmentDialog.Filled(selectedPet, selectedDate, selectedTime) &&
      exists p :: p in pets && p.id == selectedPet.value
    ensures sent.None? ==> browserAlert.Some?
    ensures sent.Some? ==>
      browserAlert == None && sent.value.petId == selectedPet.value &&
      sent.value == RequestBody(PetWithId(pets, selectedPet.value).value, LocalDateTime(isoDate, selectedTime))
  {
    if !AddAppointmentDialog.Filled(selectedPet, selectedDate, selectedTime) {
      return None, Some(Messages.FillOutRequiredFields);
    }
    var pet := PetWithId(pets, selectedPet.value);
    if pet.None? {
      return None, Some(AddAppointmentDialog.PetNotFound);
    }
    sent, browserAlert := Some(RequestBody(pet.value, LocalDateTime(isoDate, selectedTime))), None;
  }

  const AppointmentCreated := "Appointment created successfully!"
  const CreateFailed := "There was an error creating the appointment"
  const ServerDown := "The server is down."

  /** The browser alert after the request as written: 201 reports success and any
      other resolved status nothing; a rejection with 404 reports a failure and with
      any other status a server outage. A rejection without a response makes the
      handler read `status` of `undefined`, which throws, so nothing is reported. */
  function OutcomeAlert<D>(o: ApiStore.Outcome<D>): (r: Option<string>)
    ensures r == Some(AppointmentCreated) <==> ApiStore.ResolvedWith(o, 201)
    ensures o.Resolved? && o.status != 201 ==> r == None
    ensures ApiStore.RejectedWith(o, 404) ==> r == Some(CreateFailed)
    ensures o.RejectedWithResponse? && o.status != 404 ==> r == Some(ServerDown)
    ensures o.RejectedNoResponse? ==> r == None
  {
    match o
    case Resolved(status, _, _) => if status == 201 then Some(AppointmentCreated) else None
    case RejectedWithResponse(status) => if status == 404 then Some(CreateFailed) else Some(ServerDown)
    case RejectedNoResponse => None
  }

  /** The alert with the missing response guarded: a rejection without a response
      also reports the server outage, so every rejection reports something, and every
      other outcome is reported as before. */
  function OutcomeAlertCorrected<D>(o: ApiStore.Outcome<D>): (r: Option<string>)
    ensures !o.Resolved? ==> r.Some?
    ensures o.RejectedNoResponse? ==> r == Some(ServerDown)
    ensures !o.RejectedNoResponse? ==> r == OutcomeAlert(o)
  {
    if o.RejectedNoResponse? then Some(ServerDown) else OutcomeAlert(o)
  }

  /** The rejection the network gives when the server cannot be reached reports
      nothing as written, and the outage once corrected. */
  lemma UnreachableServerGoesUnreported<D>()
    ensures OutcomeAlert<D>(ApiStore.RejectedNoResponse) == None
    ensures OutcomeAlertCorrected<D>(ApiStore.RejectedNoResponse) == Some(ServerDown)
  {
  }
}
