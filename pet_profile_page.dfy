/** The pet profile page: fetching the pet named by the route. */
module PetProfilePage {
  import opened Js
  import opened Models
  import opened Alerts
  import opened Messages
  import opened ApiStore
  import opened PetCards

  const InvalidPetId := "Invalid pet ID provided. Please try again."
  const PetNotFound := "Pet with the specified ID not found."

  /** The request for a route id: `getPetById(parseInt(id))`, with the radix
      omitted, the number rendered into the path. */
  function PetRequest(routeId: string): Req
  {
    GetPetById(NumberToString(ParseInt(routeId, 0)))
  }

  /** `fetchPet`: with no route id (or an empty one) nothing is sent and nothing is
      raised; otherwise 200 stores the pet, 400, 404 and 500 have their own messages,
      anything else is unexpected, and a rejection is a network error. Only a 200
      sets the details; `loading` ends false on every path. */
  method FetchPet(routeId: Option<string>, outcome: Outcome<Pet>, details: Option<Pet>)
    returns (sent: Option<Req>, newDetails: Option<Pet>, alert: Option<Alert>, loading: bool)
    ensures !loading
    ensures !(routeId.Some? && Truthy(routeId.value)) ==> sent == None && newDetails == details && alert == None
    ensures routeId.Some? && Truthy(routeId.value) ==> sent == Some(PetRequest(routeId.value))
    ensures sent.Some? && ResolvedWith(outcome, 200) ==> newDetails == Some(outcome.data) && alert == None
    ensures sent.Some? && !ResolvedWith(outcome, 200) ==> newDetails == details
    ensures sent.Some? && ResolvedWith(outcome, 400) ==> alert == Some(ErrorAlert(InvalidPetId))
    ensures sent.Some? && ResolvedWith(outcome, 404) ==> alert == Some(ErrorAlert(PetNotFound))
    ensures sent.Some? && ResolvedWith(outcome, 500) ==> alert == Some(ErrorAlert(ServerError))
    ensures sent.Some? && outcome.Resolved? && outcome.status !in {200, 400, 404, 500} ==>
      alert == Some(ErrorAlert(UnexpectedError))
    ensures sent.Some? && !outcome.Resolved? ==> alert == Some(ErrorAlert(NetworkUnreachable))
  {
    sent := None;
    newDetails := details;
    alert := None;
    if routeId.Some? && Truthy(routeId.value) {
      sent := Some(PetRequest(routeId.value));
      match outcome {
        case Resolved(status, data, _) =>
          if status == 200 {
            newDetails := Some(data);
          } else if status == 400 {
            alert := Some(ErrorAlert(InvalidPetId));
          } else if status == 404 {
            alert := Some(ErrorAlert(PetNotFound));
          } else if status == 500 {
            alert := Some(ErrorAlert(ServerError));
          } else {
            alert := Some(ErrorAlert(UnexpectedError));
          }
        case RejectedWithResponse(_) =>
          alert := Some(ErrorAlert(NetworkUnreachable));
        case RejectedNoResponse =>
          alert := Some(ErrorAlert(NetworkUnreachable));
      }
    }
    loading := false;
  }

  /** The route a pet card links to fetches exactly that pet. */
  lemma CardRouteFetchesThatPet(p: Pet)
    ensures PetRequest(ProfilePath(p)[1..]) == GetPetById(IntToString(p.id))
  {
    assert ProfilePath(p)[1..] == IntToString(p.id);
    ParseIntAutoOfIntToString(p.id);
  }

  /** A route id with no leading digits requests the path "/pets/NaN". */
  lemma NonNumericRouteRequestsNaN()
    ensures PetRequest("abc").path == "/pets/NaN"
  {
    ParseIntOfNonDigitStart("abc");
  }
}
