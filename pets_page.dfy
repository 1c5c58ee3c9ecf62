/** The pets page: loading the pet list and adding a pet after the add dialog. */
module PetsPage {
  import opened Js
  import opened Models
  import opened Alerts
  import opened Messages
  import opened ApiStore

  /** The outcome of `getAllPetsByUserId`: a 200 array replaces the list; a 200 with
      anything else raises a data-format error and keeps the list; 400, 404 and 500
      have their own messages, every other status (204 too) is an unexpected error;
      a rejection is a network error. Only a 200 array changes the list. */
  method FetchPets(outcome: Outcome<seq<Pet>>, pets: seq<Pet>) returns (newPets: seq<Pet>, alert: Option<Alert>)
    ensures ResolvedWith(outcome, 200) && outcome.isArray ==> newPets == outcome.data && alert == None
    ensures !(ResolvedWith(outcome, 200) && outcome.isArray) ==> newPets == pets && alert.Some?
    ensures ResolvedWith(outcome, 200) && !outcome.isArray ==> alert == Some(ErrorAlert(UnexpectedDataFormat))
    ensures ResolvedWith(outcome, 400) ==> alert == Some(ErrorAlert(InvalidUserId))
    ensures ResolvedWith(outcome, 404) ==> alert == Some(ErrorAlert(NoPetsFound))
    ensures ResolvedWith(outcome, 500) ==> alert == Some(ErrorAlert(ServerError))
    ensures outcome.Resolved? && outcome.status !in {200, 400, 404, 500} ==> alert == Some(ErrorAlert(UnexpectedError))
    ensures ResolvedWith(outcome, 204) ==> alert == Some(ErrorAlert(UnexpectedError))
    ensures !outcome.Resolved? ==> alert == Some(ErrorAlert(NetworkUnreachable))
  {
    newPets := pets;
    match outcome {
      case Resolved(status, data, isArray) =>
        if status == 200 {
          if isArray {
            newPets := data;
            alert := None;
          } else {
            alert := Some(ErrorAlert(UnexpectedDataFormat));
          }
        } else if status == 400 {
          alert := Some(ErrorAlert(InvalidUserId));
        } else if status == 404 {
          alert := Some(ErrorAlert(NoPetsFound));
        } else if status == 500 {
          alert := Some(ErrorAlert(ServerError));
        } else {
          alert := Some(ErrorAlert(UnexpectedError));
        }
      case RejectedWithResponse(_) =>
        alert := Some(ErrorAlert(NetworkUnreachable));
      case RejectedNoResponse =>
        alert := Some(ErrorAlert(NetworkUnreachable));
    }
  }

  /** `handleAddPet(petId)`: fetches the pet and, on 200, appends it after the
      existing pets; any other resolved status raises an error and keeps the list;
      a rejection is not caught, so it raises nothing and keeps the list. The add
      dialog is closed whatever the fetch returns. */
  method HandleAddPet(petId: int, outcome: Outcome<Pet>, pets: seq<Pet>)
    returns (sent: Req, newPets: seq<Pet>, alert: Option<Alert>, dialogOpen: bool)
    ensures sent == GetPetById(IntToString(petId))
    ensures ResolvedWith(outcome, 200) ==> newPets == pets + [outcome.data] && alert == None
    ensures outcome.Resolved? && outcome.status != 200 ==> newPets == pets && alert == Some(ErrorAlert(UnexpectedStatus))
    ensures !outcome.Resolved? ==> newPets == pets && alert == None
    ensures !dialogOpen
  {
    sent := GetPetById(IntToString(petId));
    newPets := pets;
    alert := None;
    if outcome.Resolved? {
      if outcome.status == 200 {
        newPets := pets + [outcome.data];
      } else {
        alert := Some(ErrorAlert(UnexpectedStatus));
      }
    }
    dialogOpen := false;
  }
}
