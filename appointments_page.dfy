/** The appointments page: loading the list, adding after the dialog and deleting. */
module AppointmentsPage {
  import opened Js
  import opened Models
  import opened Alerts
  import opened Messages
  import opened ApiStore

  const NoAppointmentsFound := "No appointments found for the specified user ID."

  /** The outcome of `getAllAppointments`: as on the pets page, except that a 204
      raises nothing, and 404 names appointments. Only a 200 array changes the list. */
  method FetchAppointments(outcome: Outcome<seq<Appointment>>, appointments: seq<Appointment>)
    returns (newAppointments: seq<Appointment>, alert: Option<Alert>)
    ensures ResolvedWith(outcome, 200) && outcome.isArray ==> newAppointments == outcome.data && alert == None
    ensures !(ResolvedWith(outcome, 200) && outcome.isArray) ==> newAppointments == appointments
    ensures ResolvedWith(outcome, 200) && !outcome.isArray ==> alert == Some(ErrorAlert(UnexpectedDataFormat))
    ensures ResolvedWith(outcome, 204) ==> alert == None
    ensures ResolvedWith(outcome, 400) ==> alert == Some(ErrorAlert(InvalidUserId))
    ensures ResolvedWith(outcome, 404) ==> alert == Some(ErrorAlert(NoAppointmentsFound))
    ensures ResolvedWith(outcome, 500) ==> alert == Some(ErrorAlert(ServerError))
    ensures outcome.Resolved? && outcome.status !in {200, 204, 400, 404, 500} ==> alert == Some(ErrorAlert(UnexpectedError))
    ensures !outcome.Resolved? ==> alert == Some(ErrorAlert(NetworkUnreachable))
    ensures alert == None <==> (ResolvedWith(outcome, 200) && outcome.isArray) || ResolvedWith(outcome, 204)
  {
    newAppointments := appointments;
    match outcome {
      case Resolved(status, data, isArray) =>
        if status == 200 {
          if isArray {
            newAppointments := data;
            alert := None;
          } else {
            alert := Some(ErrorAlert(UnexpectedDataFormat));
          }
        } else if status == 204 {
          alert := None;
        } else if status == 400 {
          alert := Some(ErrorAlert(InvalidUserId));
        } else if status == 404 {
          alert := Some(ErrorAlert(NoAppointmentsFound));
        } else if status == 500 {
          alert := Some(ErrorAlert(ServerError));
        } else {
          alert := Some(ErrorAlert(UnexpectedError));
        }
      case RejectedWithResponse(_) =>
        alert := Some(ErrorAlert(NetworkUnreachable));
      case RejectedNoResponse =>
        alert := Some(ErrorAlert(NetworkUnreachable));
    }
  }

  /** `handleAddAppointment`: the new appointment goes after the existing ones and
      the dialog closes. */
  method HandleAddAppointment(appointment: Appointment, appointments: seq<Appointment>)
    returns (newAppointments: seq<Appointment>, dialogOpen: bool)
    ensures |newAppointments| == |appointments| + 1
    ensures newAppointments[..|appointments|] == appointments && newAppointments[|appointments|] == appointment
    ensures !dialogOpen
  {
    newAppointments := appointments + [appointment];
    assert newAppointments[..|appointments|] == appointments;
    dialogOpen := false;
  }

  /** `handleDeleteAppointment(id)`: the list without the appointments with that id. */
  function WithoutId(appointments: seq<Appointment>, id: int): (r: seq<Appointment>)
    ensures |r| <= |appointments|
    ensures forall a :: a in r <==> a in appointments && a.id != id
  {
    if |appointments| == 0 then []
    else if appointments[0].id == id then WithoutId(appointments[1..], id)
    else [appointments[0]] + WithoutId(appointments[1..], id)
  }

  /** Deleting works element by element: it distributes over concatenation and
      keeps or drops each single appointment by its id, so the kept ones stay in
      their original order. */
  lemma {:induction false} WithoutIdAppend(xs: seq<Appointment>, ys: seq<Appointment>, id: int)
    ensures WithoutId(xs + ys, id) == WithoutId(xs, id) + WithoutId(ys, id)
    decreases |xs|
  {
    if |xs| == 0 {
      assert xs + ys == ys;
    } else {
      assert (xs + ys)[1..] == xs[1..] + ys;
      WithoutIdAppend(xs[1..], ys, id);
    }
  }

  lemma WithoutIdOfSingle(a: Appointment, id: int)
    ensures WithoutId([a], id) == if a.id == id then [] else [a]
  {
    assert [a][1..] == [];
  }

  /** No appointment with the id: the list is unchanged. */
  lemma {:induction false} WithoutAbsentId(appointments: seq<Appointment>, id: int)
    requires forall a :: a in appointments ==> a.id != id
    ensures WithoutId(appointments, id) == appointments
    decreases |appointments|
  {
    if |appointments| > 0 {
      assert appointments == [appointments[0]] + appointments[1..];
      WithoutAbsentId(appointments[1..], id);
    }
  }

  /** Deleting the same id twice is deleting it once. */
  lemma WithoutIdIdempotent(appointments: seq<Appointment>, id: int)
    ensures WithoutId(WithoutId(appointments, id), id) == WithoutId(appointments, id)
  {
    WithoutAbsentId(WithoutId(appointments, id), id);
  }

  /** Deleting the id of an appointment just added removes it again, together with
      any earlier appointment of the same id. */
  lemma DeleteAfterAdd(appointments: seq<Appointment>, a: Appointment)
    ensures WithoutId(appointments + [a], a.id) == WithoutId(appointments, a.id)
  {
    WithoutIdAppend(appointments, [a], a.id);
    WithoutIdOfSingle(a, a.id);
    assert WithoutId(appointments, a.id) + [] == WithoutId(appointments, a.id);
  }
}
