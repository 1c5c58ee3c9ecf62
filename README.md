# PawPal client core in Dafny

PawPal is a React client for a pet-care backend. Users sign up and log in, keep a list of pets with a photo,
breed, age and weight, and book veterinary appointments. The client has no algorithm of its own. It is a set of small
decision rules spread over its stores, pages and dialogs, and this project states those rules exactly and proves
properties of them:

- **Session and authorization.** Module `Session` models `localStorage` as a class over a key→string map.
  - the login screens write `jwtToken`, `userFirstName` and `userLastName`;
  - the side drawer's logout removes exactly those keys;
  - the API store's request interceptor (module `ApiStore`) derives the `Authorization` header from the stored token,
    in place on a request config object.
- **Requests.** `ApiStore` maps each store method to a request descriptor (verb, path, body). The same module states
  that `addPet` and `updatePet` turn every failure into a plain `Error`, which carries no response.
- **The alert slot.** Module `Alerts` holds `SnackBarStore`, a class with the three fields of the snackbar store and
  its two setters. Module `AlertSnackBar` holds the snackbar's close rule and its prop defaults.
- **Outcome handlers.** Each page and dialog turns an API outcome into a message and a state change. Every handler is
  a method from the outcome and the current state to the message and the new state.
  - An outcome is `Resolved(status, data, isArray)`, `RejectedWithResponse(status)` or `RejectedNoResponse`.
  - The branches are kept exactly as each screen writes them. For example, the appointments page has a 204 case and
    the pets page does not. Adding a pet succeeds on 200, and adding an appointment on 201.
  - The login screens write the storage through `LocalStorage` methods.
- **Pure helpers.**
  - `calculateAge` (module `Age`) and the months text of the profile details;
  - the ordinal suffix and the ordinal date;
  - `addDataUrlPrefix` and its inverse (module `ImageUtils`);
  - the pet card summary, picture and link;
  - the password rule as a predicate over characters;
  - the appointment status label;
  - the appointment request bodies, with their fixed duration of 30 minutes and base cost of 25.0, and the form's
    date-time text;
  - the five fixed appointment time slots (`AddAppointmentDialog.AvailableTimes`), which both appointment forms offer.
- **List updates.** The pets page appends a fetched pet. The appointments page appends a new appointment and deletes
  by id.

Module `Js` states the few pieces of JavaScript semantics the rules depend on:

- truthiness of strings;
- the sign-keeping `%`;
- how a template string renders an integer;
- `parseInt` with and without a radix, including leading white space, a sign, a `0x` prefix and `NaN`.

The lemmas there show that `parseInt` reads back what a template string rendered. The rest of the model relies on
this, for example to prove that a card's link and an update's path determine the pet id and that summaries and age
texts can be read back.

Storage writes, the interceptor and the snackbar store's setters are methods with `modifies` clauses. Every other
handler returns its new state and changes nothing.

### Outside inputs

The model has no clock, no network and no browser APIs. These things are parameters:

- today's date and a date's calendar fields;
- the ISO text the browser gives for a day;
- the locale month name;
- the outcome of every request;
- the base64 text a file reader produced.

### How the store's failures reach the dialogs

`addPet` and `updatePet` catch every failure and throw `new Error(handleApiError(error))`. `handleApiError` is not
defined in the store as shown, but whatever it does, the error the dialogs then see has no `response`.

So the add-pet and edit-pet dialogs, used through the store, can only ever show the network message on a failure.
Their per-status messages (400, 401, 404, 500) cannot be reached. `AddPetDialog.AddThroughStore` and
`EditPetDialog.UpdateThroughStore` state this. The handlers themselves are modelled branch by branch, as written.

## Model

| member | source | states |
|---|---|---|
| Session.Stored | src/pages/LogInPage.tsx:31-33 | a response field that is present is stored as its own text, and an absent one as the text "undefined" |
| Session.SignedIn | src/pages/LogInPage.tsx:31-33 | the storage after a login: the token and both names written under their three keys |
| Session.SignedOut | src/components/SideDrawer.tsx:96-98 | the storage after a logout: the three session keys removed |
| Session.SignedInHoldsSession | src/pages/LogInPage.tsx:31-33 | after a login the three session keys hold exactly the new token and names, and every other key reads as before |
| Session.SignedInOverwrites | src/components/auth/LogIn.tsx:31-33 | a second login's values replace the first login's values |
| Session.SignedOutRemovesExactlySession | src/components/SideDrawer.tsx:96-98 | logout leaves the three session keys absent and every other key as it was |
| Session.SignedOutAfterSignedIn | src/components/SideDrawer.tsx:96-98 | logging out after a login leaves the same storage as logging out alone |
| Session.LocalStorage.GetItem | src/state/apiStore.ts:46 | a value exactly when the key is stored, and then the stored string |
| Session.LocalStorage.SetItem | src/pages/LogInPage.tsx:31 | the storage gains or overwrites that one key and nothing else changes |
| Session.LocalStorage.RemoveItem | src/components/SideDrawer.tsx:96 | the storage loses that one key and nothing else changes |
| ApiStore.Register | src/state/apiStore.ts:65-71 | POST "/auth/register" with first name, last name and email |
| ApiStore.Login | src/state/apiStore.ts:72-77 | POST "/auth/login" with email and password |
| ApiStore.AddPet | src/state/apiStore.ts:78-80 | POST "/add" with the pet fields passed through unchanged |
| ApiStore.UpdatePet | src/state/apiStore.ts:85-87 | POST, not PUT, to "/" and the id, which `parseInt` reads back from the path, with the fields unchanged |
| ApiStore.GetAllPetsByUserId | src/state/apiStore.ts:92-95 | GET "/pets/all" with no body |
| ApiStore.GetPetById | src/state/apiStore.ts:100-103 | GET "/pets/" followed by exactly the id text |
| ApiStore.PlainErrorOnFailure | src/state/apiStore.ts:78-91 | a resolved response passes through, and any rejection becomes one without a response |
| ApiStore.AddAndUpdateDistinct | src/state/apiStore.ts:80-87 | adding and updating never address the same path, whatever the id |
| ApiStore.GetPetByIdCollidesOnlyWithAll | src/state/apiStore.ts:94-102 | fetching one pet is the same request as fetching all of them exactly when the id text is "all" |
| ApiStore.UpdatePathDeterminesId | src/state/apiStore.ts:87 | equal update paths mean equal pet ids |
| ApiStore.AuthorizationIffToken | src/state/apiStore.ts:46-54 | the header is present exactly when the token is a non-empty string, and then is "Bearer " and the token |
| ApiStore.WithAuthorization | src/state/apiStore.ts:49-54 | with a truthy stored token the `Authorization` header is set to "Bearer " and the token, otherwise it is deleted |
| ApiStore.OtherHeadersUnchanged | src/state/apiStore.ts:48-56 | every header other than `Authorization` keeps its presence and its value |
| ApiStore.InterceptIdempotent | src/state/apiStore.ts:49-54 | intercepting twice with the same storage gives the headers of intercepting once |
| ApiStore.Intercept | src/state/apiStore.ts:43-57 | returns the same config; its headers become the stored-token rule applied to the old headers, and nothing else changes |
| ApiStore.NoAuthorizationAfterLogout | src/state/apiStore.ts:49-54 | after logout's removals no request carries an `Authorization` header |
| ApiStore.BearerAfterLogin | src/state/apiStore.ts:46-50 | after a login stored a non-empty token, the headers gain exactly "Bearer " and that token |
| Alerts.SeverityOrDefault | src/state/snackBarStore.ts:19-22 | a missing severity is "info", and a given one is kept |
| Alerts.SnackBarStore.constructor | src/state/snackBarStore.ts:14-17 | the slot starts closed, with empty text and severity "info" |
| Alerts.SnackBarStore.SetIsOpenAlert | src/state/snackBarStore.ts:18 | only the open flag changes, to the given value |
| Alerts.SnackBarStore.OpenAlert | src/state/snackBarStore.ts:19-22 | the slot is open with exactly this text and severity, or "info" when none is given, whatever it held before |
| Alerts.SnackBarStore.Publish | src/state/snackBarStore.ts:19-22 | a raised alert is opened as by `openAlert`; no alert leaves the slot as it was |
| Alerts.OpenTwice | src/state/snackBarStore.ts:18-22 | after open, close, open, the slot is open and holds only the second message; there is no queue |
| AlertSnackBar.ShownSeverity | src/components/AlertSnackBar.tsx:17 | the severity prop, or "info" when it is not given |
| AlertSnackBar.CallerCallbacks | src/components/AlertSnackBar.tsx:18 | with no `onClose` given, the caller's code never runs; otherwise it runs once per invocation |
| AlertSnackBar.HandleClose | src/components/AlertSnackBar.tsx:21-31 | "clickaway" leaves the flag alone and calls nothing; any other close, or one with no reason, clears the flag and then calls `onClose` once |
| ImageUtils.TypeName | src/utils/imageUtils.tsx:9 | the three accepted type names have three or four letters |
| ImageUtils.DataUrlHeader | src/utils/imageUtils.tsx:11 | the header is 19 characters longer than the type name and starts with "data:image/" |
| ImageUtils.AddDataUrlPrefix | src/utils/imageUtils.tsx:7-12 | the length is type + data + 19; the URL starts with "data:image/", has the type after it and ends with the data |
| ImageUtils.StripDataUrlPrefix | src/utils/imageUtils.tsx:11 | a stripped result, put back behind the header, is the URL it came from |
| ImageUtils.StripAfterAdd | src/utils/imageUtils.tsx:11 | stripping the header of the same type gives back the base64 text |
| ImageUtils.HeadersDiffer | src/utils/imageUtils.tsx:9-11 | the headers of two different types differ in the characters after "data:image/" |
| ImageUtils.AddDataUrlPrefixInjective | src/utils/imageUtils.tsx:7-12 | the URL determines both the base64 text and the type |
| Age.AgeInYears | src/components/cards/PetCard.tsx:29-41 | the age is the number of birthdays reached: that anniversary is on or before today, and the next one is after it |
| Age.AgeIsUnique | src/components/pets-page/PetCard.tsx:27-36 | no other count satisfies that characterisation |
| Age.AgeNonNegative | src/components/pets-page/PetCard.tsx:30-35 | a birth date on or before today gives an age of at least 0 |
| Age.AgeOnBirthday | src/components/cards/PetCard.tsx:32-39 | on the birthday's month and day the age is exactly the year difference |
| Age.AgeMonotonic | src/components/ProfileDetails.tsx:52-57 | the age never decreases as today moves forward |
| ProfileDetails.AgeText | src/components/ProfileDetails.tsx:48-69 | `parseInt` reads the zero-year month count from the start of the text when the year count is 0, otherwise the year count; the text always ends in " months" |
| ProfileDetails.ZeroYearMonths | src/components/ProfileDetails.tsx:59-63 | the zero-year month count: the raw month difference when it is not negative, otherwise twelve plus it, one less when today's day of the month is before the birth day |
| ProfileDetails.AgeTextParts | src/components/ProfileDetails.tsx:58-68 | with a year count of 0 the text is exactly the zero-year month count followed by " months"; otherwise it is the year count, " years and ", then the raw month difference today.month - birth.month (read back by `parseInt`, possibly negative), then " months" |
| ProfileDetails.ZeroYearMonthsInRange | src/components/ProfileDetails.tsx:59-63 | in the zero-year branch the month count lies in 0..11 |
| ProfileDetails.AgeTextAsWrittenExamples | src/components/ProfileDetails.tsx:53-68 | on 1 April 2023 a pet born 1 July 2020 is "2 years and -3 months"; on 10 March 2023 one born 15 January 2023 is "2 months" |
| ProfileDetails.CorrectedAgeParts | src/components/ProfileDetails.tsx:52-68 | years × 12 + months is the number of whole months lived, the months lie in 0..11, and the years are `calculateAge`'s |
| ProfileDetails.CorrectedAgeText | src/components/ProfileDetails.tsx:59-68 | `parseInt` reads the whole months from the start of the corrected text when under a year old, otherwise the whole years |
| ProfileDetails.CorrectedAgeTextParts | src/components/ProfileDetails.tsx:59-68 | under a year the corrected text is exactly the whole months, in 0..11, then " months"; otherwise it is the years, " years and ", then the months since the last birthday (read back by `parseInt`, always in 0..11), then " months" |
| ProfileDetails.CorrectedAgeTextExample | src/components/ProfileDetails.tsx:59-68 | the two examples above become "2 years and 9 months" and "1 months" |
| ProfileDetails.OrdinalSuffix | src/components/ProfileDetails.tsx:71-81 | "th" for 11 to 13, and always one of "st", "nd", "rd" or "th" |
| ProfileDetails.OrdinalSuffixOfMonthDays | src/components/ProfileDetails.tsx:71-81 | over days 1 to 31: "st" exactly on 1, 21 and 31, "nd" exactly on 2 and 22, "rd" exactly on 3 and 23 |
| ProfileDetails.OrdinalSuffixOfNegative | src/components/ProfileDetails.tsx:75 | the sign-keeping `%` makes -9 and -21 end in "th" |
| ProfileDetails.FormatDateWithOrdinal | src/components/ProfileDetails.tsx:83-89 | the text is, in this order and with nothing else, the day, its two-letter ordinal suffix, " of ", the month name, ", " and the year |
| ProfileDetails.FormatDateWithOrdinalReadsDay | src/components/ProfileDetails.tsx:84-88 | `parseInt` reads the day back from the start of the date text |
| ProfileDetails.HandleUpdatePet | src/components/ProfileDetails.tsx:29-44 | 200 shows the fetched pet with a success alert; anything else keeps the pet with an error alert; the dialog closes on every path |
| PetCards.GenderWord | src/components/cards/PetCard.tsx:89 | "Male" exactly for a male pet and "Female" exactly otherwise |
| PetCards.Summary | src/components/cards/PetCard.tsx:89 | the summary is type, breed, then the gender, age and weight tail |
| PetCards.SummaryDeterminesGenderAgeWeight | src/components/pets-page/PetCard.tsx:78 | two pets of one type and breed with equal summaries agree on gender, age and weight |
| PetCards.ProfilePath | src/components/cards/PetCard.tsx:25-27 | the link is "/" and a text that `parseInt` reads as the pet id |
| PetCards.ProfilePathInjective | src/components/pets-page/PetCard.tsx:23-25 | different pet ids give different links |
| PetCards.CardImage | src/components/cards/PetCard.tsx:43 | a picture exactly for a non-empty image: a PNG data URL whose stripped data is the image |
| PetCards.PetsPageImage | src/components/pets-page/PetCard.tsx:63 | the image text itself when non-empty, with no prefix, otherwise the bundled picture |
| AppointmentCard.StatusLabel | src/components/cards/AppointmentCard.tsx:25-36 | each of the three known states has its own label, each in both directions, and any other status is exactly "Unknown" |
| SideDrawer.DrawerPathsDistinct | src/components/SideDrawer.tsx:17-38 | the four item paths are pairwise distinct |
| SideDrawer.IsHighlighted | src/components/SideDrawer.tsx:81 | an item is highlighted exactly when the location's path equals the item's path |
| SideDrawer.AtMostOneHighlighted | src/components/SideDrawer.tsx:76-81 | at most one item is highlighted, and one is exactly when the location is one of the four paths |
| SideDrawer.Logout | src/components/SideDrawer.tsx:95-101 | the storage loses exactly the session keys; the route is "/login"; the message has no severity and shows as "info" |
| SideDrawer.LogoutThenRequest | src/components/SideDrawer.tsx:96-98 | after logout the next intercepted request has no `Authorization` header |
| LogInPage.HandleLogin | src/pages/LogInPage.tsx:26-53 | 200 stores the `token` field and both names, goes to "/pets" and raises a success alert. No response is the network message, 401 is bad credentials and the rest is a failed login; every failure leaves storage untouched |
| LogInPage.OnSubmit | src/pages/LogInPage.tsx:89-96 | a missing field raises "Please fill in all fields." and sends nothing; otherwise it sends the login |
| LogInPage.CanSubmit | src/pages/LogInPage.tsx:91 | the form may be sent exactly when the email and the password are both non-empty |
| LogInPage.LoginThenRequest | src/pages/LogInPage.tsx:29-35 | after a login with a non-empty token, the next request carries "Bearer " and that token |
| LogIn.HandleLogin | src/components/auth/LogIn.tsx:26-55 | 200 stores the `jwt` field and both names and goes to "/"; every failure sets its message, opens the snackbar and leaves storage untouched |
| LogIn.OnSubmit | src/components/auth/LogIn.tsx:89-94 | with a missing field nothing at all happens; otherwise it sends the login |
| LogIn.CanSubmit | src/components/auth/LogIn.tsx:91 | the form may be sent exactly when the email and the password are both non-empty |
| LogIn.MissingJwtSendsBearerUndefined | src/components/auth/LogIn.tsx:31 | a response without `jwt` stores "undefined", and later requests carry "Bearer undefined" |
| SignUpPage.HandleRegister | src/pages/SignUpPage.tsx:24-49 | exactly 200 goes to "/login" with no alert. No response is the network message, 409 is an existing user and every other failure is a failed registration |
| SignUpPage.OnSubmit | src/pages/SignUpPage.tsx:85-92 | a missing field raises the fill-in message and sends nothing; otherwise it sends the register request |
| SignUpPage.CanSubmit | src/pages/SignUpPage.tsx:87 | the form may be sent exactly when the first name, the last name and the email are all non-empty |
| SignUp.HandleRegister | src/components/auth/SignUp.tsx:25-53 | 200 goes to "/login" and keeps the message state; every failure sets its message and opens the snackbar |
| SignUp.OnSubmit | src/components/auth/SignUp.tsx:87-92 | with a missing field nothing happens; otherwise it sends the register request |
| SignUp.CanSubmit | src/components/auth/SignUp.tsx:89 | the form may be sent exactly when the first name, the last name and the email are all non-empty |
| PetsPage.FetchPets | src/pages/PetsPage.tsx:18-57 | only a 200 array replaces the list. A 200 non-array is a format error; 400, 404 and 500 have their own messages; every other status, 204 included, is unexpected; a rejection is the network message |
| PetsPage.HandleAddPet | src/pages/PetsPage.tsx:66-75 | fetches "/pets/" and the id. On 200 the pet goes after the existing ones in order; another status raises an error and keeps the list; a rejection, not caught, raises nothing. The dialog closes regardless |
| AppointmentsPage.FetchAppointments | src/pages/AppointmentsPage.tsx:18-53 | as on the pets page, but 204 raises nothing; the alert is absent exactly for a 200 array or a 204 |
| AppointmentsPage.HandleAddAppointment | src/pages/AppointmentsPage.tsx:61-64 | the old list is kept as a prefix, the new appointment is last, and the dialog closes |
| AppointmentsPage.WithoutId | src/pages/AppointmentsPage.tsx:66-70 | an appointment is kept exactly when it was in the list and has another id |
| AppointmentsPage.WithoutIdAppend | src/pages/AppointmentsPage.tsx:67-69 | deleting distributes over concatenation, so the kept appointments stay in their order |
| AppointmentsPage.WithoutIdOfSingle | src/pages/AppointmentsPage.tsx:68 | a single appointment is dropped exactly when it has the id |
| AppointmentsPage.WithoutAbsentId | src/pages/AppointmentsPage.tsx:66-70 | deleting an id that no appointment has leaves the list unchanged |
| AppointmentsPage.WithoutIdIdempotent | src/pages/AppointmentsPage.tsx:66-70 | deleting an id twice is deleting it once |
| AppointmentsPage.DeleteAfterAdd | src/pages/AppointmentsPage.tsx:61-70 | deleting the id of the appointment just added gives the old list without that id |
| PetProfilePage.FetchPet | src/pages/PetProfilePage.tsx:74-101 | no route id sends and raises nothing. Otherwise it sends `getPetById(parseInt(id))`; only 200 sets the details; 400, 404, 500, other statuses and rejections each have their message; `loading` ends false on every path |
| PetProfilePage.PetRequest | src/pages/PetProfilePage.tsx:77 | the request for a route id: `getPetById` of the route id read by `parseInt` with the radix omitted, the number rendered into the path |
| PetProfilePage.CardRouteFetchesThatPet | src/pages/PetProfilePage.tsx:77 | the route a card links to fetches exactly that card's pet |
| PetProfilePage.NonNumericRouteRequestsNaN | src/pages/PetProfilePage.tsx:77 | a route id with no leading digits requests "/pets/NaN" |
| ProfilePage.PasswordOk | src/pages/ProfilePage.tsx:38 | at least eight characters, each a letter, a digit or one of @$!%*?&, with at least one lowercase letter, one uppercase letter, one digit and one of those special characters |
| ProfilePage.PasswordExamples | src/pages/ProfilePage.tsx:38 | "Secret1!" meets the rule; a short one, one with no uppercase, one with no special character and one with a space do not |
| ProfilePage.PasswordOkExtends | src/pages/ProfilePage.tsx:38 | appending an allowed character to an accepted password keeps it accepted |
| ProfilePage.ChangePassword | src/pages/ProfilePage.tsx:37-73 | a rejected password raises the rule and sends nothing. Otherwise success is exactly 200; 400 and 500 have their own messages, other statuses are unexpected and rejections are the network message |
| ProfilePage.FetchUserDetails | src/pages/ProfilePage.tsx:76-107 | only 200 stores the user. 400, 404, 500 and other statuses raise their error messages; a rejection raises the network message; `loading` ends false |
| ProfilePage.UpdateImage | src/pages/ProfilePage.tsx:120-138 | the type sent is "png"; only 200 replaces the photo, keeps the other fields and leaves a missing user missing; every other outcome raises the failure message |
| AddAppointmentDialog.FetchPets | src/components/dialogs/AddAppointmentDialog.tsx:40-73 | the pets-page table through `window.alert`; only a 200 array sets the pets. The form's load at src/components/vet-appointments/AppointmentForm.tsx:30-67 is the same code |
| AddAppointmentDialog.Filled | src/components/dialogs/AddAppointmentDialog.tsx:93 | the submit guard of both appointment forms: a pet id that is set and not 0, a date, and a non-empty time; src/components/vet-appointments/AppointmentForm.tsx:87 is the same test |
| AddAppointmentDialog.FirstIndexWithId | src/components/dialogs/AddAppointmentDialog.tsx:103 | the position of the first pet with the id: every earlier pet has another id, and the position is the end of the list exactly when no pet has the id |
| AddAppointmentDialog.FindPet | src/components/dialogs/AddAppointmentDialog.tsx:103 | none exactly when no pet has the id; otherwise the pet with that id that comes first in the list, as `find` returns |
| AddAppointmentDialog.RequestBody | src/components/dialogs/AddAppointmentDialog.tsx:108-115 | no id, user 1, the pet's id, SCHEDULED, the date-time text, 30 minutes and 2500 cents |
| AddAppointmentDialog.Submit | src/components/dialogs/AddAppointmentDialog.tsx:92-116 | an incomplete form, or an id no loaded pet has, raises its alert and sends nothing; otherwise it sends the body for the chosen pet |
| AddAppointmentDialog.HandleOutcome | src/components/dialogs/AddAppointmentDialog.tsx:117-145 | exactly 201 submits the data and closes. Another resolved status is unexpected; no response is the network message; 400, 401 and 500 have their own messages; the rest is "Failed to add pet" |
| AddPetDialog.NewPetFields | src/components/dialogs/AddPetDialog.tsx:40-43 | name, gender, breed and image are sent as entered, and age and weight as numbers |
| AddPetDialog.TypedNumbersSent | src/components/dialogs/AddPetDialog.tsx:40-43 | typed whole numbers, followed by any text that does not start with a digit, are sent as those numbers |
| AddPetDialog.EmptyNumbersSendNaN | src/components/dialogs/AddPetDialog.tsx:40-41 | empty age and weight fields are sent as NaN |
| AddPetDialog.HandleAddClick | src/components/dialogs/AddPetDialog.tsx:37-72 | sends the new pet to "/add". Exactly 200 hands on the id and closes; other statuses are unexpected; 400, 401 and 500 have their own messages, else "Failed to add pet" |
| AddPetDialog.AddThroughStore | src/state/apiStore.ts:78-83 | through the store every failure shows the network message, so the per-status messages are never shown |
| EditPetDialog.InitFields | src/components/dialogs/EditPetDialog.tsx:46-55 | a pet fills all six fields from its record, and no pet leaves them as they are |
| EditPetDialog.SentFields | src/components/dialogs/EditPetDialog.tsx:61 | every field is sent as the text it holds |
| EditPetDialog.HandleUpdateClick | src/components/dialogs/EditPetDialog.tsx:57-94 | no pet means nothing is sent. Otherwise it posts to the pet's path; exactly 200 hands on the data and closes; 400, 401, 404 and 500 have their own messages, else "Failed to update pet" |
| EditPetDialog.UpdateThroughStore | src/state/apiStore.ts:85-90 | through the store every failure shows the network message, and the per-status messages are never shown |
| EditPetDialog.UnchangedSaveSendsPet | src/components/dialogs/EditPetDialog.tsx:46-61 | opening on a pet and saving without edits sends that pet's own texts to its path |
| AppointmentForm.BeforeFirstT | src/components/vet-appointments/AppointmentForm.tsx:93 | the longest prefix without a 'T', ending at the first 'T' or at the end |
| AppointmentForm.BeforeFirstTOfIso | src/components/vet-appointments/AppointmentForm.tsx:93 | the date part of "<date>T<rest>" is read back whole |
| AppointmentForm.LocalDateTime | src/components/vet-appointments/AppointmentForm.tsx:93 | the text is the ISO date part, a 'T', the time and ":00" |
| AppointmentForm.LocalDateTimeOfIso | src/components/vet-appointments/AppointmentForm.tsx:93 | for "<date>T<clock>" the text sent is "<date>T<time>:00" |
| AppointmentForm.PetAtPosition | src/components/vet-appointments/AppointmentForm.tsx:98 | a pet exactly when 1 ≤ value ≤ the number of pets, and it is a loaded pet |
| AppointmentForm.FirstIndexWithId | src/components/vet-appointments/AppointmentForm.tsx:166-169 | the position of the first pet holding the id the menu offered, or the end of the list when no pet holds it |
| AppointmentForm.PetWithId | src/components/vet-appointments/AppointmentForm.tsx:166-169 | the pet whose id the menu offered: none exactly when no pet has the id, otherwise the first pet in the list with that id |
| AppointmentForm.PositionIsIdWhenConsecutive | src/components/vet-appointments/AppointmentForm.tsx:98 | the position lookup and the id lookup agree when the ids are 1, 2, 3, ... in order |
| AppointmentForm.PositionLookupMisses | src/components/vet-appointments/AppointmentForm.tsx:98 | with pets 2 and 1, choosing 1 books pet 2; with a single pet 7, choosing it finds no pet; the id lookup finds the chosen pet in both cases |
| AppointmentForm.RequestBody | src/components/vet-appointments/AppointmentForm.tsx:95-103 | id 0, user 1, the pet's id, SCHEDULED, the text, 30 minutes and 2500 cents |
| AppointmentForm.Submit | src/components/vet-appointments/AppointmentForm.tsx:86-104 | as written: an incomplete form raises its alert; a position outside the list throws and sends nothing; otherwise it sends the body for the pet at that position |
| AppointmentForm.SubmitCorrected | src/components/vet-appointments/AppointmentForm.tsx:86-104 | a body is sent exactly when a loaded pet has the chosen id, and then names that pet; otherwise an alert |
| AppointmentForm.OutcomeAlert | src/components/vet-appointments/AppointmentForm.tsx:105-118 | success exactly on 201; nothing on other resolved statuses; 404 is a failure and other statuses a server outage; no response shows nothing |
| AppointmentForm.OutcomeAlertCorrected | src/components/vet-appointments/AppointmentForm.tsx:112-118 | every rejection reports something; no response reports the outage; everything else is as written |
| AppointmentForm.UnreachableServerGoesUnreported | src/components/vet-appointments/AppointmentForm.tsx:113 | a rejection without a response is reported as written by nothing, and once corrected as the outage |

## Left out

- Rendering, layout, themes and routing: they are presentation with no decision rule.
- Medical and vaccine log cards and dialogs: their handlers only log to the console.
- The real network and axios: every request's result is an outcome parameter.
  - Left out: `baseURL`, `withCredentials`, promise scheduling, and the interceptor's error handler at src/state/apiStore.ts:58-60, which only passes the error on.
  - Which statuses axios resolves and which it rejects is not assumed. Every handler takes every outcome shape.
- `getDetails`, `updateUserImage`, `resetUserPassword`, `addVeterinaryAppointment`, `getAllAppointments` and `handleApiError`: the pages call them, but the store as shown does not define them. They are sources of outcomes.
- React state timing, `useEffect` ordering, unmounting during a request and racing requests: these are concurrency.
- JavaScript `Date`, time zones, `toISOString` and the `setHours(hours + 2)` shift: today, the calendar fields and the ISO text are parameters.
- AddAppointmentDialog.Submit: the date-time text is a parameter; its computation from the chosen day and time in the browser's zone is not modelled.
- AppointmentForm.LocalDateTime: the browser's ISO text for the chosen day is a parameter; which calendar day it names in UTC is not modelled.
- ProfileDetails.FormatDateWithOrdinal: the month name comes from the locale and is a parameter.
- Session.Stored: the login response is taken to be an object whose fields are strings or absent. A JSON `null` field, which `setItem` would store as the text "null", and a 200 with no body, where reading `response.data.token` throws inside `.then` so that the `.catch` shows the network message, are not modelled.
- The appointment card's date and cost formatting: `toLocaleDateString` and `toFixed` are presentation and floating point.
- The cost of 25.0 is modelled as 2500 cents. Floating-point arithmetic is left out.
- PetCards.Summary: the weight is a whole number of kilograms; how JavaScript renders a fractional weight is not modelled.
- Js.ParseInt: the numbers are unbounded integers, so the precision limit of JavaScript numbers and `-0` are not modelled.
- The file picker and `FileReader`: the base64 text it produces is a parameter of `ProfilePage.UpdateImage`.
- The password regular expression: it is stated as the equivalent predicate over characters, `ProfilePage.PasswordOk`, not as regular expression matching.
- The profile details' picture at src/components/ProfileDetails.tsx:46: it reads an `imageType` that the pet record does not have, so there is nothing to model.
- ProfileDetails.HandleUpdatePet: the request it makes is not stated; it is the `getPetById` request of the pets page.
- The form-field bindings and dialog open/close buttons: they only copy input into state.

## Findings

| source | as written | input that shows it | evidently intended | confidence | as-written member | corrected member |
|---|---|---|---|---|---|---|
| src/components/ProfileDetails.tsx:68 | the months part of an age of a year or more is the raw difference of the month numbers | today 1 April 2023, born 1 July 2020: "2 years and -3 months" | the months since the last birthday, 0 to 11: "2 years and 9 months" | not executed | ProfileDetails.AgeTextAsWrittenExamples | ProfileDetails.CorrectedAgeText |
| src/components/ProfileDetails.tsx:61-62 | under a year, a non-negative month difference is used without checking the day of the month | today 10 March 2023, born 15 January 2023: "2 months", though only one whole month has passed | whole months lived: "1 months" | not executed | ProfileDetails.AgeTextAsWrittenExamples | ProfileDetails.CorrectedAgeParts |
| src/components/vet-appointments/AppointmentForm.tsx:98 | the chosen pet id, which the menu sets to a pet's id, is used as a 1-based position | pets with ids 2 then 1, choosing 1 books pet 2; a single pet with id 7, choosing it throws and sends nothing | look the pet up by id, as the appointment dialog does | not executed | AppointmentForm.PositionLookupMisses | AppointmentForm.SubmitCorrected |
| src/components/vet-appointments/AppointmentForm.tsx:113 | the rejection handler reads `error.response.status` without checking that a response exists | a request that gets no response: the handler throws and no message is shown | report the outage, as every other rejection without 404 does | not executed | AppointmentForm.UnreachableServerGoesUnreported | AppointmentForm.OutcomeAlertCorrected |
