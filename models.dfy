/** The records the client receives and shows. */
module Models {
  import opened Js

  /** A calendar date as `Date` reports it in local time: the full year, the month
      counted from 0 (January) as `getMonth` does, and the day of the month. */
  datatype CalendarDate = CalendarDate(year: int, month: int, day: int)

  predicate ValidMonth(d: CalendarDate)
  {
    0 <= d.month < 12
  }

  /** The order of dates: by year, then month, then day. */
  predicate OnOrBefore(a: CalendarDate, b: CalendarDate)
  {
    a.year < b.year ||
    (a.year == b.year && (a.month < b.month || (a.month == b.month && a.day <= b.day)))
  }

  /** A pet. `animalType` is the text of its animal type; `weight` is a whole
      number of kilograms. */
  datatype Pet = Pet(
    id: int,
    name: string,
    image: string,
    isMale: bool,
    dateOfBirth: CalendarDate,
    breed: string,
    weight: int,
    animalType: string)

  /** The appointment states the cards name; any other value the backend sends is `Other`. */
  datatype AppointmentStatus = Scheduled | Completed | Canceled | Other(name: string)

  datatype Appointment = Appointment(id: int, petId: int, localDateTime: string, status: AppointmentStatus,
                                     duration: int, costCents: int)

  /** The fixed length in minutes and base cost in euro cents (25.0 euros) of a new
      appointment. */
  const AppointmentDuration := 30
  const AppointmentBaseCostCents := 2500

  /** The body of a new-appointment request; `id` is sent only by the form that
      sets it. */
  datatype AppointmentBody = AppointmentBody(
    id: Option<int>,
    userId: int,
    petId: int,
    status: AppointmentStatus,
    localDateTime: string,
    duration: int,
    costCents: int)
}
