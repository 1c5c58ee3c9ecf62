/** The appointment card's status label. */
module AppointmentCard {
  import opened Models

  /** The label shown for a status: the three known states by name, anything
      else as "Unknown". */
  function StatusLabel(status: AppointmentStatus): (shown: string)
    ensures status == Scheduled <==> shown == "Scheduled"
    ensures status == Completed <==> shown == "Completed"
    ensures status == Canceled <==> shown == "Canceled"
    ensures status.Other? <==> shown == "Unknown"
  {
    match status
    case Scheduled => "Scheduled"
    case Completed => "Completed"
    case Canceled => "Canceled"
    case Other(_) => "Unknown"
  }
}
