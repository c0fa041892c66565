/**
 * The e-mail port as the core sees it: every `send...` call appends one notice, carrying
 * the parameters the use case passed, to an append-only log. Delivery, templates and
 * the adapter's own error handling are outside the model.
 */
module Notifications {
  import opened Wrappers

  datatype Notice =
    | NewReservationToAdmin(to: string, restaurantName: string, customerName: string,
        customerLastName: string, customerEmail: string, customerPhone: string, date: string,
        time: string, numberOfPeople: int, notes: Option<string>, isAutoConfirmed: bool)
    | ReservationAccepted(to: string, customerName: string, customerLastName: string,
        restaurantName: string, date: string, time: string, numberOfPeople: int, notes: Option<string>)
    | ReservationPending(to: string, customerName: string, customerLastName: string,
        restaurantName: string, date: string, time: string, numberOfPeople: int, notes: Option<string>)
    | ReservationCancelled(to: string, customerName: string, customerLastName: string,
        restaurantName: string, date: string, time: string, numberOfPeople: int)
    | WelcomeToNewAdmin(to: string, firstName: string, lastName: string, restaurantName: string,
        restaurantCategory: string, restaurantAddress: string, restaurantPhone: string,
        restaurantEmail: string, tempPassword: string)

  class Notifier {
    var sent: seq<Notice>

    constructor ()
      ensures sent == []
    {
      sent := [];
    }

    /** One `send...` call of the port. */
    method Send(n: Notice)
      modifies this
      ensures sent == old(sent) + [n]
    {
      sent := sent + [n];
    }
  }
}
