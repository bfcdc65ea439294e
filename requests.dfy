/** A booking request as the screens see it, and the status names of its lifecycle. */
module Requests {
  import opened Wrappers

  const StatusNew: string := "Новая"
  const StatusConfirmed: string := "Подтверждена"
  const StatusRejected: string := "Отклонена"

  /** The "all" entry of the status and country filters. */
  const FilterAll: string := "Все"

  /** `Models.Request`; `status` is `None` where the object's `Status` is null. Dates are ticks. */
  datatype Request = Request(
    id: int, clientName: string, phone: string, email: string,
    tourId: int, tourName: string, requestDate: int, status: Option<string>)

  /**
   * The request the booking screens build: no phone or e-mail, the tour's
   * id and name, the time of the click, and status "Новая".
   */
  function NewBooking(clientName: string, tourId: int, tourName: string, now: int): Request {
    Request(0, clientName, "", "", tourId, tourName, now, Some(StatusNew))
  }
}
