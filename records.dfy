/** The records kept in the browser: a purchased ticket and a wishlisted movie. */
module Records {

  import opened Js

  /** A ticket record as the booking page stores it under `tickets_<user id>`.
    * `bookingDate` is the booking instant as a timestamp. */
  datatype Ticket = Ticket(
    id: JsValue,
    movieTitle: string,
    moviePoster: string,
    cinemaName: string,
    showtime: string,
    watchDate: string,
    bookingDate: int,
    seats: seq<string>,
    quantity: nat,
    totalAmount: int,
    status: string,
    transactionId: JsValue)

  function TicketId(t: Ticket): JsValue {
    t.id
  }

  /** A movie record as stored under `wishlist_<user id>`; an absent poster field is "". */
  datatype Movie = Movie(id: JsValue, title: string, posterPath: string, posterUrl: string, image: string)

  function MovieId(m: Movie): JsValue {
    m.id
  }
}
