/** The booking page: the studio's seat map is loaded and grouped into rows, the visitor
  * picks seats up to a cap, a confirmation modal opens, the payment endpoint is asked for
  * a Snap token, and on a successful payment the ticket is saved in the browser under
  * `tickets_<user id>`, where the ticket history page reads it back. The HTTP replies and
  * the Snap widget's callbacks are inputs of the methods that handle them. */
module Checkout {

  import opened Base
  import opened Text
  import opened Js
  import opened Storage
  import opened Records
  import opened HistoryMerge
  import opened MyTickets
  import opened Pricing
  import opened Selection
  import opened SeatGrid

  const GuestUser := "guest_user"
  const NoStudioMessage := "Studio tidak ditemukan. Silakan kembali ke halaman sebelumnya."
  const NoSeatsMessage := "Tidak ada data kursi tersedia untuk studio ini."
  const LoadFailedMessage := "Gagal memuat data kursi. Periksa koneksi backend."
  const NoScheduleMessage := "Schedule tidak lengkap."
  const PaymentFailedMessage := "Gagal memproses pembayaran. Silakan coba lagi."
  const InvalidReplyMessage := "Response pembayaran tidak valid."
  const PaidMessage := "Pembayaran sukses! Tiket Anda telah diterbitkan."
  const PendingMessage := "Pembayaran pending. Silakan selesaikan pembayaran Anda."
  const SnapErrorMessage := "Terjadi kesalahan pembayaran. Silakan coba lagi."
  const PaidTicketStatus := "Lunas"

  /** The fields of the stored `user` that may name the booking's user, in order. */
  const UserIdFields: seq<string> := ["id_user", "id", "userId", "email"]

  /** The `user` entry of `localStorage` as `JSON.parse` reads it: missing (or empty), a
    * plain object, `null` (reading a property of it throws), another JSON value (every
    * property is `undefined`), or text that does not parse. */
  datatype StoredUser = NoUser | UserObject(fields: JsObject) | UserNull | UserOther | UserGarbled

  /** `a || b || ... || z` over the properties `fields` of `o`. */
  function OrChain(o: JsObject, fields: seq<string>): JsValue
    requires fields != []
  {
    if |fields| == 1 then Prop(o, fields[0]) else Or(Prop(o, fields[0]), OrChain(o, fields[1..]))
  }

  lemma {:induction false} CandidateIdsCons(o: JsObject, fields: seq<string>)
    requires fields != []
    ensures CandidateIds(o, fields) ==
      (if Truthy(Prop(o, fields[0])) then [Prop(o, fields[0])] else []) + CandidateIds(o, fields[1..])
    decreases |fields|
  {
    if |fields| > 1 {
      var init := fields[..|fields| - 1];
      CandidateIdsCons(o, init);
      assert init[1..] == fields[1..][..|fields[1..]| - 1];
      assert init[0] == fields[0];
    } else {
      assert fields[1..] == [];
      assert fields[..0] == [];
    }
  }

  /** An `||` chain yields the first truthy operand, or the last operand when none is. */
  lemma {:induction false} OrChainFirstTruthy(o: JsObject, fields: seq<string>)
    requires fields != []
    ensures CandidateIds(o, fields) != [] ==> OrChain(o, fields) == CandidateIds(o, fields)[0]
    ensures CandidateIds(o, fields) == [] ==> OrChain(o, fields) == Prop(o, fields[|fields| - 1])
    decreases |fields|
  {
    CandidateIdsCons(o, fields);
    if |fields| > 1 {
      OrChainFirstTruthy(o, fields[1..]);
    } else {
      assert CandidateIds(o, fields[1..]) == [];
    }
  }

  /** The user id the booking is saved under: the `userId` prop, or else the first truthy
    * of `id_user`, `id`, `userId`, `email` of the stored user. */
  function BookingUserId(prop: JsValue, stored: StoredUser): JsValue {
    if Truthy(prop) then prop
    else match stored
      case UserObject(o) => OrChain(o, UserIdFields)
      case UserOther => Undefined
      case _ => prop
  }

  /** A truthy prop wins; otherwise a stored object supplies its first truthy id field,
    * and with no usable stored user the id stays falsy. */
  lemma BookingUserIdChoice(prop: JsValue, stored: StoredUser)
    ensures Truthy(prop) ==> BookingUserId(prop, stored) == prop
    ensures !Truthy(prop) && stored.UserObject? && CandidateIds(stored.fields, UserIdFields) != [] ==>
      BookingUserId(prop, stored) == CandidateIds(stored.fields, UserIdFields)[0]
    ensures !Truthy(prop) && !(stored.UserObject? && CandidateIds(stored.fields, UserIdFields) != []) ==>
      !Truthy(BookingUserId(prop, stored))
  {
    if stored.UserObject? {
      OrChainFirstTruthy(stored.fields, UserIdFields);
    }
  }

  /** The storage key of the booking's tickets. */
  function TicketKey(userId: JsValue): string {
    TicketPrefix + ToStr(Or(userId, Str(GuestUser)))
  }

  /** A falsy user id saves under `tickets_guest_user`; a truthy one under its own key. */
  lemma TicketKeyChoice(userId: JsValue)
    ensures Truthy(userId) ==> TicketKey(userId) == KeysFor(TicketPrefix, [userId])[0]
    ensures !Truthy(userId) ==> TicketKey(userId) == TicketPrefix + GuestUser
  {
  }

  /** The status a seat button shows. */
  datatype SeatStatus = Taken | Selected | Available

  function StatusOf(seat: GridSeat, selected: seq<string>): (s: SeatStatus)
    ensures s == Taken <==> !seat.isAvailable
    ensures s == Selected <==> seat.isAvailable && seat.seatNumber in selected
  {
    if !seat.isAvailable then Taken
    else if seat.seatNumber in selected then Selected
    else Available
  }

  /** The form body of the payment request. */
  datatype PaymentRequest = PaymentRequest(scheduleId: string, seats: string, amount: string)

  function PaymentRequestFor(scheduleId: JsValue, selected: seq<string>, price: int): PaymentRequest {
    PaymentRequest(ToStr(scheduleId), Join(selected, ','), IntToString(SubTotal(|selected|, price)))
  }

  /** The request names the schedule, its seat list splits back into the selection (no
    * seat number holds a comma), and its amount is the subtotal: with a positive price
    * and a selection, less than the total the page shows. */
  lemma PaymentRequestContents(scheduleId: JsValue, selected: seq<string>, price: int)
    requires selected != []
    requires forall i :: 0 <= i < |selected| ==> ',' !in selected[i]
    ensures Split(PaymentRequestFor(scheduleId, selected, price).seats, ',') == selected
    ensures StrToNumber(PaymentRequestFor(scheduleId, selected, price).amount) == Some(|selected| * price)
    ensures price >= 0 ==> StrToNumber(PaymentRequestFor(scheduleId, selected, price).amount) != Some(GrandTotal(|selected|, price))
  {
    SplitJoin(selected, ',');
    NumberOfIntToString(SubTotal(|selected|, price));
    if price >= 0 {
      assert TaxAmount(SubTotal(|selected|, price)) >= 0;
    }
  }

  /** The reply of the payment endpoint: a failure carrying `err.response?.data?.message`,
    * or the body's `token`, `snap?.token` and `redirect_url`. */
  datatype PaymentReply =
    | PaymentFailed(message: JsValue)
    | PaymentOk(token: JsValue, snapToken: JsValue, redirectUrl: JsValue)

  /** Where the page goes next. */
  datatype Next = Stay | OpenSnap(token: JsValue) | Redirect(url: JsValue) | Navigate(path: string)

  /** What a successful Snap payment reports. */
  datatype SnapResult = SnapResult(transactionId: JsValue, orderId: JsValue)

  /** The ticket list written back after a payment, or `None` when reading the old list
    * throws (unparseable text, or a parsed value that cannot be spread). */
  function SavedTickets(existing: Option<Stored<Ticket>>, t: Ticket): (r: Option<seq<Ticket>>)
    ensures r.Some? ==> |r.value| >= 1 && r.value[0] == t
    ensures existing.None? || existing == Some(Blank) ==> r == Some([t])
    ensures existing.Some? && existing.value.ArrayOf? ==> r == Some([t] + existing.value.items)
    ensures r.None? <==> existing.Some? && !existing.value.Blank? && !existing.value.ArrayOf?
  {
    match existing
    case None => Some([t])
    case Some(Blank) => Some([t])
    case Some(ArrayOf(items)) => Some([t] + items)
    case Some(_) => None
  }

  /** The seat endpoint's reply: a failure with its message, or the listed seats
    * (`res.data?.data || res.data`; `None` when that is missing). */
  datatype SeatsReply = SeatsFailed(message: JsValue) | SeatsListed(raw: Option<seq<RawSeat>>)

  /** The schedule endpoint's reply: a failure, or `data.studio_id` and `data.data.studio_id`. */
  datatype ScheduleReply = ScheduleFailed | ScheduleData(studioId: JsValue, nestedStudioId: JsValue)

  /** The studio whose seats are requested: the one the schedule names when it names one,
    * else the one the page was opened with; a failed schedule request is ignored. */
  function ResolveStudioId(initial: JsValue, scheduleId: JsValue, reply: ScheduleReply): (s: JsValue)
    ensures !Truthy(scheduleId) || reply.ScheduleFailed? ==> s == initial
    ensures Truthy(scheduleId) && reply.ScheduleData? && Truthy(reply.studioId) ==> s == reply.studioId
    ensures Truthy(scheduleId) && reply.ScheduleData? && !Truthy(reply.studioId) && Truthy(reply.nestedStudioId) ==>
      s == reply.nestedStudioId
    ensures Truthy(scheduleId) && reply.ScheduleData? && !Truthy(reply.studioId) && !Truthy(reply.nestedStudioId) ==>
      s == initial
  {
    if Truthy(scheduleId) && reply.ScheduleData? && Truthy(Or(reply.studioId, reply.nestedStudioId))
    then Or(reply.studioId, reply.nestedStudioId)
    else initial
  }

  class BookingPage {
    const ticketPrice: int
    const maxSeats: int
    const scheduleId: JsValue
    const initialStudioId: JsValue
    const userId: JsValue
    const movieTitle: string
    const moviePoster: string
    const cinema: string
    const showtime: string
    const watchDate: string

    var isLoading: bool
    var isSubmitting: bool
    var seatsData: seq<Row>
    var selectedSeats: seq<string>
    var error: Option<string>
    var showConfirmModal: bool
    /** The selection the last payment request was sent for. The Snap callbacks are
      * closures made by that `executePayment` call, so they still see this selection
      * even if the seats are toggled while the widget is open. */
    var paidSeats: seq<string>

    /** The selection invariant the page keeps. */
    predicate Valid()
      reads this
    {
      ValidSelection(selectedSeats, maxSeats)
    }

    /** The page as first rendered: prices and cap fall back to their defaults, the user id
      * to the stored user's, and everything else starts empty. */
    constructor (priceProp: int, maxSeatsProp: int, scheduleId: JsValue, studioId: JsValue,
                 userIdProp: JsValue, storedUser: StoredUser, movieTitle: string,
                 moviePoster: string, cinema: string, showtime: string, watchDate: string)
      ensures ticketPrice == OrDefault(priceProp, DefaultTicketPrice)
      ensures maxSeats == OrDefault(maxSeatsProp, DefaultMaxSeats)
      ensures this.scheduleId == scheduleId && initialStudioId == studioId
      ensures userId == BookingUserId(userIdProp, storedUser)
      ensures this.movieTitle == movieTitle && this.moviePoster == moviePoster
      ensures this.cinema == cinema && this.showtime == showtime && this.watchDate == watchDate
      ensures isLoading && !isSubmitting && seatsData == [] && selectedSeats == []
      ensures error == None && !showConfirmModal && paidSeats == []
      ensures Valid()
    {
      ticketPrice := OrDefault(priceProp, DefaultTicketPrice);
      maxSeats := OrDefault(maxSeatsProp, DefaultMaxSeats);
      this.scheduleId := scheduleId;
      initialStudioId := studioId;
      userId := BookingUserId(userIdProp, storedUser);
      this.movieTitle := movieTitle;
      this.moviePoster := moviePoster;
      this.cinema := cinema;
      this.showtime := showtime;
      this.watchDate := watchDate;
      isLoading := true;
      isSubmitting := false;
      seatsData := [];
      selectedSeats := [];
      error := None;
      showConfirmModal := false;
      paidSeats := [];
    }

    /** `toggleSeat(seatId)`: returns whether the "maximum seats" alert is raised. */
    method ToggleSeat(seatId: string) returns (capAlert: bool)
      requires Valid()
      modifies this
      ensures paidSeats == old(paidSeats)
      ensures selectedSeats == Toggled(old(selectedSeats), seatId, maxSeats)
      ensures capAlert == CapReached(old(selectedSeats), seatId, maxSeats)
      ensures Valid()
      ensures isSubmitting == old(isSubmitting) && showConfirmModal == old(showConfirmModal)
      ensures seatsData == old(seatsData) && error == old(error) && isLoading == old(isLoading)
    {
      ToggledValid(selectedSeats, seatId, maxSeats);
      capAlert := false;
      if seatId in selectedSeats {
        selectedSeats := Without(selectedSeats, seatId);
        return;
      }
      if |selectedSeats| >= maxSeats {
        capAlert := true;
        return;
      }
      selectedSeats := selectedSeats + [seatId];
    }

    /** A click on a seat button: a taken seat is ignored, any other toggles its number. */
    method ClickSeat(seat: GridSeat) returns (capAlert: bool)
      requires Valid()
      modifies this
      ensures paidSeats == old(paidSeats)
      ensures StatusOf(seat, old(selectedSeats)) == Taken ==> selectedSeats == old(selectedSeats) && !capAlert
      ensures StatusOf(seat, old(selectedSeats)) != Taken ==>
        selectedSeats == Toggled(old(selectedSeats), seat.seatNumber, maxSeats) &&
        capAlert == CapReached(old(selectedSeats), seat.seatNumber, maxSeats)
      ensures Valid()
      ensures isSubmitting == old(isSubmitting) && showConfirmModal == old(showConfirmModal)
      ensures seatsData == old(seatsData) && error == old(error) && isLoading == old(isLoading)
    {
      capAlert := false;
      if StatusOf(seat, selectedSeats) != Taken {
        capAlert := ToggleSeat(seat.seatNumber);
      }
    }

    /** Whether the checkout button is enabled: seats are selected and no payment is
      * being submitted, which keeps a second payment from starting. */
    predicate CheckoutEnabled()
      reads this
    {
      selectedSeats != [] && !isSubmitting
    }

    /** `handleInitialCheckout`: opens the confirmation modal, but only with a selection. */
    method HandleInitialCheckout()
      modifies this
      ensures paidSeats == old(paidSeats)
      ensures showConfirmModal == (old(showConfirmModal) || old(selectedSeats) != [])
      ensures selectedSeats == old(selectedSeats) && isSubmitting == old(isSubmitting)
      ensures seatsData == old(seatsData) && error == old(error) && isLoading == old(isLoading)
    {
      if selectedSeats == [] {
        return;
      }
      showConfirmModal := true;
    }

    /** The backdrop, the close icon and the cancel button of the modal: each closes it,
      * and none can while a payment is being submitted. */
    method DismissModal()
      modifies this
      ensures paidSeats == old(paidSeats)
      ensures showConfirmModal == (old(showConfirmModal) && old(isSubmitting))
      ensures selectedSeats == old(selectedSeats) && isSubmitting == old(isSubmitting)
      ensures seatsData == old(seatsData) && error == old(error) && isLoading == old(isLoading)
    {
      if !isSubmitting {
        showConfirmModal := false;
      }
    }

    /** `executePayment` up to the request: nothing with an empty selection; without a
      * schedule the "schedule incomplete" alert and a closed modal; otherwise the page
      * enters the submitting state and sends the request for the selection. */
    method ExecutePayment() returns (request: Option<PaymentRequest>, alert: Option<string>)
      modifies this
      ensures old(selectedSeats) == [] ==>
        request == None && alert == None && showConfirmModal == old(showConfirmModal) &&
        isSubmitting == old(isSubmitting)
      ensures old(selectedSeats) != [] && !Truthy(scheduleId) ==>
        request == None && alert == Some(NoScheduleMessage) && !showConfirmModal &&
        isSubmitting == old(isSubmitting)
      ensures old(selectedSeats) != [] && Truthy(scheduleId) ==>
        request == Some(PaymentRequestFor(scheduleId, old(selectedSeats), ticketPrice)) &&
        alert == None && isSubmitting && showConfirmModal == old(showConfirmModal) &&
        paidSeats == old(selectedSeats)
      ensures !(old(selectedSeats) != [] && Truthy(scheduleId)) ==> paidSeats == old(paidSeats)
      ensures request.Some? ==> !CheckoutEnabled()
      ensures selectedSeats == old(selectedSeats)
      ensures seatsData == old(seatsData) && error == old(error) && isLoading == old(isLoading)
    {
      request, alert := None, None;
      if selectedSeats == [] {
        return;
      }
      if !Truthy(scheduleId) {
        alert := Some(NoScheduleMessage);
        showConfirmModal := false;
        return;
      }
      isSubmitting := true;
      paidSeats := selectedSeats;
      var amount := |selectedSeats| * ticketPrice;
      request := Some(PaymentRequest(ToStr(scheduleId), Join(selectedSeats, ','), IntToString(amount)));
    }

    /** `executePayment` after the reply. A failure alerts its message (or a default),
      * leaves the submitting state and closes the modal. A reply closes the modal and
      * opens the Snap widget when it has a token and the widget is loaded, else follows
      * the redirect URL, else alerts an invalid reply and leaves the submitting state. */
    method PaymentReplied(reply: PaymentReply, snapLoaded: bool) returns (next: Next, alert: Option<string>)
      modifies this
      ensures paidSeats == old(paidSeats)
      ensures !showConfirmModal
      ensures reply.PaymentFailed? ==>
        next == Stay && alert == Some(ToStr(Or(reply.message, Str(PaymentFailedMessage)))) && !isSubmitting
      ensures reply.PaymentOk? && Truthy(Or(reply.token, reply.snapToken)) && snapLoaded ==>
        next == OpenSnap(Or(reply.token, reply.snapToken)) && alert == None && isSubmitting == old(isSubmitting)
      ensures reply.PaymentOk? && !(Truthy(Or(reply.token, reply.snapToken)) && snapLoaded) && Truthy(reply.redirectUrl) ==>
        next == Redirect(reply.redirectUrl) && alert == None && isSubmitting == old(isSubmitting)
      ensures reply.PaymentOk? && !(Truthy(Or(reply.token, reply.snapToken)) && snapLoaded) && !Truthy(reply.redirectUrl) ==>
        next == Stay && alert == Some(InvalidReplyMessage) && !isSubmitting
      ensures next == Stay ==> (CheckoutEnabled() <==> selectedSeats != [])
      ensures next != Stay ==> CheckoutEnabled() == old(CheckoutEnabled())
      ensures selectedSeats == old(selectedSeats)
      ensures seatsData == old(seatsData) && error == old(error) && isLoading == old(isLoading)
    {
      match reply
      case PaymentFailed(message) =>
        alert := Some(ToStr(Or(message, Str(PaymentFailedMessage))));
        next := Stay;
        isSubmitting := false;
        showConfirmModal := false;
      case PaymentOk(token, snapToken, redirectUrl) =>
        var t := Or(token, snapToken);
        showConfirmModal := false;
        if Truthy(t) && snapLoaded {
          next, alert := OpenSnap(t), None;
        } else if Truthy(redirectUrl) {
          next, alert := Redirect(redirectUrl), None;
        } else {
          next, alert := Stay, Some(InvalidReplyMessage);
          isSubmitting := false;
        }
    }

    /** The ticket a successful payment at instant `now` records: the seats, count and
      * total are those of the paid selection. */
    function NewTicket(result: SnapResult, now: int): (t: Ticket)
      reads this
      ensures t.id == Num(now) && t.bookingDate == now
      ensures t.seats == paidSeats && t.quantity == |paidSeats|
      ensures t.totalAmount == GrandTotal(|paidSeats|, ticketPrice)
      ensures t.status == PaidTicketStatus
      ensures Truthy(result.transactionId) ==> t.transactionId == result.transactionId
      ensures !Truthy(result.transactionId) ==> t.transactionId == result.orderId
    {
      Ticket(Num(now), movieTitle, moviePoster, cinema, showtime, watchDate, now, paidSeats,
        |paidSeats|, GrandTotal(|paidSeats|, ticketPrice), PaidTicketStatus,
        Or(result.transactionId, result.orderId))
    }

    /** The recorded ticket matches the payment request that was sent: its seats are the
      * ones the request lists, and the request's amount is the subtotal of its count (the
      * ticket's total adds the tax and the admin fee on top). */
    lemma NewTicketMatchesRequest(result: SnapResult, now: int)
      requires paidSeats != []
      requires forall i :: 0 <= i < |paidSeats| ==> ',' !in paidSeats[i]
      ensures var request := PaymentRequestFor(scheduleId, paidSeats, ticketPrice);
        var t := NewTicket(result, now);
        && Split(request.seats, ',') == t.seats
        && StrToNumber(request.amount) == Some(SubTotal(t.quantity, ticketPrice))
        && t.totalAmount == GrandTotal(t.quantity, ticketPrice)
    {
      PaymentRequestContents(scheduleId, paidSeats, ticketPrice);
    }

    /** The Snap widget's `onSuccess`: the new ticket is put in front of the stored list of
      * the booking's user (none stored counts as empty); if reading that list throws,
      * nothing is written. Either way the success alert shows and the page moves to the
      * ticket history. */
    method OnSnapSuccess(result: SnapResult, now: int, store: Store<Stored<Ticket>>)
      returns (saved: bool, next: Next, alert: Option<string>)
      modifies store
      ensures var list := SavedTickets(old(store.GetItem(TicketKey(userId))), NewTicket(result, now));
        && saved == list.Some?
        && (saved ==> store.items == old(store.items)[TicketKey(userId) := ArrayOf(list.value)])
        && (!saved ==> store.items == old(store.items))
      ensures saved ==> (
        && TicketKey(userId) in store.items
        && store.items[TicketKey(userId)].ArrayOf?
        && |store.items[TicketKey(userId)].items| >= 1
        && store.items[TicketKey(userId)].items[0].seats == paidSeats
        && store.items[TicketKey(userId)].items[0].totalAmount == GrandTotal(|paidSeats|, ticketPrice))
      ensures next == Navigate("/mytickets") && alert == Some(PaidMessage)
    {
      var key := TicketKey(userId);
      var t := NewTicket(result, now);
      var existing := store.GetItem(key);
      var list := SavedTickets(existing, t);
      saved := list.Some?;
      if saved {
        store.SetItem(key, ArrayOf(list.value));
      }
      next, alert := Navigate("/mytickets"), Some(PaidMessage);
    }

    /** `onPending`: an alert and a move to the home page; the submitting state stays. */
    method OnSnapPending() returns (next: Next, alert: Option<string>)
      ensures next == Navigate("/") && alert == Some(PendingMessage)
    {
      next, alert := Navigate("/"), Some(PendingMessage);
    }

    /** `onError`: an alert, and the page leaves the submitting state; nothing else changes. */
    method OnSnapError() returns (alert: Option<string>)
      modifies this
      ensures paidSeats == old(paidSeats)
      ensures alert == Some(SnapErrorMessage) && !isSubmitting
      ensures CheckoutEnabled() <==> selectedSeats != []
      ensures selectedSeats == old(selectedSeats) && showConfirmModal == old(showConfirmModal)
      ensures seatsData == old(seatsData) && error == old(error) && isLoading == old(isLoading)
    {
      alert := Some(SnapErrorMessage);
      isSubmitting := false;
    }

    /** `onClose`: the page leaves the submitting state; nothing else changes. */
    method OnSnapClose()
      modifies this
      ensures paidSeats == old(paidSeats)
      ensures !isSubmitting
      ensures CheckoutEnabled() <==> selectedSeats != []
      ensures selectedSeats == old(selectedSeats) && showConfirmModal == old(showConfirmModal)
      ensures seatsData == old(seatsData) && error == old(error) && isLoading == old(isLoading)
    {
      isSubmitting := false;
    }

    /** `load`: resolves the studio (the schedule reply is read only when there is a
      * schedule id), fails without one, requests its seats, fails on a missing or empty
      * list or a failed request, and otherwise shows the grouped grid. Returns the studio
      * whose seats were requested. The loading flag is cleared later by a timer. */
    method Load(scheduleReply: ScheduleReply, seatsReply: SeatsReply) returns (seatsRequest: Option<JsValue>)
      modifies this
      ensures paidSeats == old(paidSeats)
      ensures var studio := ResolveStudioId(initialStudioId, scheduleId, scheduleReply);
        && isLoading
        && (!Truthy(studio) ==>
              seatsRequest == None && error == Some(NoStudioMessage) && seatsData == old(seatsData))
        && (Truthy(studio) ==> seatsRequest == Some(studio))
        && (Truthy(studio) && seatsReply.SeatsFailed? ==>
              error == Some(ToStr(Or(seatsReply.message, Str(LoadFailedMessage)))) && seatsData == old(seatsData))
        && (Truthy(studio) && seatsReply.SeatsListed? && (seatsReply.raw.None? || seatsReply.raw.value == []) ==>
              error == Some(NoSeatsMessage) && seatsData == old(seatsData))
        && (Truthy(studio) && seatsReply.SeatsListed? && seatsReply.raw.Some? && seatsReply.raw.value != [] ==>
              error == None && seatsData == GridOf(seatsReply.raw.value))
      ensures selectedSeats == old(selectedSeats) && isSubmitting == old(isSubmitting)
      ensures showConfirmModal == old(showConfirmModal)
    {
      isLoading := true;
      error := None;
      seatsRequest := None;
      var studio := initialStudioId;
      if Truthy(scheduleId) && scheduleReply.ScheduleData? {
        var named := Or(scheduleReply.studioId, scheduleReply.nestedStudioId);
        if Truthy(named) {
          studio := named;
        }
      }
      if !Truthy(studio) {
        error := Some(NoStudioMessage);
        return;
      }
      seatsRequest := Some(studio);
      match seatsReply
      case SeatsFailed(message) =>
        error := Some(ToStr(Or(message, Str(LoadFailedMessage))));
      case SeatsListed(raw) =>
        if raw.None? || raw.value == [] {
          error := Some(NoSeatsMessage);
          return;
        }
        seatsData := GroupSeats(raw.value);
    }

    /** The delayed end of loading. */
    method LoadingTimerFired()
      modifies this
      ensures paidSeats == old(paidSeats)
      ensures !isLoading
      ensures selectedSeats == old(selectedSeats) && isSubmitting == old(isSubmitting)
      ensures showConfirmModal == old(showConfirmModal)
      ensures seatsData == old(seatsData) && error == old(error)
    {
      isLoading := false;
    }
  }

  lemma {:induction false} GatherHas<T>(entries: map<string, Stored<T>>, keys: seq<string>, key: string, x: T)
    requires key in keys && key in entries && entries[key].ArrayOf? && x in entries[key].items
    ensures x in Gather(entries, keys)
    decreases |keys|
  {
    var init := keys[..|keys| - 1];
    if keys[|keys| - 1] != key {
      assert key in init by {
        var i :| 0 <= i < |keys| && keys[i] == key;
        assert init[i] == key;
      }
      GatherHas(entries, init, key, x);
    }
  }

  /** A ticket the booking page saved is listed by the ticket history page whenever one of
    * the keys that page reads is the booking's key: the history shows a ticket with the
    * saved ticket's id, the last stored version of it. */
  lemma SavedTicketInHistory(entries: map<string, Stored<Ticket>>, keys: seq<string>, key: string,
                             t: Ticket, older: seq<Ticket>)
    requires key in keys && key in entries && entries[key] == ArrayOf([t] + older)
    ensures exists u :: (u in TicketHistory(entries, keys) && u.id == t.id &&
      t.id in KeysOf(Gather(entries, keys), TicketId) && u == LastWithKey(Gather(entries, keys), TicketId, t.id))
  {
    GatherHas(entries, keys, key, t);
    TicketHistoryCorrect(entries, keys);
  }

  /** The history page reads the booking's key when the booking's user id is one of the
    * signed-in user's truthy candidate ids. */
  lemma BookingKeyIsProbed(user: JsObject, userId: JsValue)
    requires userId in CandidateIds(user, LoadFields)
    ensures TicketKey(userId) in Distinct(KeysFor(TicketPrefix, CandidateIds(user, LoadFields)))
  {
    var ids := CandidateIds(user, LoadFields);
    var keys := KeysFor(TicketPrefix, ids);
    var i :| 0 <= i < |ids| && ids[i] == userId;
    assert keys[i] == TicketKey(userId);
  }
}
