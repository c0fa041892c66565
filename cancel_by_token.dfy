/**
 * `CancelByTokenUseCase`: a customer cancels a booking with the token they were sent.
 * The reservation is looked up by token, its restaurant by id, the entity's `cancel()`
 * transition is applied, the reservation is saved once and the customer is sent one
 * cancellation notice. `now` is the database clock that stamps the saved row.
 */
module CancelByToken {
  import opened Wrappers
  import opened DomainErrors
  import opened Tables
  import opened ReservationEntity
  import opened ReservationRepository
  import RestaurantEntity
  import RestaurantRepository
  import opened Notifications

  datatype CancelByTokenResult = CancelByTokenResult(success: bool, message: string)

  const CANCELLED_MESSAGE := "Reservation cancelled successfully"
  const TOKEN_NOT_FOUND := "Reservation not found or token is invalid"

  /**
   * The unknown-token error as written: the whole sentence is passed as the resource
   * name with no id, so the constructor appends " not found" to it.
   */
  function TokenNotFoundAsWritten(): Exception {
    NotFoundError(TOKEN_NOT_FOUND, "")
  }

  lemma TokenNotFoundAsWrittenRepeats()
    ensures TokenNotFoundAsWritten() ==
      DomainError(NotFound, "Reservation not found or token is invalid not found")
  {
  }

  /** The unknown-token error with the message the sentence states. */
  function TokenNotFound(): (e: Exception)
    ensures e.DomainError? && e.kind == NotFound && e.message == TOKEN_NOT_FOUND
    ensures e != TokenNotFoundAsWritten()
  {
    assert |TOKEN_NOT_FOUND| < |TokenNotFoundAsWritten().message|;
    DomainError(NotFound, TOKEN_NOT_FOUND)
  }

  /** What a successful cancellation writes and whom it notifies. */
  datatype Cancellation = Cancellation(cancelled: ReservationProps, restaurant: RestaurantEntity.RestaurantProps)

  /**
   * The decision `execute` takes before saving: an unknown token, a missing restaurant,
   * or a reservation that may not be cancelled stops it; otherwise the reservation
   * after `cancel()`.
   */
  function CancelPlan(rows: seq<ReservationRow>, restaurants: seq<RestaurantRepository.RestaurantRow>,
                      token: string): (r: Result<Cancellation>)
    ensures ByToken(rows, token).None? ==> r == Err(TokenNotFound())
    ensures r.Ok? ==>
      && ByToken(rows, token).Some?
      && ByToken(rows, token).value.status in {PENDING, CONFIRMED}
      && r.value.cancelled == ByToken(rows, token).value.(status := CANCELLED)
      && r.value.restaurant.id == r.value.cancelled.restaurantId
  {
    match ByToken(rows, token)
    case None => Err(TokenNotFound())
    case Some(reservation) =>
      match RestaurantRepository.ById(restaurants, reservation.restaurantId)
      case None => Err(NotFoundError("Restaurant", reservation.restaurantId))
      case Some(restaurant) =>
        match ApplyAction(reservation, Action.Cancel)
        case Err(e) => Err(e)
        case Ok(cancelled) => Ok(Cancellation(cancelled, restaurant))
  }

  /**
   * A known token whose restaurant exists fails exactly when the reservation is already
   * rejected or cancelled, and then with the entity's BadRequest.
   */
  lemma CancelPlanErrors(rows: seq<ReservationRow>, restaurants: seq<RestaurantRepository.RestaurantRow>, token: string)
    requires ByToken(rows, token).Some?
    ensures RestaurantRepository.ById(restaurants, ByToken(rows, token).value.restaurantId).None? ==>
      CancelPlan(rows, restaurants, token) == Err(NotFoundError("Restaurant", ByToken(rows, token).value.restaurantId))
    ensures RestaurantRepository.ById(restaurants, ByToken(rows, token).value.restaurantId).Some? ==>
      (CancelPlan(rows, restaurants, token).Err? <==> IsTerminal(ByToken(rows, token).value.status))
    ensures (RestaurantRepository.ById(restaurants, ByToken(rows, token).value.restaurantId).Some?
      && IsTerminal(ByToken(rows, token).value.status)) ==>
      CancelPlan(rows, restaurants, token) == Err(BadRequestError(CANCEL_ONLY_ACTIVE))
  {
  }

  /** The one notice of a cancellation: to the customer, about that booking. */
  function CancelNotice(c: Cancellation): (n: Notice)
    ensures n.ReservationCancelled? && n.to == c.cancelled.customerEmail
    ensures n.restaurantName == c.restaurant.name
  {
    ReservationCancelled(c.cancelled.customerEmail, c.cancelled.customerName,
      c.cancelled.customerLastName, c.restaurant.name, c.cancelled.date, c.cancelled.time,
      c.cancelled.numberOfPeople)
  }

  /** The cancelled reservation keeps its id and token, so writing it back hits no other row. */
  lemma CancelledRowFits(rows: seq<ReservationRow>, restaurants: seq<RestaurantRepository.RestaurantRow>, token: string)
    requires UniqueKeys(rows) && CancelPlan(rows, restaurants, token).Ok?
    ensures var c := CancelPlan(rows, restaurants, token).value.cancelled;
      !TakenByOther(rows, ToEntity(c), RowToken, RowId)
      && c.cancellationToken == token
      && IndexOf(rows, RowId, c.id).Some?
  {
    var c := CancelPlan(rows, restaurants, token).value.cancelled;
    var i :| 0 <= i < |rows| && ByToken(rows, token).value == ToDomainArgs(rows[i])
      && forall j :: 0 <= j < |rows| && j != i ==> rows[j].cancellationToken != token;
    assert rows[i].id == c.id;
  }

  /** The table after a successful cancellation. */
  function AfterCancel(rows: seq<ReservationRow>, c: Cancellation, now: int): seq<ReservationRow> {
    Upsert(rows, ToEntity(c.cancelled), now)
  }

  /**
   * Cancelling again with the same token fails with BadRequest: the stored reservation
   * is now CANCELLED.
   */
  lemma CancelTwiceFails(rows: seq<ReservationRow>, restaurants: seq<RestaurantRepository.RestaurantRow>,
                         token: string, now: int)
    requires UniqueKeys(rows) && CancelPlan(rows, restaurants, token).Ok?
    ensures var after := AfterCancel(rows, CancelPlan(rows, restaurants, token).value, now);
      UniqueKeys(after) && CancelPlan(after, restaurants, token) == Err(BadRequestError(CANCEL_ONLY_ACTIVE))
  {
    var c := CancelPlan(rows, restaurants, token).value;
    CancelledRowFits(rows, restaurants, token);
    var row := ToEntity(c.cancelled);
    UpsertKeepsKeysUnique(rows, row, now);
    var after := AfterCancel(rows, c, now);
    var k := IndexOf(rows, RowId, c.cancelled.id).value;
    assert after[k] == row.(createdAt := rows[k].createdAt, updatedAt := Some(now));
    IndexOfUnique(after, RowToken, token, k);
    assert ByToken(after, token) == Some(ToDomainArgs(after[k]));
  }

  /**
   * `execute`: on any error nothing is saved and nothing is sent; otherwise the
   * reservation is written back once as CANCELLED and exactly one notice is sent.
   */
  method Execute(token: string, reservations: ReservationTypeOrmRepository,
                 restaurants: RestaurantRepository.RestaurantTypeOrmRepository, notifier: Notifier, now: int)
    returns (r: Result<CancelByTokenResult>)
    requires reservations.Valid()
    modifies reservations, notifier
    ensures reservations.Valid()
    ensures var plan := CancelPlan(old(reservations.rows), restaurants.rows, token);
      if plan.Err? then
        r == Err(plan.error) && reservations.rows == old(reservations.rows) && notifier.sent == old(notifier.sent)
      else
        && reservations.rows == AfterCancel(old(reservations.rows), plan.value, now)
        && notifier.sent == old(notifier.sent) + [CancelNotice(plan.value)]
        && r == Ok(CancelByTokenResult(true, CANCELLED_MESSAGE))
  {
    ghost var plan := CancelPlan(reservations.rows, restaurants.rows, token);
    var reservation := reservations.FindByToken(token);
    if reservation.None? {
      return Err(TokenNotFound());
    }
    var res := reservation.value;
    var restaurant := restaurants.FindById(res.restaurantId);
    if restaurant.None? {
      return Err(NotFoundError("Restaurant", res.restaurantId));
    }
    var outcome := res.Cancel();
    if outcome.Fail? {
      return Err(outcome.error);
    }
    assert plan == Ok(Cancellation(res.Props(), restaurant.value.Props()));
    CancelledRowFits(reservations.rows, restaurants.rows, token);
    var saved := reservations.Save(res, now);
    notifier.Send(ReservationCancelled(res.customerEmail, res.customerName, res.customerLastName,
      restaurant.value.name, res.date, res.time, res.numberOfPeople));
    r := Ok(CancelByTokenResult(true, CANCELLED_MESSAGE));
  }
}
