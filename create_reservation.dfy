/**
 * `CreateReservationUseCase`: admission of a booking request. It loads the restaurant,
 * its settings and the restaurant's reservations for the requested date, runs the five
 * validator checks in order, picks the initial status from the acceptance mode, saves
 * the reservation once and sends one notice to the restaurant and one to the customer.
 *
 * `nowMs` is the wall clock the advance check reads, `now` the database clock that
 * stamps the saved row, and `newId`/`newToken` the two UUIDs the use case generates.
 */
module CreateReservation {
  import opened Wrappers
  import opened DomainErrors
  import opened ValidationConstants
  import opened ReservationEntity
  import opened ReservationRepository
  import opened ReservationValidator
  import opened RestaurantEntity
  import RestaurantRepository
  import opened Tables
  import opened SettingsEntity
  import opened Notifications

  datatype CreateReservationInput = CreateReservationInput(
    restaurantId: string,
    date: string,
    time: string,
    numberOfPeople: int,
    customerName: string,
    customerLastName: string,
    customerEmail: string,
    customerPhone: string,
    notes: Option<string>)

  datatype ReservationSummary = ReservationSummary(
    id: string,
    restaurantId: string,
    date: string,
    time: string,
    numberOfPeople: int,
    status: ReservationStatus,
    cancellationToken: string)

  datatype CreateReservationResult = CreateReservationResult(reservation: ReservationSummary, message: string)

  const NOT_ACCEPTING := "This restaurant is not accepting reservations"
  const CONFIRMED_MESSAGE := "Reservation confirmed successfully"
  const PENDING_MESSAGE := "Reservation request received. You will be notified once the restaurant confirms"

  /** The initial status: confirmed at once in automatic mode, pending otherwise. */
  function InitialStatus(mode: AcceptanceMode): (s: ReservationStatus)
    ensures s == CONFIRMED <==> mode == AUTO
    ensures s == CONFIRMED || s == PENDING
  {
    if mode == AUTO then CONFIRMED else PENDING
  }

  /** The one filter of the day query: the requested date. */
  function DayFilter(date: string): ReservationFilters {
    ReservationFilters(None, Some(date), None, None)
  }

  /** The restaurant's reservations of that date, as the capacity check sees them. */
  function DayReservations(rows: seq<ReservationRow>, restaurantId: string, date: string): seq<ReservationProps> {
    AsDomain(QueryResult(rows, restaurantId, DayFilter(date)))
  }

  /**
   * The capacity check sees the restaurant's reservations on the requested date and
   * nothing else.
   */
  lemma DayReservationsMeaning(rows: seq<ReservationRow>, restaurantId: string, date: string)
    requires |date| > 0
    ensures forall p :: p in DayReservations(rows, restaurantId, date) ==>
      p.restaurantId == restaurantId && p.date == date
    ensures forall row :: row in rows && row.restaurantId == restaurantId && row.date == date ==>
      ToDomainArgs(row) in DayReservations(rows, restaurantId, date)
  {
    var q := QueryResult(rows, restaurantId, DayFilter(date));
    QueryResultMeaning(rows, restaurantId, DayFilter(date));
    forall p | p in DayReservations(rows, restaurantId, date)
      ensures p.restaurantId == restaurantId && p.date == date
    {
      var i :| 0 <= i < |q| && DayReservations(rows, restaurantId, date)[i] == p;
      assert q[i] in q;
    }
    forall row | row in rows && row.restaurantId == restaurantId && row.date == date
      ensures ToDomainArgs(row) in DayReservations(rows, restaurantId, date)
    {
      assert row in q;
      var i :| 0 <= i < |q| && q[i] == row;
      assert DayReservations(rows, restaurantId, date)[i] == ToDomainArgs(row);
    }
  }

  /** What admission decided: the shift the booking falls in and its initial status. */
  datatype Admission = Admission(shift: TimeRange, status: ReservationStatus)

  /**
   * The decision `execute` takes before saving: the first failing guard or check, in the
   * order restaurant, active, settings, group size, advance time, opening hours, slot
   * interval, capacity; otherwise the admission. The capacity check is given the shift
   * the opening-hours check returned.
   */
  function Admit(restaurant: Option<RestaurantProps>, settings: Option<SettingsProps>,
                 day: seq<ReservationProps>, input: CreateReservationInput, nowMs: int): (r: Result<Admission>)
    requires IsTimeHHMM(input.time)
    requires settings.Some? ==> WellFormedHours(settings.value.openingHours)
    ensures r.Ok? ==> restaurant.Some? && restaurant.value.isActive && settings.Some?
    ensures r.Ok? ==> input.numberOfPeople <= MAX_ONLINE_GROUP_SIZE
    ensures r.Ok? ==> Occupancy(r.value.shift, day) + input.numberOfPeople <= r.value.shift.capacity
    ensures r.Ok? ==> InShift(r.value.shift, input.time)
    ensures r.Ok? ==> (r.value.status == CONFIRMED <==> settings.value.acceptanceMode == AUTO)
    ensures r.Ok? ==> r.value.status == CONFIRMED || r.value.status == PENDING
  {
    if restaurant.None? then Err(NotFoundError("Restaurant", input.restaurantId))
    else if !restaurant.value.isActive then Err(BadRequestError(NOT_ACCEPTING))
    else if settings.None? then Err(NotFoundError("Settings for restaurant", input.restaurantId))
    else
      var s := settings.value;
      var group := ValidateGroupSize(input.numberOfPeople);
      var advance := ValidateMinimumAdvanceTime(input.date, input.time, nowMs);
      if group.Fail? then Err(group.error)
      else if advance.Fail? then Err(advance.error)
      else match ValidateOpeningHours(input.date, input.time, s.openingHours)
        case Err(e) => Err(e)
        case Ok(shift) =>
          var slot := ValidateTimeSlotInterval(input.time, s.timeSlotInterval);
          var capacity := ValidateCapacity(input.numberOfPeople, shift, day);
          if slot.Fail? then Err(slot.error)
          else if capacity.Fail? then Err(capacity.error)
          else Ok(Admission(shift, InitialStatus(s.acceptanceMode)))
  }

  /**
   * A booking is admitted exactly when the restaurant exists and is active, it has
   * settings, and all five checks pass; it is then admitted into the shift the
   * opening-hours check found, confirmed iff the mode is automatic.
   */
  lemma AdmitIffAllChecksPass(restaurant: Option<RestaurantProps>, settings: Option<SettingsProps>,
                              day: seq<ReservationProps>, input: CreateReservationInput, nowMs: int)
    requires IsTimeHHMM(input.time)
    requires settings.Some? ==> WellFormedHours(settings.value.openingHours)
    ensures Admit(restaurant, settings, day, input, nowMs).Ok? <==>
      && restaurant.Some? && restaurant.value.isActive && settings.Some?
      && input.numberOfPeople <= MAX_ONLINE_GROUP_SIZE
      && ValidateMinimumAdvanceTime(input.date, input.time, nowMs).Pass?
      && ValidateOpeningHours(input.date, input.time, settings.value.openingHours).Ok?
      && ValidateTimeSlotInterval(input.time, settings.value.timeSlotInterval).Pass?
      && ValidateCapacity(input.numberOfPeople,
           ValidateOpeningHours(input.date, input.time, settings.value.openingHours).value, day).Pass?
    ensures Admit(restaurant, settings, day, input, nowMs).Ok? ==>
      && Admit(restaurant, settings, day, input, nowMs).value.shift ==
           ValidateOpeningHours(input.date, input.time, settings.value.openingHours).value
      && (Admit(restaurant, settings, day, input, nowMs).value.status == CONFIRMED <==>
           settings.value.acceptanceMode == AUTO)
  {
  }

  /**
   * The guards and checks run in order: once the earlier ones pass, the first one that
   * fails supplies the error.
   */
  lemma AdmitCheckOrder(restaurant: RestaurantProps, s: SettingsProps,
                        day: seq<ReservationProps>, input: CreateReservationInput, nowMs: int)
    requires IsTimeHHMM(input.time) && WellFormedHours(s.openingHours) && restaurant.isActive
    ensures input.numberOfPeople > MAX_ONLINE_GROUP_SIZE ==>
      Admit(Some(restaurant), Some(s), day, input, nowMs) == Err(BadRequestError(GROUP_TOO_LARGE))
    ensures input.numberOfPeople <= MAX_ONLINE_GROUP_SIZE && ValidateMinimumAdvanceTime(input.date, input.time, nowMs).Fail? ==>
      Admit(Some(restaurant), Some(s), day, input, nowMs) == Err(BadRequestError(TOO_LATE_TO_BOOK))
    ensures (input.numberOfPeople <= MAX_ONLINE_GROUP_SIZE && ValidateMinimumAdvanceTime(input.date, input.time, nowMs).Pass?
      && ValidateOpeningHours(input.date, input.time, s.openingHours).Err?) ==>
      Admit(Some(restaurant), Some(s), day, input, nowMs) == Err(ValidateOpeningHours(input.date, input.time, s.openingHours).error)
    ensures (input.numberOfPeople <= MAX_ONLINE_GROUP_SIZE && ValidateMinimumAdvanceTime(input.date, input.time, nowMs).Pass?
      && ValidateOpeningHours(input.date, input.time, s.openingHours).Ok?
      && ValidateTimeSlotInterval(input.time, s.timeSlotInterval).Fail?) ==>
      Admit(Some(restaurant), Some(s), day, input, nowMs) == Err(ValidateTimeSlotInterval(input.time, s.timeSlotInterval).error)
  {
  }

  /** A missing or inactive restaurant, or missing settings, stop admission before any check. */
  lemma AdmitGuards(restaurant: Option<RestaurantProps>, settings: Option<SettingsProps>,
                    day: seq<ReservationProps>, input: CreateReservationInput, nowMs: int)
    requires IsTimeHHMM(input.time)
    requires settings.Some? ==> WellFormedHours(settings.value.openingHours)
    ensures restaurant.None? ==> Admit(restaurant, settings, day, input, nowMs) == Err(NotFoundError("Restaurant", input.restaurantId))
    ensures restaurant.Some? && !restaurant.value.isActive ==>
      Admit(restaurant, settings, day, input, nowMs) == Err(BadRequestError(NOT_ACCEPTING))
    ensures restaurant.Some? && restaurant.value.isActive && settings.None? ==>
      Admit(restaurant, settings, day, input, nowMs) == Err(NotFoundError("Settings for restaurant", input.restaurantId))
  {
  }

  /** `Reservation.create` for an admitted booking. */
  function NewProps(input: CreateReservationInput, id: string, token: string, status: ReservationStatus): ReservationProps {
    ReservationProps(id, input.restaurantId, input.date, input.time, input.numberOfPeople,
      input.customerName, input.customerLastName, input.customerEmail, input.customerPhone,
      input.notes, status, 0.0, Some(PaymentPending), None, None, None, None, token, None, None)
  }

  /** An admitted booking leaves its shift within capacity, counting itself. */
  lemma AdmittedBookingFits(restaurant: Option<RestaurantProps>, settings: Option<SettingsProps>,
                            day: seq<ReservationProps>, input: CreateReservationInput, nowMs: int,
                            id: string, token: string)
    requires IsTimeHHMM(input.time)
    requires settings.Some? ==> WellFormedHours(settings.value.openingHours)
    requires Admit(restaurant, settings, day, input, nowMs).Ok?
    ensures var a := Admit(restaurant, settings, day, input, nowMs).value;
      Occupancy(a.shift, day + [NewProps(input, id, token, a.status)]) <= a.shift.capacity
  {
    var a := Admit(restaurant, settings, day, input, nowMs).value;
    var p := NewProps(input, id, token, a.status);
    OccupancyAppend(a.shift, day, [p]);
    OccupancyOfOne(a.shift, p);
  }

  /**
   * The two notices of an admitted booking: the restaurant's, saying whether it was
   * confirmed automatically, then the customer's, accepted or pending.
   */
  function AdmissionNotices(restaurant: RestaurantProps, saved: ReservationProps): (ns: seq<Notice>)
    ensures |ns| == 2 && ns[0].NewReservationToAdmin? && ns[0].to == restaurant.email
    ensures ns[0].isAutoConfirmed <==> saved.status == CONFIRMED
    ensures ns[1].ReservationAccepted? <==> saved.status == CONFIRMED
    ensures ns[1].ReservationAccepted? || ns[1].ReservationPending?
    ensures ns[1].to == saved.customerEmail && ns[1].restaurantName == restaurant.name
  {
    var admin := NewReservationToAdmin(restaurant.email, restaurant.name, saved.customerName,
      saved.customerLastName, saved.customerEmail, saved.customerPhone, saved.date, saved.time,
      saved.numberOfPeople, saved.notes, saved.status == CONFIRMED);
    var customer :=
      if saved.status == CONFIRMED then
        ReservationAccepted(saved.customerEmail, saved.customerName, saved.customerLastName,
          restaurant.name, saved.date, saved.time, saved.numberOfPeople, saved.notes)
      else
        ReservationPending(saved.customerEmail, saved.customerName, saved.customerLastName,
          restaurant.name, saved.date, saved.time, saved.numberOfPeople, saved.notes);
    [admin, customer]
  }

  /** The returned summary and the message that matches the status. */
  function ResultFor(saved: ReservationProps): (r: CreateReservationResult)
    ensures r.message == CONFIRMED_MESSAGE <==> saved.status == CONFIRMED
    ensures r.reservation.id == saved.id && r.reservation.status == saved.status
    ensures r.reservation.cancellationToken == saved.cancellationToken
  {
    CreateReservationResult(
      ReservationSummary(saved.id, saved.restaurantId, saved.date, saved.time,
        saved.numberOfPeople, saved.status, saved.cancellationToken),
      if saved.status == CONFIRMED then CONFIRMED_MESSAGE else PENDING_MESSAGE)
  }

  function SettingsOf(table: map<string, SettingsProps>, restaurantId: string): Option<SettingsProps> {
    if restaurantId in table then Some(table[restaurantId]) else None
  }

  /**
   * `execute`: on a failed guard or check nothing is saved and nothing is sent; on
   * admission exactly one new row is appended and exactly two notices are sent, and the
   * result echoes the saved reservation.
   */
  method Execute(input: CreateReservationInput, restaurants: RestaurantRepository.RestaurantTypeOrmRepository,
                 settingsRepository: SettingsTypeOrmRepository, reservations: ReservationTypeOrmRepository,
                 notifier: Notifier, nowMs: int, now: int, newId: string, newToken: string)
    returns (r: Result<CreateReservationResult>)
    requires IsTimeHHMM(input.time)
    requires forall rid | rid in settingsRepository.table :: WellFormedHours(settingsRepository.table[rid].openingHours)
    requires reservations.Valid()
    requires forall i :: 0 <= i < |reservations.rows| ==>
      reservations.rows[i].id != newId && reservations.rows[i].cancellationToken != newToken
    modifies reservations, notifier
    ensures reservations.Valid()
    ensures var restaurant := RestaurantRepository.ById(restaurants.rows, input.restaurantId);
      var plan := Admit(restaurant, SettingsOf(settingsRepository.table, input.restaurantId),
        DayReservations(old(reservations.rows), input.restaurantId, input.date), input, nowMs);
      if plan.Err? then
        && r == Err(plan.error)
        && reservations.rows == old(reservations.rows) && notifier.sent == old(notifier.sent)
      else
        var saved := NewProps(input, newId, newToken, plan.value.status).(createdAt := Some(now), updatedAt := Some(now));
        && reservations.rows == old(reservations.rows) + [ToEntity(saved).(createdAt := Some(now), updatedAt := Some(now))]
        && notifier.sent == old(notifier.sent) + AdmissionNotices(restaurant.value, saved)
        && r == Ok(ResultFor(saved))
  {
    ghost var day := DayReservations(reservations.rows, input.restaurantId, input.date);
    ghost var plan := Admit(RestaurantRepository.ById(restaurants.rows, input.restaurantId),
      SettingsOf(settingsRepository.table, input.restaurantId), day, input, nowMs);

    var restaurant := restaurants.FindById(input.restaurantId);
    if restaurant.None? {
      return Err(NotFoundError("Restaurant", input.restaurantId));
    }
    if !restaurant.value.isActive {
      return Err(BadRequestError(NOT_ACCEPTING));
    }
    var settings := settingsRepository.FindByRestaurantId(input.restaurantId);
    if settings.None? {
      return Err(NotFoundError("Settings for restaurant", input.restaurantId));
    }
    var rp := restaurant.value.Props();
    var sp := settings.value.Props();
    assert SettingsOf(settingsRepository.table, input.restaurantId) == Some(sp);
    var reservationsForDay := reservations.FindByRestaurantAndFilters(input.restaurantId, DayFilter(input.date));
    assert PropsOf(reservationsForDay) == day;

    var admission := RunChecks(rp, sp, PropsOf(reservationsForDay), input, nowMs);
    assert admission == plan;
    if admission.Err? {
      return Err(admission.error);
    }
    var result := SaveAndNotify(input, rp, reservations, notifier, now, newId, newToken, admission.value.status);
    r := Ok(result);
  }

  /**
   * The five validator calls of `execute`, in order, for an active restaurant with
   * settings: the first failure is the error, otherwise the shift the opening-hours
   * check found and the initial status the acceptance mode gives.
   */
  method RunChecks(restaurant: RestaurantProps, s: SettingsProps, day: seq<ReservationProps>,
                   input: CreateReservationInput, nowMs: int)
    returns (r: Result<Admission>)
    requires IsTimeHHMM(input.time) && WellFormedHours(s.openingHours) && restaurant.isActive
    ensures r == Admit(Some(restaurant), Some(s), day, input, nowMs)
  {
    var group := ValidateGroupSize(input.numberOfPeople);
    if group.Fail? {
      return Err(group.error);
    }
    var advance := ValidateMinimumAdvanceTime(input.date, input.time, nowMs);
    if advance.Fail? {
      return Err(advance.error);
    }
    var opening := ValidateOpeningHours(input.date, input.time, s.openingHours);
    if opening.Err? {
      return Err(opening.error);
    }
    var matchingShift := opening.value;
    var slot := ValidateTimeSlotInterval(input.time, s.timeSlotInterval);
    if slot.Fail? {
      return Err(slot.error);
    }
    var capacity := ValidateCapacity(input.numberOfPeople, matchingShift, day);
    if capacity.Fail? {
      return Err(capacity.error);
    }
    r := Ok(Admission(matchingShift, InitialStatus(s.acceptanceMode)));
  }

  /** `Reservation.create`, the single `save`, and the two notices of an admitted booking. */
  method SaveAndNotify(input: CreateReservationInput, restaurant: RestaurantProps,
                       reservations: ReservationTypeOrmRepository, notifier: Notifier,
                       now: int, newId: string, newToken: string, initialStatus: ReservationStatus)
    returns (r: CreateReservationResult)
    requires reservations.Valid()
    requires forall i :: 0 <= i < |reservations.rows| ==>
      reservations.rows[i].id != newId && reservations.rows[i].cancellationToken != newToken
    modifies reservations, notifier
    ensures reservations.Valid()
    ensures var saved := NewProps(input, newId, newToken, initialStatus).(createdAt := Some(now), updatedAt := Some(now));
      && reservations.rows == old(reservations.rows) + [ToEntity(saved).(createdAt := Some(now), updatedAt := Some(now))]
      && notifier.sent == old(notifier.sent) + AdmissionNotices(restaurant, saved)
      && r == ResultFor(saved)
  {
    var saved := SaveNew(input, reservations, now, newId, newToken, initialStatus);
    Notify(restaurant, saved, notifier);
    r := ResultFor(saved.Props());
  }

  /** `Reservation.create` and the `save` of a booking whose id and token are new. */
  method SaveNew(input: CreateReservationInput, reservations: ReservationTypeOrmRepository,
                 now: int, newId: string, newToken: string, initialStatus: ReservationStatus)
    returns (saved: Reservation)
    requires reservations.Valid()
    requires forall i :: 0 <= i < |reservations.rows| ==>
      reservations.rows[i].id != newId && reservations.rows[i].cancellationToken != newToken
    modifies reservations
    ensures reservations.Valid()
    ensures var stored := NewProps(input, newId, newToken, initialStatus).(createdAt := Some(now), updatedAt := Some(now));
      && reservations.rows == old(reservations.rows) + [ToEntity(stored).(createdAt := Some(now), updatedAt := Some(now))]
      && saved.Props() == stored
  {
    var reservation := new Reservation.Create(NewReservation(newId, input.restaurantId, input.date,
      input.time, input.numberOfPeople, input.customerName, input.customerLastName,
      input.customerEmail, input.customerPhone, input.notes, initialStatus, newToken));
    ghost var p := NewProps(input, newId, newToken, initialStatus);
    assert reservation.Props() == p;
    ghost var oldRows := reservations.rows;
    assert !TakenByOther(oldRows, ToEntity(p), RowToken, RowId);
    assert IndexOf(oldRows, RowId, newId).None?;
    var result := reservations.Save(reservation, now);
    ghost var stored := p.(createdAt := Some(now), updatedAt := Some(now));
    assert reservations.rows == oldRows + [ToEntity(stored).(createdAt := Some(now), updatedAt := Some(now))];
    assert IndexOf(reservations.rows, RowId, newId) == Some(|oldRows|);
    saved := result.value;
  }

  /** The notice to the restaurant, then the confirmation or the pending notice to the customer. */
  method Notify(restaurant: RestaurantProps, saved: Reservation, notifier: Notifier)
    modifies notifier
    ensures notifier.sent == old(notifier.sent) + AdmissionNotices(restaurant, saved.Props())
  {
    var autoConfirmed := saved.status == CONFIRMED;
    notifier.Send(NewReservationToAdmin(restaurant.email, restaurant.name,
      saved.customerName, saved.customerLastName, saved.customerEmail, saved.customerPhone,
      saved.date, saved.time, saved.numberOfPeople, saved.notes, autoConfirmed));
    if autoConfirmed {
      notifier.Send(ReservationAccepted(saved.customerEmail, saved.customerName,
        saved.customerLastName, restaurant.name, saved.date, saved.time,
        saved.numberOfPeople, saved.notes));
    } else {
      notifier.Send(ReservationPending(saved.customerEmail, saved.customerName,
        saved.customerLastName, restaurant.name, saved.date, saved.time,
        saved.numberOfPeople, saved.notes));
    }
  }
}
