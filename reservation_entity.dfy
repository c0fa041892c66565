/**
 * The `Reservation` entity and its lifecycle: a four-state machine whose guarded
 * transitions `accept`, `reject` and `cancel` update the entity in place.
 */
module ReservationEntity {
  import opened Wrappers
  import opened DomainErrors

  datatype ReservationStatus = PENDING | CONFIRMED | REJECTED | CANCELLED

  /** Only `PENDING` is ever assigned by the core; the enum's other members are opaque here. */
  datatype PaymentStatus = PaymentPending | PaymentOther(name: string)

  /** The twenty constructor arguments of `Reservation`, in their declared order. */
  datatype ReservationProps = ReservationProps(
    id: string,
    restaurantId: string,
    date: string,
    time: string,
    numberOfPeople: int,
    customerName: string,
    customerLastName: string,
    customerEmail: string,
    customerPhone: string,
    notes: Option<string>,
    status: ReservationStatus,
    depositAmount: real,
    paymentStatus: Option<PaymentStatus>,
    paymentId: Option<string>,
    paymentMethod: Option<string>,
    paymentDeadline: Option<int>,
    rejectionReason: Option<string>,
    cancellationToken: string,
    createdAt: Option<int>,
    updatedAt: Option<int>)

  /** The parameter object of `Reservation.create`. */
  datatype NewReservation = NewReservation(
    id: string,
    restaurantId: string,
    date: string,
    time: string,
    numberOfPeople: int,
    customerName: string,
    customerLastName: string,
    customerEmail: string,
    customerPhone: string,
    notes: Option<string>,
    status: ReservationStatus,
    cancellationToken: string)

  const ACCEPT_ONLY_PENDING := "Only pending reservations can be accepted"
  const REJECT_ONLY_PENDING := "Only pending reservations can be rejected"
  const CANCEL_ONLY_ACTIVE := "Only pending or confirmed reservations can be cancelled"

  datatype Action = Accept | Reject(reason: string) | Cancel

  /** The status a transition leads to from `s`, or the error it throws. */
  function Fire(s: ReservationStatus, a: Action): Result<ReservationStatus> {
    match a
    case Accept => if s == PENDING then Ok(CONFIRMED) else Err(BadRequestError(ACCEPT_ONLY_PENDING))
    case Reject(_) => if s == PENDING then Ok(REJECTED) else Err(BadRequestError(REJECT_ONLY_PENDING))
    case Cancel =>
      if s == CONFIRMED || s == PENDING then Ok(CANCELLED) else Err(BadRequestError(CANCEL_ONLY_ACTIVE))
  }

  /** `reason || null`: an empty reason is stored as no reason. */
  function ReasonOrNull(reason: string): Option<string> {
    if |reason| > 0 then Some(reason) else None
  }

  /** The whole entity after a transition, or the error it throws. */
  function ApplyAction(p: ReservationProps, a: Action): Result<ReservationProps> {
    match Fire(p.status, a)
    case Err(e) => Err(e)
    case Ok(s) =>
      if a.Reject? then Ok(p.(status := s, rejectionReason := ReasonOrNull(a.reason)))
      else Ok(p.(status := s))
  }

  /** How far along its lifecycle a status is. */
  function Rank(s: ReservationStatus): nat {
    match s
    case PENDING => 0
    case CONFIRMED => 1
    case REJECTED => 2
    case CANCELLED => 2
  }

  predicate IsTerminal(s: ReservationStatus) {
    s == REJECTED || s == CANCELLED
  }

  /** accept: PENDING to CONFIRMED, and from nowhere else. */
  lemma AcceptOnlyFromPending(s: ReservationStatus)
    ensures Fire(s, Accept).Ok? <==> s == PENDING
    ensures Fire(s, Accept).Ok? ==> Fire(s, Accept).value == CONFIRMED
    ensures Fire(s, Accept).Err? ==> Fire(s, Accept).error.DomainError? && Fire(s, Accept).error.kind == BadRequest
  {
  }

  /** reject: PENDING to REJECTED, and from nowhere else. */
  lemma RejectOnlyFromPending(s: ReservationStatus, reason: string)
    ensures Fire(s, Reject(reason)).Ok? <==> s == PENDING
    ensures Fire(s, Reject(reason)).Ok? ==> Fire(s, Reject(reason)).value == REJECTED
  {
  }

  /** cancel: PENDING or CONFIRMED to CANCELLED, and from nowhere else. */
  lemma CancelOnlyFromActive(s: ReservationStatus)
    ensures Fire(s, Cancel).Ok? <==> s == PENDING || s == CONFIRMED
    ensures Fire(s, Cancel).Ok? ==> Fire(s, Cancel).value == CANCELLED
  {
  }

  /** REJECTED and CANCELLED have no way out: every transition fails with BadRequest. */
  lemma TerminalStatesAreFinal(s: ReservationStatus, a: Action)
    requires IsTerminal(s)
    ensures Fire(s, a).Err?
    ensures Fire(s, a).error == DomainError(BadRequest, Fire(s, a).error.message)
  {
  }

  /** Every successful transition moves strictly forward. */
  lemma TransitionsProgress(s: ReservationStatus, a: Action)
    requires Fire(s, a).Ok?
    ensures Rank(Fire(s, a).value) > Rank(s)
  {
  }

  /**
   * A transition touches only `status`, plus `rejectionReason` for `reject`; the
   * identifiers, the customer fields and the cancellation token are kept.
   */
  lemma TransitionFrame(p: ReservationProps, a: Action)
    requires ApplyAction(p, a).Ok?
    ensures var q := ApplyAction(p, a).value;
      && q == p.(status := q.status, rejectionReason := q.rejectionReason)
      && q.status == Fire(p.status, a).value
      && (a.Reject? ==> q.rejectionReason == ReasonOrNull(a.reason))
      && (!a.Reject? ==> q.rejectionReason == p.rejectionReason)
  {
  }

  /** Applies the transitions in order, stopping at the first that throws. */
  function Run(s: ReservationStatus, actions: seq<Action>): Result<ReservationStatus>
    decreases |actions|
  {
    if actions == [] then Ok(s)
    else match Fire(s, actions[0])
      case Err(e) => Err(e)
      case Ok(t) => Run(t, actions[1..])
  }

  /**
   * A reservation goes through at most two transitions in its whole life (for instance
   * accept then cancel); any longer run throws.
   */
  lemma {:induction false} LifecycleIsShort(s: ReservationStatus, actions: seq<Action>)
    requires Run(s, actions).Ok?
    ensures |actions| <= 2 - Rank(s)
    ensures |actions| > 0 ==> IsTerminal(Run(s, actions).value) || Run(s, actions).value == CONFIRMED
    decreases |actions|
  {
    if actions != [] {
      var t := Fire(s, actions[0]).value;
      TransitionsProgress(s, actions[0]);
      LifecycleIsShort(t, actions[1..]);
    }
  }

  /** The field values of the loaded entities, in order. */
  function PropsOf(rs: seq<Reservation>): (ps: seq<ReservationProps>)
    reads set i | 0 <= i < |rs| :: rs[i]
    ensures |ps| == |rs| && forall i :: 0 <= i < |rs| ==> ps[i] == rs[i].Props()
  {
    if rs == [] then [] else PropsOf(rs[..|rs| - 1]) + [rs[|rs| - 1].Props()]
  }

  class Reservation {
    const id: string
    const restaurantId: string
    var date: string
    var time: string
    var numberOfPeople: int
    const customerName: string
    const customerLastName: string
    const customerEmail: string
    const customerPhone: string
    var notes: Option<string>
    var status: ReservationStatus
    const depositAmount: real
    var paymentStatus: Option<PaymentStatus>
    var paymentId: Option<string>
    var paymentMethod: Option<string>
    var paymentDeadline: Option<int>
    var rejectionReason: Option<string>
    const cancellationToken: string
    const createdAt: Option<int>
    const updatedAt: Option<int>

    /** The entity's current field values. */
    function Props(): ReservationProps
      reads this
    {
      ReservationProps(id, restaurantId, date, time, numberOfPeople, customerName,
        customerLastName, customerEmail, customerPhone, notes, status, depositAmount,
        paymentStatus, paymentId, paymentMethod, paymentDeadline, rejectionReason,
        cancellationToken, createdAt, updatedAt)
    }

    /** `new Reservation(...)` with every field given. */
    constructor (p: ReservationProps)
      ensures Props() == p
    {
      id, restaurantId, date, time, numberOfPeople := p.id, p.restaurantId, p.date, p.time, p.numberOfPeople;
      customerName, customerLastName := p.customerName, p.customerLastName;
      customerEmail, customerPhone, notes, status := p.customerEmail, p.customerPhone, p.notes, p.status;
      depositAmount, paymentStatus, paymentId := p.depositAmount, p.paymentStatus, p.paymentId;
      paymentMethod, paymentDeadline, rejectionReason := p.paymentMethod, p.paymentDeadline, p.rejectionReason;
      cancellationToken, createdAt, updatedAt := p.cancellationToken, p.createdAt, p.updatedAt;
    }

    /**
     * `Reservation.create`: copies the given fields, starts the payment fields at a zero
     * deposit, a pending payment and no payment data, and has no rejection reason and no
     * timestamps yet.
     */
    constructor Create(params: NewReservation)
      ensures id == params.id && restaurantId == params.restaurantId
      ensures date == params.date && time == params.time && numberOfPeople == params.numberOfPeople
      ensures customerName == params.customerName && customerLastName == params.customerLastName
      ensures customerEmail == params.customerEmail && customerPhone == params.customerPhone
      ensures notes == params.notes && status == params.status
      ensures cancellationToken == params.cancellationToken
      ensures depositAmount == 0.0 && paymentStatus == Some(PaymentPending)
      ensures paymentId.None? && paymentMethod.None? && paymentDeadline.None? && rejectionReason.None?
      ensures createdAt.None? && updatedAt.None?
    {
      id, restaurantId, date, time, numberOfPeople := params.id, params.restaurantId, params.date, params.time, params.numberOfPeople;
      customerName, customerLastName := params.customerName, params.customerLastName;
      customerEmail, customerPhone, notes, status := params.customerEmail, params.customerPhone, params.notes, params.status;
      depositAmount, paymentStatus, paymentId := 0.0, Some(PaymentPending), None;
      paymentMethod, paymentDeadline, rejectionReason := None, None, None;
      cancellationToken, createdAt, updatedAt := params.cancellationToken, None, None;
    }

    /** `accept()`: the entity afterwards is `ApplyAction(before, Accept)`, or unchanged on error. */
    method Accept() returns (r: Outcome)
      modifies this
      ensures ApplyAction(old(Props()), Action.Accept).Ok? ==>
        r == Pass && Props() == ApplyAction(old(Props()), Action.Accept).value
      ensures ApplyAction(old(Props()), Action.Accept).Err? ==>
        r == Fail(ApplyAction(old(Props()), Action.Accept).error) && Props() == old(Props())
    {
      if status != PENDING {
        return Fail(BadRequestError(ACCEPT_ONLY_PENDING));
      }
      status := CONFIRMED;
      r := Pass;
    }

    /** `reject(reason)`: as `ApplyAction(before, Reject(reason))`, or unchanged on error. */
    method Reject(reason: string) returns (r: Outcome)
      modifies this
      ensures ApplyAction(old(Props()), Action.Reject(reason)).Ok? ==>
        r == Pass && Props() == ApplyAction(old(Props()), Action.Reject(reason)).value
      ensures ApplyAction(old(Props()), Action.Reject(reason)).Err? ==>
        r == Fail(ApplyAction(old(Props()), Action.Reject(reason)).error) && Props() == old(Props())
    {
      if status != PENDING {
        return Fail(BadRequestError(REJECT_ONLY_PENDING));
      }
      status := REJECTED;
      rejectionReason := ReasonOrNull(reason);
      r := Pass;
    }

    /** `cancel()`: as `ApplyAction(before, Cancel)`, or unchanged on error. */
    method Cancel() returns (r: Outcome)
      modifies this
      ensures ApplyAction(old(Props()), Action.Cancel).Ok? ==>
        r == Pass && Props() == ApplyAction(old(Props()), Action.Cancel).value
      ensures ApplyAction(old(Props()), Action.Cancel).Err? ==>
        r == Fail(ApplyAction(old(Props()), Action.Cancel).error) && Props() == old(Props())
    {
      if status != CONFIRMED && status != PENDING {
        return Fail(BadRequestError(CANCEL_ONLY_ACTIVE));
      }
      status := CANCELLED;
      r := Pass;
    }
  }
}
