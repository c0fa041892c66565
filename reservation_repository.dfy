/**
 * The TypeORM reservation repository: the row/entity mappers, the query of
 * `findByRestaurantAndFilters`, `findByToken` and `save`, over a table held as a
 * sequence of rows. Each read builds fresh entity objects, as the ORM does.
 */
module ReservationRepository {
  import opened Wrappers
  import opened DomainErrors
  import opened Text
  import opened Sorting
  import opened Tables
  import opened ReservationEntity

  /** A row of the `reservations` table; the timestamps are filled in by the database. */
  datatype ReservationRow = ReservationRow(
    id: string,
    restaurantId: string,
    date: string,
    time: string,
    numberOfPeople: int,
    customerName: string,
    customerLastName: string,
    customerEmail: string,
    customerPhone: string,
    notes: Option<string>,
    status: ReservationStatus,
    depositAmount: real,
    paymentStatus: PaymentStatus,
    paymentId: Option<string>,
    paymentMethod: Option<string>,
    paymentDeadline: Option<int>,
    rejectionReason: Option<string>,
    cancellationToken: string,
    createdAt: Option<int>,
    updatedAt: Option<int>)

  /** `toEntity`: every field by name, a missing payment status as PENDING, no timestamps. */
  function ToEntity(p: ReservationProps): (row: ReservationRow)
    ensures row.createdAt.None? && row.updatedAt.None?
    ensures row.paymentStatus == p.paymentStatus.GetOr(PaymentPending)
  {
    ReservationRow(p.id, p.restaurantId, p.date, p.time, p.numberOfPeople, p.customerName,
      p.customerLastName, p.customerEmail, p.customerPhone, p.notes, p.status, p.depositAmount,
      p.paymentStatus.GetOr(PaymentPending), p.paymentId, p.paymentMethod, p.paymentDeadline,
      p.rejectionReason, p.cancellationToken, None, None)
  }

  /** `toDomain`: the constructor arguments, in the constructor's order. */
  function ToDomainArgs(row: ReservationRow): (p: ReservationProps)
    ensures p.paymentStatus == Some(row.paymentStatus)
  {
    ReservationProps(row.id, row.restaurantId, row.date, row.time, row.numberOfPeople,
      row.customerName, row.customerLastName, row.customerEmail, row.customerPhone, row.notes,
      row.status, row.depositAmount, Some(row.paymentStatus), row.paymentId, row.paymentMethod,
      row.paymentDeadline, row.rejectionReason, row.cancellationToken, row.createdAt, row.updatedAt)
  }

  /**
   * An entity written and read back keeps every field but the timestamps, which the
   * write leaves to the database; a missing payment status comes back as PENDING.
   */
  lemma EntityRoundTrip(p: ReservationProps)
    ensures ToDomainArgs(ToEntity(p)) ==
      p.(paymentStatus := Some(p.paymentStatus.GetOr(PaymentPending)), createdAt := None, updatedAt := None)
  {
  }

  /** A row read and written back is the same row, without its timestamps. */
  lemma RowRoundTrip(row: ReservationRow)
    ensures ToEntity(ToDomainArgs(row)) == row.(createdAt := None, updatedAt := None)
  {
  }

  /** `entities.map(toDomain)`: the entity fields of each row, in order. */
  function AsDomain(rows: seq<ReservationRow>): (ps: seq<ReservationProps>)
    ensures |ps| == |rows| && forall i :: 0 <= i < |rows| ==> ps[i] == ToDomainArgs(rows[i])
  {
    seq(|rows|, i requires 0 <= i < |rows| => ToDomainArgs(rows[i]))
  }

  // ----- findByRestaurantAndFilters ----------------------------------------------------

  /** `ReservationFilters`: every field optional. */
  datatype ReservationFilters = ReservationFilters(
    status: Option<ReservationStatus>,
    date: Option<string>,
    startDate: Option<string>,
    endDate: Option<string>)

  /** One `where`/`andWhere` clause of the query builder. */
  datatype Condition =
    | RestaurantIs(restaurantId: string)
    | StatusIs(status: ReservationStatus)
    | DateIs(date: string)
    | DateBetween(startDate: string, endDate: string)

  predicate Holds(c: Condition, row: ReservationRow) {
    match c
    case RestaurantIs(id) => row.restaurantId == id
    case StatusIs(s) => row.status == s
    case DateIs(d) => row.date == d
    case DateBetween(s, e) => StrLessEq(s, row.date) && StrLessEq(row.date, e)
  }

  predicate AllHold(conds: seq<Condition>, row: ReservationRow) {
    forall i :: 0 <= i < |conds| ==> Holds(conds[i], row)
  }

  /** A JavaScript string is truthy iff it is not empty. */
  predicate Truthy(s: Option<string>) {
    s.Some? && |s.value| > 0
  }

  /**
   * The rows the query means: the restaurant's, with the status when one is given, the
   * date when a non-empty one is given, and the inclusive range when both ends are given.
   */
  predicate MatchesFilters(restaurantId: string, f: ReservationFilters, row: ReservationRow) {
    && row.restaurantId == restaurantId
    && (f.status.Some? ==> row.status == f.status.value)
    && (Truthy(f.date) ==> row.date == f.date.value)
    && (Truthy(f.startDate) && Truthy(f.endDate) ==>
          StrLessEq(f.startDate.value, row.date) && StrLessEq(row.date, f.endDate.value))
  }

  /** The `where` clauses as the builder accumulates them, step by step. */
  method BuildConditions(restaurantId: string, f: ReservationFilters) returns (conds: seq<Condition>)
    ensures |conds| >= 1 && conds[0] == RestaurantIs(restaurantId)
    ensures forall row :: AllHold(conds, row) <==> MatchesFilters(restaurantId, f, row)
  {
    conds := [RestaurantIs(restaurantId)];
    if f.status.Some? {
      AllHoldAppend(conds, StatusIs(f.status.value));
      conds := conds + [StatusIs(f.status.value)];
    }
    if Truthy(f.date) {
      AllHoldAppend(conds, DateIs(f.date.value));
      conds := conds + [DateIs(f.date.value)];
    }
    if Truthy(f.startDate) && Truthy(f.endDate) {
      AllHoldAppend(conds, DateBetween(f.startDate.value, f.endDate.value));
      conds := conds + [DateBetween(f.startDate.value, f.endDate.value)];
    }
  }

  /** `andWhere(c)` narrows the query by exactly `c`. */
  lemma AllHoldAppend(conds: seq<Condition>, c: Condition)
    ensures forall row :: AllHold(conds + [c], row) <==> AllHold(conds, row) && Holds(c, row)
  {
    forall row
      ensures AllHold(conds + [c], row) <==> AllHold(conds, row) && Holds(c, row)
    {
      if AllHold(conds, row) && Holds(c, row) {
        assert forall i :: 0 <= i < |conds| + 1 ==> Holds((conds + [c])[i], row);
      }
      if AllHold(conds + [c], row) {
        assert Holds((conds + [c])[|conds|], row);
        forall i | 0 <= i < |conds|
          ensures Holds(conds[i], row)
        {
          assert (conds + [c])[i] == conds[i];
        }
      }
    }
  }

  /** The rows the query selects, in table order. */
  function Select(rows: seq<ReservationRow>, restaurantId: string, f: ReservationFilters): (sel: seq<ReservationRow>)
    ensures forall row :: row in sel <==> row in rows && MatchesFilters(restaurantId, f, row)
    ensures |sel| <= |rows|
  {
    if rows == [] then []
    else
      var rest := Select(rows[1..], restaurantId, f);
      assert forall row :: row in rows <==> row == rows[0] || row in rows[1..];
      if MatchesFilters(restaurantId, f, rows[0]) then [rows[0]] + rest else rest
  }

  /** `ORDER BY date DESC, time ASC`: a later date first, then the earlier time. */
  predicate RowLe(a: ReservationRow, b: ReservationRow) {
    StrLess(b.date, a.date) || (a.date == b.date && StrLessEq(a.time, b.time))
  }

  lemma RowLeTotalPreorder()
    ensures TotalPreorder(RowLe)
  {
    forall a: ReservationRow, b: ReservationRow
      ensures RowLe(a, b) || RowLe(b, a)
    {
      StrLessTotal(a.date, b.date);
      if StrLess(a.time, b.time) {
        StrLessAsymmetric(a.time, b.time);
      }
    }
    forall a: ReservationRow, b: ReservationRow, c: ReservationRow | RowLe(a, b) && RowLe(b, c)
      ensures RowLe(a, c)
    {
      if StrLess(b.date, a.date) && StrLess(c.date, b.date) {
        StrLessTransitive(c.date, b.date, a.date);
      }
      if a.date == b.date == c.date {
        StrLessIrreflexive(a.date);
        if StrLess(c.time, a.time) {
          StrLessTotal(a.time, b.time);
          if StrLess(a.time, b.time) {
            StrLessTransitive(c.time, a.time, b.time);
          }
          assert false;
        }
      }
    }
  }

  /** The rows `findByRestaurantAndFilters` returns, in order. */
  function QueryResult(rows: seq<ReservationRow>, restaurantId: string, f: ReservationFilters): seq<ReservationRow> {
    InsertionSort(Select(rows, restaurantId, f), RowLe)
  }

  /**
   * The result holds exactly the matching rows, each as often as in the table, and is
   * ordered by date descending, then time ascending.
   */
  lemma QueryResultMeaning(rows: seq<ReservationRow>, restaurantId: string, f: ReservationFilters)
    ensures multiset(QueryResult(rows, restaurantId, f)) == multiset(Select(rows, restaurantId, f))
    ensures forall row :: row in QueryResult(rows, restaurantId, f) <==> row in rows && MatchesFilters(restaurantId, f, row)
    ensures SortedBy(QueryResult(rows, restaurantId, f), RowLe)
  {
    RowLeTotalPreorder();
    InsertionSortSorted(Select(rows, restaurantId, f), RowLe);
    forall row
      ensures row in QueryResult(rows, restaurantId, f) <==> row in Select(rows, restaurantId, f)
    {
      SortKeepsMembers(Select(rows, restaurantId, f), RowLe, row);
    }
  }

  /** Without filters the query returns every reservation of the restaurant. */
  lemma NoFiltersSelectsRestaurant(rows: seq<ReservationRow>, restaurantId: string, row: ReservationRow)
    requires row in rows && row.restaurantId == restaurantId
    ensures row in QueryResult(rows, restaurantId, ReservationFilters(None, None, None, None))
  {
    QueryResultMeaning(rows, restaurantId, ReservationFilters(None, None, None, None));
  }

  /** A range with only one end given is ignored. */
  lemma HalfRangeIgnored(restaurantId: string, f: ReservationFilters, row: ReservationRow)
    requires !Truthy(f.endDate)
    ensures MatchesFilters(restaurantId, f, row) ==
      MatchesFilters(restaurantId, f.(startDate := None), row)
  {
  }

  // ----- the table ---------------------------------------------------------------------

  function RowId(row: ReservationRow): string { row.id }

  function RowToken(row: ReservationRow): string { row.cancellationToken }

  /** Ids are the primary key and cancellation tokens a unique column. */
  predicate UniqueKeys(rows: seq<ReservationRow>) {
    UniqueBy(rows, RowId) && UniqueBy(rows, RowToken)
  }

  const DUPLICATE_KEY := "duplicate key value violates unique constraint"

  /**
   * The table after `save`: an existing id is updated in place, keeping its creation time;
   * a new id is appended. Both timestamps come from the database clock `now`.
   */
  function Upsert(rows: seq<ReservationRow>, row: ReservationRow, now: int): (out: seq<ReservationRow>)
    ensures IndexOf(out, RowId, row.id).Some?
  {
    match IndexOf(rows, RowId, row.id)
    case Some(i) =>
      var out := rows[i := row.(createdAt := rows[i].createdAt, updatedAt := Some(now))];
      assert out[i].id == row.id;
      out
    case None =>
      var out := rows + [row.(createdAt := Some(now), updatedAt := Some(now))];
      assert out[|rows|].id == row.id;
      out
  }

  /**
   * The row `save` hands back: the entity as the mapper built it, which carries no
   * timestamps, with the columns the database generated merged in. An insert returns
   * both timestamps; an update returns only the new update time, so `createdAt` stays
   * unset, and otherwise the object agrees with the stored row.
   */
  function Returned(rows: seq<ReservationRow>, row: ReservationRow, now: int): (q: ReservationRow)
    ensures q.(createdAt := row.createdAt, updatedAt := row.updatedAt) == row
    ensures q.updatedAt == Some(now)
    ensures q.createdAt.Some? <==> IndexOf(rows, RowId, row.id).None?
    ensures match IndexOf(rows, RowId, row.id)
      case None => q == Upsert(rows, row, now)[|rows|]
      case Some(i) => q.(createdAt := rows[i].createdAt) == Upsert(rows, row, now)[i]
  {
    if IndexOf(rows, RowId, row.id).None? then row.(createdAt := Some(now), updatedAt := Some(now))
    else row.(createdAt := None, updatedAt := Some(now))
  }

  /** Saving keeps ids and tokens unique whenever the unique constraint lets it through. */
  lemma UpsertKeepsKeysUnique(rows: seq<ReservationRow>, row: ReservationRow, now: int)
    requires UniqueKeys(rows) && !TakenByOther(rows, row, RowToken, RowId)
    ensures UniqueKeys(Upsert(rows, row, now))
  {
    match IndexOf(rows, RowId, row.id)
    case Some(k) =>
      var stored := row.(createdAt := rows[k].createdAt, updatedAt := Some(now));
      UpdateKeepsUnique(rows, k, stored, RowId, RowId);
      UpdateKeepsUnique(rows, k, stored, RowToken, RowId);
    case None =>
      var stored := row.(createdAt := Some(now), updatedAt := Some(now));
      AppendKeepsUnique(rows, stored, RowId, RowId);
      AppendKeepsUnique(rows, stored, RowToken, RowId);
  }

  /** Saving leaves every other row as it was. */
  lemma UpsertFrame(rows: seq<ReservationRow>, row: ReservationRow, now: int, other: ReservationRow)
    requires other in rows && other.id != row.id
    ensures other in Upsert(rows, row, now)
  {
    var k :| 0 <= k < |rows| && rows[k] == other;
    match IndexOf(rows, RowId, row.id)
    case Some(i) => assert Upsert(rows, row, now)[k] == other;
    case None => assert Upsert(rows, row, now)[k] == other;
  }

  /**
   * The entity `findByToken` reads: the row holding the token. The token column is
   * unique, so on a valid table this is the only such row.
   */
  function ByToken(rows: seq<ReservationRow>, token: string): (r: Option<ReservationProps>)
    ensures r.None? <==> forall i :: 0 <= i < |rows| ==> rows[i].cancellationToken != token
    ensures r.Some? ==> r.value.cancellationToken == token
    ensures r.Some? && UniqueKeys(rows) ==>
      exists i :: 0 <= i < |rows| && r.value == ToDomainArgs(rows[i])
        && forall j :: 0 <= j < |rows| && j != i ==> rows[j].cancellationToken != token
  {
    match IndexOf(rows, RowToken, token)
    case None => None
    case Some(i) => Some(ToDomainArgs(rows[i]))
  }

  /** The query builder run over the table: the rows passing every built condition, in table order. */
  method RunQuery(rows: seq<ReservationRow>, restaurantId: string, f: ReservationFilters)
    returns (selected: seq<ReservationRow>)
    ensures selected == Select(rows, restaurantId, f)
  {
    var conds := BuildConditions(restaurantId, f);
    selected := [];
    var k := 0;
    while k < |rows|
      invariant 0 <= k <= |rows|
      invariant selected == Select(rows[..k], restaurantId, f)
    {
      assert rows[..k + 1] == rows[..k] + [rows[k]];
      SelectAppend(rows[..k], rows[k], restaurantId, f);
      if AllHold(conds, rows[k]) {
        selected := selected + [rows[k]];
      }
      k := k + 1;
    }
    assert rows[..|rows|] == rows;
  }

  /** `.map((e) => this.toDomain(e))`: a fresh entity per row, in order. */
  method MaterializeAll(rows: seq<ReservationRow>) returns (res: seq<Reservation>)
    ensures |res| == |rows|
    ensures forall i :: 0 <= i < |res| ==> fresh(res[i]) && res[i].Props() == ToDomainArgs(rows[i])
  {
    res := [];
    var i := 0;
    while i < |rows|
      invariant 0 <= i <= |rows|
      invariant |res| == i
      invariant forall j :: 0 <= j < i ==> fresh(res[j]) && res[j].Props() == ToDomainArgs(rows[j])
    {
      var e := new Reservation(ToDomainArgs(rows[i]));
      res := res + [e];
      i := i + 1;
    }
  }

  class ReservationTypeOrmRepository {
    var rows: seq<ReservationRow>

    ghost predicate Valid()
      reads this
    {
      UniqueKeys(rows)
    }

    constructor (initial: seq<ReservationRow>)
      requires UniqueKeys(initial)
      ensures rows == initial && Valid()
    {
      rows := initial;
    }

    /** `findByToken`: a fresh entity for the one row holding the token, or none. */
    method FindByToken(token: string) returns (r: Option<Reservation>)
      ensures r.None? <==> ByToken(rows, token).None?
      ensures r.Some? ==> fresh(r.value) && r.value.Props() == ByToken(rows, token).value
    {
      match IndexOf(rows, RowToken, token)
      case None => r := None;
      case Some(i) =>
        var res := new Reservation(ToDomainArgs(rows[i]));
        r := Some(res);
    }

    /** `findByRestaurantAndFilters`: fresh entities for the query's rows, in its order. */
    method FindByRestaurantAndFilters(restaurantId: string, f: ReservationFilters) returns (res: seq<Reservation>)
      ensures PropsOf(res) == AsDomain(QueryResult(rows, restaurantId, f))
      ensures forall i :: 0 <= i < |res| ==> fresh(res[i])
    {
      var selected := RunQuery(rows, restaurantId, f);
      var ordered := InsertionSort(selected, RowLe);
      res := MaterializeAll(ordered);
      assert PropsOf(res) == AsDomain(ordered);
    }

    /**
     * `save`: writes the entity's row (updating the row with its id, or inserting one) and
     * returns a fresh entity of the object the ORM hands back; a token already held by
     * another row is rejected by the unique constraint and changes nothing.
     */
    method Save(reservation: Reservation, now: int) returns (r: Result<Reservation>)
      requires Valid()
      modifies this
      ensures Valid()
      ensures TakenByOther(old(rows), ToEntity(reservation.Props()), RowToken, RowId) ==>
        r == Err(UnexpectedError(DUPLICATE_KEY)) && rows == old(rows)
      ensures !TakenByOther(old(rows), ToEntity(reservation.Props()), RowToken, RowId) ==>
        && rows == Upsert(old(rows), ToEntity(reservation.Props()), now)
        && r.Ok? && fresh(r.value)
        && r.value.Props() == ToDomainArgs(Returned(old(rows), ToEntity(reservation.Props()), now))
    {
      var row := ToEntity(reservation.Props());
      if TakenByOther(rows, row, RowToken, RowId) {
        return Err(UnexpectedError(DUPLICATE_KEY));
      }
      var saved := new Reservation(ToDomainArgs(Returned(rows, row, now)));
      UpsertKeepsKeysUnique(rows, row, now);
      rows := Upsert(rows, row, now);
      r := Ok(saved);
    }
  }

  /** Filtering a table with one more row selects that row last, when it matches. */
  lemma {:induction false} SelectAppend(rows: seq<ReservationRow>, row: ReservationRow, restaurantId: string, f: ReservationFilters)
    ensures Select(rows + [row], restaurantId, f) ==
      Select(rows, restaurantId, f) + (if MatchesFilters(restaurantId, f, row) then [row] else [])
    decreases |rows|
  {
    if rows == [] {
      assert [row][1..] == [];
    } else {
      assert (rows + [row])[1..] == rows[1..] + [row];
      SelectAppend(rows[1..], row, restaurantId, f);
    }
  }
}
