/**
 * The `Settings` entity of a restaurant (opening hours, slot interval, deposit and
 * acceptance mode) and the settings repository, a table with one row per restaurant.
 */
module SettingsEntity {
  import opened Wrappers
  import opened DomainErrors
  import opened Calendar

  /** One service period of a day, with its seat capacity. */
  datatype TimeRange = TimeRange(open: string, close: string, capacity: int)

  /** Shifts per weekday; a day missing from the map has no shifts. */
  type OpeningHours = map<Weekday, seq<TimeRange>>

  datatype AcceptanceMode = AUTO | MANUAL

  /** The constructor arguments of `Settings`, in their declared order. */
  datatype SettingsProps = SettingsProps(
    id: string,
    restaurantId: string,
    openingHours: OpeningHours,
    timeSlotInterval: nat,
    depositAmount: real,
    acceptanceMode: AcceptanceMode,
    createdAt: Option<int>,
    updatedAt: Option<int>)

  class Settings {
    const id: string
    const restaurantId: string
    var openingHours: OpeningHours
    var timeSlotInterval: nat
    var depositAmount: real
    var acceptanceMode: AcceptanceMode
    const createdAt: Option<int>
    const updatedAt: Option<int>

    function Props(): SettingsProps
      reads this
    {
      SettingsProps(id, restaurantId, openingHours, timeSlotInterval, depositAmount,
        acceptanceMode, createdAt, updatedAt)
    }

    /** `new Settings(...)` with every field given. */
    constructor (p: SettingsProps)
      ensures Props() == p
    {
      id, restaurantId, openingHours := p.id, p.restaurantId, p.openingHours;
      timeSlotInterval, depositAmount, acceptanceMode := p.timeSlotInterval, p.depositAmount, p.acceptanceMode;
      createdAt, updatedAt := p.createdAt, p.updatedAt;
    }

    /** `Settings.create`: the six given fields in their positions, no timestamps yet. */
    constructor Create(id: string, restaurantId: string, openingHours: OpeningHours,
                       timeSlotInterval: nat, depositAmount: real, acceptanceMode: AcceptanceMode)
      ensures Props() == SettingsProps(id, restaurantId, openingHours, timeSlotInterval,
        depositAmount, acceptanceMode, None, None)
    {
      this.id, this.restaurantId, this.openingHours := id, restaurantId, openingHours;
      this.timeSlotInterval, this.depositAmount := timeSlotInterval, depositAmount;
      this.acceptanceMode, createdAt, updatedAt := acceptanceMode, None, None;
    }
  }

  const DUPLICATE_KEY := "duplicate key value violates unique constraint"

  /**
   * The row `save` writes: the entity's fields with the stored creation time kept (or
   * stamped, for a new row) and the update time stamped.
   */
  function Stamped(table: map<string, SettingsProps>, p: SettingsProps, now: int): (q: SettingsProps)
    ensures q.(createdAt := p.createdAt, updatedAt := p.updatedAt) == p
    ensures q.updatedAt == Some(now)
  {
    if p.restaurantId in table && table[p.restaurantId].id == p.id then
      p.(createdAt := table[p.restaurantId].createdAt, updatedAt := Some(now))
    else
      p.(createdAt := Some(now), updatedAt := Some(now))
  }

  /**
   * The settings `save` hands back: the entity as the mapper built it, which carries no
   * timestamps, with the columns the database generated merged in. An insert returns
   * both timestamps; an update returns only the new update time, so `createdAt` stays
   * unset, and otherwise the object agrees with the stored row.
   */
  function Returned(table: map<string, SettingsProps>, p: SettingsProps, now: int): (q: SettingsProps)
    ensures q.(createdAt := p.createdAt, updatedAt := p.updatedAt) == p
    ensures q.updatedAt == Some(now)
    ensures q.createdAt.Some? <==> !(p.restaurantId in table && table[p.restaurantId].id == p.id)
    ensures q.createdAt.Some? ==> q == Stamped(table, p, now)
    ensures q.createdAt.None? ==> q.(createdAt := table[p.restaurantId].createdAt) == Stamped(table, p, now)
  {
    if p.restaurantId in table && table[p.restaurantId].id == p.id then
      p.(createdAt := None, updatedAt := Some(now))
    else
      p.(createdAt := Some(now), updatedAt := Some(now))
  }

  /**
   * The settings table keyed by its unique `restaurantId` column. `findByRestaurantId`
   * reads the row of a restaurant and `save` writes one.
   */
  class SettingsTypeOrmRepository {
    var table: map<string, SettingsProps>

    ghost predicate Valid()
      reads this
    {
      forall rid | rid in table :: table[rid].restaurantId == rid
    }

    constructor (initial: map<string, SettingsProps>)
      requires forall rid | rid in initial :: initial[rid].restaurantId == rid
      ensures table == initial && Valid()
    {
      table := initial;
    }

    /** `findByRestaurantId`: a fresh entity for the restaurant's row, or none. */
    method FindByRestaurantId(restaurantId: string) returns (r: Option<Settings>)
      ensures r.None? <==> restaurantId !in table
      ensures r.Some? ==> fresh(r.value) && r.value.Props() == table[restaurantId]
    {
      if restaurantId in table {
        var s := new Settings(table[restaurantId]);
        r := Some(s);
      } else {
        r := None;
      }
    }

    /**
     * `save`: writes the entity under its restaurant and returns a fresh entity of the
     * object the ORM hands back. A restaurant that already has settings under another id
     * violates the unique column; that write is rejected and changes nothing.
     */
    method Save(settings: Settings, now: int) returns (r: Result<Settings>)
      requires Valid()
      modifies this
      ensures Valid()
      ensures var p := old(settings.Props());
        if p.restaurantId in old(table) && old(table)[p.restaurantId].id != p.id then
          r == Err(UnexpectedError(DUPLICATE_KEY)) && table == old(table)
        else
          && table == old(table)[p.restaurantId := Stamped(old(table), p, now)]
          && r.Ok? && fresh(r.value) && r.value.Props() == Returned(old(table), p, now)
    {
      var p := settings.Props();
      if p.restaurantId in table && table[p.restaurantId].id != p.id {
        return Err(UnexpectedError(DUPLICATE_KEY));
      }
      var saved := new Settings(Returned(table, p, now));
      table := table[p.restaurantId := Stamped(table, p, now)];
      r := Ok(saved);
    }
  }
}
