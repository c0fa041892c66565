/**
 * `GetSettingsUseCase` and `UpdateSettingsUseCase`: reading and patching a restaurant's
 * settings on behalf of a signed-in user. A restaurant administrator may act only on
 * the restaurant they own; a super-administrator may act on any.
 */
module SettingsUseCases {
  import opened Wrappers
  import opened DomainErrors
  import opened UserEntity
  import opened RestaurantEntity
  import opened RestaurantRepository
  import opened SettingsEntity

  const VIEW_FORBIDDEN := "You can only view settings of your own restaurant"
  const UPDATE_FORBIDDEN := "You can only update settings of your own restaurant"
  const ALL_FIELDS_REQUIRED := "All fields are required when creating settings for the first time"

  /** The `SettingsResult` both use cases return. */
  datatype SettingsResult = SettingsResult(
    id: string,
    restaurantId: string,
    openingHours: OpeningHours,
    timeSlotInterval: nat,
    depositAmount: real,
    acceptanceMode: AcceptanceMode,
    createdAt: Option<int>,
    updatedAt: Option<int>)

  function ResultOf(p: SettingsProps): SettingsResult {
    SettingsResult(p.id, p.restaurantId, p.openingHours, p.timeSlotInterval, p.depositAmount,
      p.acceptanceMode, p.createdAt, p.updatedAt)
  }

  /** The ownership guard: only a restaurant administrator is restricted, to their own restaurant. */
  predicate MayManage(user: UserProps, restaurant: RestaurantProps) {
    user.role == RESTAURANT_ADMIN ==> restaurant.adminId == user.id
  }

  // ----- GetSettingsUseCase ------------------------------------------------------------

  /**
   * `execute` of `GetSettingsUseCase` over the restaurant rows and the settings table: it
   * writes nothing.
   */
  function GetSettings(restaurants: seq<RestaurantRow>, table: map<string, SettingsProps>,
                       restaurantId: string, currentUser: UserProps): (r: Result<SettingsResult>)
    ensures ById(restaurants, restaurantId).None? ==> r == Err(NotFoundError("Restaurant", restaurantId))
    ensures ById(restaurants, restaurantId).Some? && !MayManage(currentUser, ById(restaurants, restaurantId).value) ==>
      r == Err(ForbiddenError(VIEW_FORBIDDEN))
    ensures r.Ok? <==>
      ById(restaurants, restaurantId).Some? && MayManage(currentUser, ById(restaurants, restaurantId).value)
      && restaurantId in table
    ensures r.Ok? ==> r.value == ResultOf(table[restaurantId])
  {
    match ById(restaurants, restaurantId)
    case None => Err(NotFoundError("Restaurant", restaurantId))
    case Some(restaurant) =>
      if !MayManage(currentUser, restaurant) then Err(ForbiddenError(VIEW_FORBIDDEN))
      else if restaurantId !in table then Err(NotFoundError("Settings for restaurant", restaurantId))
      else Ok(ResultOf(table[restaurantId]))
  }

  /**
   * Missing settings of a visible restaurant are reported as not found; a
   * super-administrator is never forbidden.
   */
  lemma GetSettingsErrors(restaurants: seq<RestaurantRow>, table: map<string, SettingsProps>,
                          restaurantId: string, currentUser: UserProps)
    ensures (ById(restaurants, restaurantId).Some? && MayManage(currentUser, ById(restaurants, restaurantId).value)
      && restaurantId !in table) ==>
      GetSettings(restaurants, table, restaurantId, currentUser) == Err(NotFoundError("Settings for restaurant", restaurantId))
    ensures currentUser.role == SUPERADMIN ==>
      GetSettings(restaurants, table, restaurantId, currentUser) != Err(ForbiddenError(VIEW_FORBIDDEN))
  {
  }

  // ----- UpdateSettingsUseCase ---------------------------------------------------------

  /** The optional fields of `UpdateSettingsInput`; `None` is an absent field. */
  datatype SettingsPatch = SettingsPatch(
    openingHours: Option<OpeningHours>,
    timeSlotInterval: Option<nat>,
    depositAmount: Option<real>,
    acceptanceMode: Option<AcceptanceMode>)

  datatype UpdateSettingsInput = UpdateSettingsInput(
    restaurantId: string,
    currentUser: UserProps,
    patch: SettingsPatch)

  const EmptyPatch := SettingsPatch(None, None, None, None)

  /** The field-by-field merge into existing settings: a supplied field wins, an absent one is kept. */
  function Merge(p: SettingsProps, patch: SettingsPatch): (q: SettingsProps)
    ensures q.id == p.id && q.restaurantId == p.restaurantId
    ensures q.createdAt == p.createdAt && q.updatedAt == p.updatedAt
    ensures q.openingHours == if patch.openingHours.Some? then patch.openingHours.value else p.openingHours
    ensures q.timeSlotInterval == if patch.timeSlotInterval.Some? then patch.timeSlotInterval.value else p.timeSlotInterval
    ensures q.depositAmount == if patch.depositAmount.Some? then patch.depositAmount.value else p.depositAmount
    ensures q.acceptanceMode == if patch.acceptanceMode.Some? then patch.acceptanceMode.value else p.acceptanceMode
  {
    p.(openingHours := patch.openingHours.GetOr(p.openingHours),
       timeSlotInterval := patch.timeSlotInterval.GetOr(p.timeSlotInterval),
       depositAmount := patch.depositAmount.GetOr(p.depositAmount),
       acceptanceMode := patch.acceptanceMode.GetOr(p.acceptanceMode))
  }

  /** A patch with no fields changes nothing. */
  lemma MergeEmptyPatch(p: SettingsProps)
    ensures Merge(p, EmptyPatch) == p
  {
  }

  /** Applying the same patch twice is applying it once. */
  lemma MergeIdempotent(p: SettingsProps, patch: SettingsPatch)
    ensures Merge(Merge(p, patch), patch) == Merge(p, patch)
  {
  }

  /**
   * The first-time guard: an opening-hours object (always truthy), a truthy slot interval
   * (not 0), a defined deposit (0 allowed) and an acceptance mode.
   */
  predicate CompleteForCreate(patch: SettingsPatch) {
    && patch.openingHours.Some?
    && patch.timeSlotInterval.Some? && patch.timeSlotInterval.value != 0
    && patch.depositAmount.Some?
    && patch.acceptanceMode.Some?
  }

  /** `Settings.create` from a complete patch. */
  function Created(id: string, restaurantId: string, patch: SettingsPatch): (p: SettingsProps)
    requires CompleteForCreate(patch)
    ensures Merge(p, patch) == p
  {
    SettingsProps(id, restaurantId, patch.openingHours.value, patch.timeSlotInterval.value,
      patch.depositAmount.value, patch.acceptanceMode.value, None, None)
  }

  /**
   * The settings record `execute` hands to `save`, or the error it throws before saving.
   * `newId` is the identifier generated for settings created for the first time.
   */
  function UpdatePlan(restaurants: seq<RestaurantRow>, table: map<string, SettingsProps>,
                      input: UpdateSettingsInput, newId: string): (r: Result<SettingsProps>)
    ensures r.Ok? ==> r.value.restaurantId == (if input.restaurantId in table then table[input.restaurantId].restaurantId else input.restaurantId)
    ensures r.Ok? && input.restaurantId in table ==> r.value.id == table[input.restaurantId].id
    ensures r.Ok? && input.restaurantId !in table ==> r.value.id == newId
  {
    match ById(restaurants, input.restaurantId)
    case None => Err(NotFoundError("Restaurant", input.restaurantId))
    case Some(restaurant) =>
      if !MayManage(input.currentUser, restaurant) then Err(ForbiddenError(UPDATE_FORBIDDEN))
      else if input.restaurantId in table then Ok(Merge(table[input.restaurantId], input.patch))
      else if !CompleteForCreate(input.patch) then Err(BadRequestError(ALL_FIELDS_REQUIRED))
      else Ok(Created(newId, input.restaurantId, input.patch))
  }

  /**
   * Only a restaurant administrator who does not own the restaurant is forbidden, and
   * that is decided before the settings are looked at.
   */
  lemma UpdateOwnership(restaurants: seq<RestaurantRow>, table: map<string, SettingsProps>,
                        input: UpdateSettingsInput, newId: string)
    ensures UpdatePlan(restaurants, table, input, newId) == Err(ForbiddenError(UPDATE_FORBIDDEN)) <==>
      && ById(restaurants, input.restaurantId).Some?
      && input.currentUser.role == RESTAURANT_ADMIN
      && ById(restaurants, input.restaurantId).value.adminId != input.currentUser.id
    ensures ById(restaurants, input.restaurantId).None? ==>
      UpdatePlan(restaurants, table, input, newId) == Err(NotFoundError("Restaurant", input.restaurantId))
  {
  }

  /**
   * Without existing settings a permitted call succeeds exactly when the patch is
   * complete, and the new record carries exactly the four given values.
   */
  lemma CreateOnlyIfComplete(restaurants: seq<RestaurantRow>, table: map<string, SettingsProps>,
                             input: UpdateSettingsInput, newId: string)
    requires ById(restaurants, input.restaurantId).Some?
    requires MayManage(input.currentUser, ById(restaurants, input.restaurantId).value)
    requires input.restaurantId !in table
    ensures UpdatePlan(restaurants, table, input, newId).Ok? <==> CompleteForCreate(input.patch)
    ensures !CompleteForCreate(input.patch) ==>
      UpdatePlan(restaurants, table, input, newId) == Err(BadRequestError(ALL_FIELDS_REQUIRED))
    ensures CompleteForCreate(input.patch) ==>
      UpdatePlan(restaurants, table, input, newId) == Ok(SettingsProps(newId, input.restaurantId,
        input.patch.openingHours.value, input.patch.timeSlotInterval.value,
        input.patch.depositAmount.value, input.patch.acceptanceMode.value, None, None))
  {
  }

  /** A permitted patch of existing settings with no fields saves them unchanged. */
  lemma EmptyPatchSavesUnchanged(restaurants: seq<RestaurantRow>, table: map<string, SettingsProps>,
                                 input: UpdateSettingsInput, newId: string)
    requires ById(restaurants, input.restaurantId).Some?
    requires MayManage(input.currentUser, ById(restaurants, input.restaurantId).value)
    requires input.restaurantId in table && input.patch == EmptyPatch
    ensures UpdatePlan(restaurants, table, input, newId) == Ok(table[input.restaurantId])
  {
    MergeEmptyPatch(table[input.restaurantId]);
  }

  /** Re-applying a patch to the settings it produced saves the same settings again. */
  lemma UpdateIdempotent(restaurants: seq<RestaurantRow>, table: map<string, SettingsProps>,
                         input: UpdateSettingsInput, newId: string, now: int)
    requires forall rid | rid in table :: table[rid].restaurantId == rid
    requires UpdatePlan(restaurants, table, input, newId).Ok?
    ensures var p := UpdatePlan(restaurants, table, input, newId).value;
      var after := table[input.restaurantId := Stamped(table, p, now)];
      UpdatePlan(restaurants, after, input, newId).Ok?
      && UpdatePlan(restaurants, after, input, newId).value.(createdAt := p.createdAt, updatedAt := p.updatedAt) == p
  {
    var p := UpdatePlan(restaurants, table, input, newId).value;
    if input.restaurantId in table {
      MergeIdempotent(table[input.restaurantId], input.patch);
    }
  }

  /**
   * Reading the settings right after a successful update, as the same user, returns
   * the record that was saved. It agrees with what the update itself answered except
   * for the creation time, which only the read-back carries after an update.
   */
  lemma GetAfterUpdate(restaurants: seq<RestaurantRow>, table: map<string, SettingsProps>,
                       input: UpdateSettingsInput, newId: string, now: int)
    requires forall rid | rid in table :: table[rid].restaurantId == rid
    requires UpdatePlan(restaurants, table, input, newId).Ok?
    ensures var p := UpdatePlan(restaurants, table, input, newId).value;
      var after := table[input.restaurantId := Stamped(table, p, now)];
      && GetSettings(restaurants, after, input.restaurantId, input.currentUser) == Ok(ResultOf(after[input.restaurantId]))
      && after[input.restaurantId] == SettingsEntity.Returned(table, p, now).(createdAt := after[input.restaurantId].createdAt)
  {
  }

  /**
   * `execute` of `UpdateSettingsUseCase`: the guards, then the in-place merge into the
   * loaded settings or the creation of new ones, then one `save`.
   */
  method UpdateSettings(input: UpdateSettingsInput, restaurants: RestaurantTypeOrmRepository,
                        settings: SettingsTypeOrmRepository, newId: string, now: int)
    returns (r: Result<SettingsResult>)
    requires settings.Valid()
    modifies settings
    ensures settings.Valid()
    ensures var plan := UpdatePlan(restaurants.rows, old(settings.table), input, newId);
      if plan.Err? then
        r == Err(plan.error) && settings.table == old(settings.table)
      else
        && settings.table == old(settings.table)[input.restaurantId := Stamped(old(settings.table), plan.value, now)]
        && r == Ok(ResultOf(SettingsEntity.Returned(old(settings.table), plan.value, now)))
        && (r.value.createdAt.None? <==> input.restaurantId in old(settings.table))
        && r.value.updatedAt == Some(now)
  {
    ghost var plan := UpdatePlan(restaurants.rows, settings.table, input, newId);
    var restaurant := restaurants.FindById(input.restaurantId);
    if restaurant.None? {
      return Err(NotFoundError("Restaurant", input.restaurantId));
    }
    if input.currentUser.role == RESTAURANT_ADMIN {
      if restaurant.value.adminId != input.currentUser.id {
        return Err(ForbiddenError(UPDATE_FORBIDDEN));
      }
    }
    var existing := settings.FindByRestaurantId(input.restaurantId);
    var s: Settings;
    if existing.Some? {
      s := existing.value;
      if input.patch.openingHours.Some? {
        s.openingHours := input.patch.openingHours.value;
      }
      if input.patch.timeSlotInterval.Some? {
        s.timeSlotInterval := input.patch.timeSlotInterval.value;
      }
      if input.patch.depositAmount.Some? {
        s.depositAmount := input.patch.depositAmount.value;
      }
      if input.patch.acceptanceMode.Some? {
        s.acceptanceMode := input.patch.acceptanceMode.value;
      }
      assert plan == Ok(s.Props());
    } else {
      if || input.patch.openingHours.None?
         || input.patch.timeSlotInterval.None? || input.patch.timeSlotInterval.value == 0
         || input.patch.depositAmount.None?
         || input.patch.acceptanceMode.None?
      {
        return Err(BadRequestError(ALL_FIELDS_REQUIRED));
      }
      s := new Settings.Create(newId, input.restaurantId, input.patch.openingHours.value,
        input.patch.timeSlotInterval.value, input.patch.depositAmount.value,
        input.patch.acceptanceMode.value);
      assert plan == Ok(s.Props());
    }
    var saved := settings.Save(s, now);
    r := Ok(ResultOf(saved.value.Props()));
  }
}
