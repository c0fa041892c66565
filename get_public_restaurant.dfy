/**
 * `GetPublicRestaurantUseCase`: the public page of a restaurant, found by slug. An
 * unknown slug and an inactive restaurant are both reported as not found; the settings
 * part is present exactly when the restaurant has settings. Nothing is written.
 */
module GetPublicRestaurant {
  import opened Wrappers
  import opened Tables
  import opened DomainErrors
  import opened RestaurantEntity
  import opened RestaurantRepository
  import opened SettingsEntity

  /** `PublicSettingsResult`. */
  datatype PublicSettings = PublicSettings(
    openingHours: OpeningHours,
    timeSlotInterval: nat,
    depositAmount: real,
    acceptanceMode: AcceptanceMode)

  /** `PublicRestaurantDetail`. */
  datatype PublicRestaurantDetail = PublicRestaurantDetail(
    id: string,
    name: string,
    slug: string,
    category: string,
    address: string,
    email: string,
    phone: string,
    imageUrl: string,
    settings: Option<PublicSettings>)

  const UNAVAILABLE := "Restaurant is not available"

  /**
   * The inactive-restaurant error as written: the sentence is passed as the resource
   * name with no id, so the constructor appends " not found" to it.
   */
  function UnavailableAsWritten(): Exception {
    NotFoundError(UNAVAILABLE, "")
  }

  lemma UnavailableAsWrittenRepeats()
    ensures UnavailableAsWritten() == DomainError(NotFound, "Restaurant is not available not found")
  {
  }

  /** The inactive-restaurant error with the message the sentence states. */
  function Unavailable(): (e: Exception)
    ensures e.DomainError? && e.kind == NotFound && e.message == UNAVAILABLE
    ensures e != UnavailableAsWritten()
  {
    assert |UNAVAILABLE| < |UnavailableAsWritten().message|;
    DomainError(NotFound, UNAVAILABLE)
  }

  function PublicSettingsOf(s: SettingsProps): (p: PublicSettings)
    ensures p.openingHours == s.openingHours && p.timeSlotInterval == s.timeSlotInterval
    ensures p.depositAmount == s.depositAmount && p.acceptanceMode == s.acceptanceMode
  {
    PublicSettings(s.openingHours, s.timeSlotInterval, s.depositAmount, s.acceptanceMode)
  }

  /**
   * `execute(slug)` over the restaurant rows and the settings table (keyed by
   * restaurant id).
   */
  function GetPublicRestaurant(restaurants: seq<RestaurantRow>, table: map<string, SettingsProps>,
                               slug: string): (r: Result<PublicRestaurantDetail>)
    ensures BySlug(restaurants, slug).None? ==> r == Err(NotFoundError("Restaurant", slug))
    ensures BySlug(restaurants, slug).Some? && !BySlug(restaurants, slug).value.isActive ==>
      r == Err(Unavailable())
    ensures r.Err? ==> r.error.DomainError? && r.error.kind == NotFound
    ensures r.Ok? <==> BySlug(restaurants, slug).Some? && BySlug(restaurants, slug).value.isActive
    ensures r.Ok? ==>
      var p := BySlug(restaurants, slug).value;
      && r.value.slug == slug
      && r.value.id == p.id && r.value.name == p.name && r.value.category == p.category
      && r.value.address == p.address && r.value.email == p.email && r.value.phone == p.phone
      && r.value.imageUrl == p.imageUrl
      && (r.value.settings.None? <==> p.id !in table)
      && (r.value.settings.Some? ==> r.value.settings.value == PublicSettingsOf(table[p.id]))
  {
    match BySlug(restaurants, slug)
    case None => Err(NotFoundError("Restaurant", slug))
    case Some(restaurant) =>
      if !restaurant.isActive then Err(Unavailable())
      else
        var settings := if restaurant.id in table then Some(PublicSettingsOf(table[restaurant.id])) else None;
        Ok(PublicRestaurantDetail(restaurant.id, restaurant.name, restaurant.slug, restaurant.category,
          restaurant.address, restaurant.email, restaurant.phone, restaurant.imageUrl, settings))
  }

  /**
   * An inactive restaurant is hidden just like a deleted one: both answers are NotFound
   * errors, and only the message tells them apart.
   */
  lemma HiddenRestaurantsLookAlike(restaurants: seq<RestaurantRow>, table: map<string, SettingsProps>,
                                   slug: string, row: RestaurantRow)
    requires UniqueBy(restaurants, RowSlug)
    requires row in restaurants && row.slug == slug && !row.isActive
    ensures GetPublicRestaurant(restaurants, table, slug) == Err(Unavailable())
    ensures GetPublicRestaurant(RemoveKey(restaurants, RowSlug, slug), table, slug) ==
      Err(NotFoundError("Restaurant", slug))
  {
    var i :| 0 <= i < |restaurants| && restaurants[i] == row;
    IndexOfUnique(restaurants, RowSlug, slug, i);
  }
}
