/**
 * `CreateRestaurantAdminUseCase`: provisions a restaurant administrator together with the
 * restaurant they own. A known e-mail is a conflict; otherwise a temporary password is
 * generated and hashed, the slug is derived from the restaurant name (with a time stamp
 * appended when it is taken), the user is saved, then the restaurant; if the restaurant
 * cannot be saved the user is deleted again and the error is passed on. On success a
 * welcome e-mail carries the temporary password.
 *
 * The oracles are parameters: `roll` drives `Math.random`, `hash` is the password hasher,
 * `nowMs` is `Date.now()`, `now` is the database clock, and `userId`/`restaurantId` are
 * the two `crypto.randomUUID()` results, assumed not to be in use yet.
 */
module CreateRestaurantAdmin {
  import opened Wrappers
  import opened DomainErrors
  import opened Tables
  import opened Text
  import opened Notifications
  import UserEntity
  import RestaurantEntity
  import UserRepository
  import RestaurantRepository
  import GenerateSlug
  import PasswordGenerator

  /** `CreateRestaurantAdminInput`. */
  datatype CreateRestaurantAdminInput = CreateRestaurantAdminInput(
    email: string,
    firstName: string,
    lastName: string,
    phone: string,
    restaurantName: string,
    restaurantPhone: string,
    restaurantAddress: string,
    restaurantCategory: string,
    restaurantEmail: string,
    restaurantImageUrl: string)

  /** The `user` part of `CreateRestaurantAdminResult`. */
  datatype AdminSummary = AdminSummary(
    id: string,
    email: string,
    role: UserEntity.UserRole,
    firstName: string,
    lastName: string,
    phone: string,
    mustChangePassword: bool)

  /** The `restaurant` part of `CreateRestaurantAdminResult`. */
  datatype RestaurantSummary = RestaurantSummary(
    id: string,
    name: string,
    adminId: string,
    phone: string,
    address: string,
    category: string,
    email: string,
    imageUrl: string,
    slug: string)

  /** `CreateRestaurantAdminResult`. */
  datatype CreateRestaurantAdminResult = CreateRestaurantAdminResult(
    user: AdminSummary,
    restaurant: RestaurantSummary,
    tempPassword: string)

  /** The conflict raised for an e-mail that already belongs to a user. */
  function EmailInUse(email: string): (e: Exception)
    ensures e.DomainError? && e.kind == Conflict
    ensures "User with email " + email <= e.message
  {
    ConflictError("User with email " + email + " already exists")
  }

  /**
   * The slug the restaurant is created with: the slug of its name, or, when a restaurant
   * already has that slug, the same followed by `-` and the current time in milliseconds.
   */
  function SlugFor(rows: seq<RestaurantRepository.RestaurantRow>, name: string, nowMs: nat): (slug: string)
    ensures forall i :: 0 <= i < |slug| ==> GenerateSlug.IsSlugChar(slug[i])
    ensures var base := GenerateSlug.Slug(name);
      && (RestaurantRepository.BySlug(rows, base).None? ==> slug == base)
      && (RestaurantRepository.BySlug(rows, base).Some? ==>
            slug != base && |slug| > |base| + 1 && slug[..|base| + 1] == base + "-")
  {
    var base := GenerateSlug.Slug(name);
    if RestaurantRepository.BySlug(rows, base).Some? then
      var stamped := base + "-" + NatToDecimal(nowMs);
      assert stamped[..|base| + 1] == base + "-";
      stamped
    else base
  }

  /** The user `User.create` builds: an administrator who must change the temporary password. */
  function NewAdmin(input: CreateRestaurantAdminInput, id: string, passwordHash: string): (u: UserEntity.UserProps)
    ensures u.role == UserEntity.RESTAURANT_ADMIN && u.mustChangePassword && u.isActive
    ensures u.id == id && u.email == input.email && u.passwordHash == passwordHash
    ensures u.firstName == input.firstName && u.lastName == input.lastName && u.phone == input.phone
    ensures u.createdAt.None? && u.updatedAt.None?
  {
    UserEntity.UserProps(id, input.firstName, input.lastName, input.phone, input.email, passwordHash,
      UserEntity.RESTAURANT_ADMIN, true, true, None, None)
  }

  /** The restaurant `Restaurant.create` builds: active and owned by `adminId`. */
  function NewRestaurantOf(input: CreateRestaurantAdminInput, id: string, adminId: string, slug: string)
    : RestaurantEntity.RestaurantProps
  {
    RestaurantEntity.RestaurantProps(id, input.restaurantName, adminId, input.restaurantPhone,
      input.restaurantAddress, input.restaurantCategory, input.restaurantEmail, input.restaurantImageUrl,
      slug, true, None, None)
  }

  /** The returned summary of the saved user and restaurant. */
  function Summary(u: UserEntity.UserProps, p: RestaurantEntity.RestaurantProps, tempPassword: string)
    : (r: CreateRestaurantAdminResult)
    ensures r.tempPassword == tempPassword
    ensures r.user.id == u.id && r.user.email == u.email && r.user.role == u.role
    ensures r.user.mustChangePassword == u.mustChangePassword
    ensures r.restaurant.id == p.id && r.restaurant.adminId == p.adminId
    ensures r.restaurant.slug == p.slug && r.restaurant.imageUrl == p.imageUrl
  {
    CreateRestaurantAdminResult(
      AdminSummary(u.id, u.email, u.role, u.firstName, u.lastName, u.phone, u.mustChangePassword),
      RestaurantSummary(p.id, p.name, p.adminId, p.phone, p.address, p.category, p.email, p.imageUrl, p.slug),
      tempPassword)
  }

  /** The welcome e-mail for the saved user and restaurant. */
  function Welcome(u: UserEntity.UserProps, p: RestaurantEntity.RestaurantProps, tempPassword: string): (n: Notice)
    ensures n.WelcomeToNewAdmin? && n.to == u.email && n.tempPassword == tempPassword
    ensures n.restaurantName == p.name && n.restaurantEmail == p.email
  {
    WelcomeToNewAdmin(u.email, u.firstName, u.lastName, p.name, p.category, p.address, p.phone, p.email,
      tempPassword)
  }

  /** The restaurant row this input would be saved as. */
  function RestaurantRowFor(rows: seq<RestaurantRepository.RestaurantRow>, input: CreateRestaurantAdminInput,
                            restaurantId: string, userId: string, nowMs: nat): RestaurantRepository.RestaurantRow
  {
    RestaurantRepository.ToEntity(NewRestaurantOf(input, restaurantId, userId,
      SlugFor(rows, input.restaurantName, nowMs)))
  }

  /** The summary does not see the timestamps the database adds. */
  lemma SummaryIgnoresTimestamps(u: UserEntity.UserProps, p: RestaurantEntity.RestaurantProps, pwd: string,
                                 c: Option<int>, d: Option<int>)
    ensures Summary(u.(createdAt := c, updatedAt := d), p.(createdAt := c, updatedAt := d), pwd) == Summary(u, p, pwd)
  {
  }

  /**
   * After a successful provisioning the new administrator is found by e-mail, holds the
   * hash of the temporary password and must change it, and the new restaurant is found
   * by id and by slug, active and owned by that administrator. So a second request with
   * the same e-mail is a conflict.
   */
  lemma ProvisionedAndLinked(users: seq<UserEntity.UserProps>, restaurants: seq<RestaurantRepository.RestaurantRow>,
                             input: CreateRestaurantAdminInput, userId: string, restaurantId: string,
                             passwordHash: string, nowMs: nat, now: int)
    requires UserRepository.UniqueKeys(users) && RestaurantRepository.UniqueKeys(restaurants)
    requires IndexOf(users, UserRepository.RowId, userId).None?
    requires IndexOf(restaurants, RestaurantRepository.RowId, restaurantId).None?
    requires IndexOf(users, UserRepository.RowEmail, input.email).None?
    requires !RestaurantRepository.Conflicts(restaurants, RestaurantRowFor(restaurants, input, restaurantId, userId, nowMs))
    ensures var users' := UserRepository.Upsert(users, NewAdmin(input, userId, passwordHash), now);
      var restaurants' := RestaurantRepository.Upsert(restaurants,
        RestaurantRowFor(restaurants, input, restaurantId, userId, nowMs), now);
      var slug := SlugFor(restaurants, input.restaurantName, nowMs);
      && IndexOf(users', UserRepository.RowEmail, input.email).Some?
      && var admin := users'[IndexOf(users', UserRepository.RowEmail, input.email).value];
      && admin.id == userId && admin.role == UserEntity.RESTAURANT_ADMIN
      && admin.mustChangePassword && admin.isActive && admin.passwordHash == passwordHash
      && RestaurantRepository.ById(restaurants', restaurantId).Some?
      && RestaurantRepository.BySlug(restaurants', slug) == RestaurantRepository.ById(restaurants', restaurantId)
      && RestaurantRepository.ById(restaurants', restaurantId).value.adminId == admin.id
      && RestaurantRepository.ById(restaurants', restaurantId).value.isActive
  {
    var admin := NewAdmin(input, userId, passwordHash);
    var row := RestaurantRowFor(restaurants, input, restaurantId, userId, nowMs);
    assert !TakenByOther(users, admin, UserRepository.RowEmail, UserRepository.RowId);
    UserRepository.UpsertKeepsKeysUnique(users, admin, now);
    RestaurantRepository.UpsertKeepsKeysUnique(restaurants, row, now);
    var users' := UserRepository.Upsert(users, admin, now);
    var restaurants' := RestaurantRepository.Upsert(restaurants, row, now);
    assert users'[|users|].email == input.email;
    IndexOfUnique(users', UserRepository.RowEmail, input.email, |users|);
    assert restaurants'[|restaurants|].id == restaurantId;
    IndexOfUnique(restaurants', RestaurantRepository.RowId, restaurantId, |restaurants|);
    IndexOfUnique(restaurants', RestaurantRepository.RowSlug, row.slug, |restaurants|);
  }

  /** The user row `save` writes for the new administrator, read back by id. */
  lemma SavedAdmin(users: seq<UserEntity.UserProps>, admin: UserEntity.UserProps, now: int)
    requires UserRepository.UniqueKeys(users) && IndexOf(users, UserRepository.RowId, admin.id).None?
    requires !TakenByOther(users, admin, UserRepository.RowEmail, UserRepository.RowId)
    ensures var users' := UserRepository.Upsert(users, admin, now);
      && IndexOf(users', UserRepository.RowId, admin.id) == Some(|users|)
      && users'[|users|] == admin.(createdAt := Some(now), updatedAt := Some(now))
  {
    UserRepository.UpsertKeepsKeysUnique(users, admin, now);
    var users' := UserRepository.Upsert(users, admin, now);
    IndexOfUnique(users', UserRepository.RowId, admin.id, |users|);
  }

  /** The restaurant row `save` writes, read back by id. */
  lemma SavedRestaurant(rows: seq<RestaurantRepository.RestaurantRow>, row: RestaurantRepository.RestaurantRow, now: int)
    requires RestaurantRepository.UniqueKeys(rows) && IndexOf(rows, RestaurantRepository.RowId, row.id).None?
    requires !RestaurantRepository.Conflicts(rows, row)
    ensures var rows' := RestaurantRepository.Upsert(rows, row, now);
      && IndexOf(rows', RestaurantRepository.RowId, row.id) == Some(|rows|)
      && rows'[|rows|] == row.(createdAt := Some(now), updatedAt := Some(now))
  {
    RestaurantRepository.UpsertKeepsKeysUnique(rows, row, now);
    var rows' := RestaurantRepository.Upsert(rows, row, now);
    IndexOfUnique(rows', RestaurantRepository.RowId, row.id, |rows|);
  }

  /**
   * `save` of the restaurant inside `try`: on failure the just-saved user is deleted and
   * the error passed on, leaving both tables as they were before the user was saved.
   */
  method SaveOrRollback(users: UserRepository.UserTypeOrmRepository,
                        restaurants: RestaurantRepository.RestaurantTypeOrmRepository,
                        restaurant: RestaurantEntity.Restaurant, savedUserId: string, now: int,
                        ghost usersBefore: seq<UserEntity.UserProps>, ghost admin: UserEntity.UserProps)
    returns (r: Result<RestaurantEntity.Restaurant>)
    requires users.Valid() && restaurants.Valid()
    requires IndexOf(usersBefore, UserRepository.RowId, admin.id).None?
    requires users.rows == UserRepository.Upsert(usersBefore, admin, now) && savedUserId == admin.id
    requires IndexOf(restaurants.rows, RestaurantRepository.RowId, restaurant.id).None?
    modifies users, restaurants
    ensures users.Valid() && restaurants.Valid()
    ensures var row := RestaurantRepository.ToEntity(restaurant.Props());
      RestaurantRepository.Conflicts(old(restaurants.rows), row) ==>
      && r == Err(UnexpectedError(RestaurantRepository.DUPLICATE_KEY))
      && users.rows == usersBefore && restaurants.rows == old(restaurants.rows)
    ensures var row := RestaurantRepository.ToEntity(restaurant.Props());
      !RestaurantRepository.Conflicts(old(restaurants.rows), row) ==>
      && r.Ok? && fresh(r.value)
      && users.rows == old(users.rows)
      && restaurants.rows == RestaurantRepository.Upsert(old(restaurants.rows), row, now)
      && r.value.Props() == RestaurantRepository.ToDomainArgs(row.(createdAt := Some(now), updatedAt := Some(now)))
  {
    ghost var before := restaurants.rows;
    ghost var row := RestaurantRepository.ToEntity(restaurant.Props());
    r := restaurants.Save(restaurant, now);
    if r.Err? {
      users.Delete(savedUserId);
      UserRepository.DeleteUndoesInsert(usersBefore, admin, now);
      return;
    }
    SavedRestaurant(before, row, now);
  }

  /**
   * The writing half of `execute`: build both entities, save the user, then the
   * restaurant, deleting the user again if that fails; on success send the welcome
   * e-mail and return the summary.
   */
  method Provision(input: CreateRestaurantAdminInput,
                   users: UserRepository.UserTypeOrmRepository,
                   restaurants: RestaurantRepository.RestaurantTypeOrmRepository,
                   notifier: Notifier,
                   tempPassword: string, passwordHash: string, slug: string, now: int,
                   userId: string, restaurantId: string)
    returns (r: Result<CreateRestaurantAdminResult>)
    requires users.Valid() && restaurants.Valid()
    requires IndexOf(users.rows, UserRepository.RowId, userId).None?
    requires IndexOf(users.rows, UserRepository.RowEmail, input.email).None?
    requires IndexOf(restaurants.rows, RestaurantRepository.RowId, restaurantId).None?
    modifies users, restaurants, notifier
    ensures users.Valid() && restaurants.Valid()
    ensures var created := NewRestaurantOf(input, restaurantId, userId, slug);
      RestaurantRepository.Conflicts(old(restaurants.rows), RestaurantRepository.ToEntity(created)) ==>
      && r == Err(UnexpectedError(RestaurantRepository.DUPLICATE_KEY))
      && users.rows == old(users.rows) && restaurants.rows == old(restaurants.rows)
      && notifier.sent == old(notifier.sent)
    ensures var admin := NewAdmin(input, userId, passwordHash);
      var created := NewRestaurantOf(input, restaurantId, userId, slug);
      !RestaurantRepository.Conflicts(old(restaurants.rows), RestaurantRepository.ToEntity(created)) ==>
      && r == Ok(Summary(admin, created, tempPassword))
      && users.rows == UserRepository.Upsert(old(users.rows), admin, now)
      && restaurants.rows == RestaurantRepository.Upsert(old(restaurants.rows),
           RestaurantRepository.ToEntity(created), now)
      && notifier.sent == old(notifier.sent) + [Welcome(admin, created, tempPassword)]
  {
    var user := new UserEntity.User.Create(UserEntity.NewUser(userId, input.firstName, input.lastName,
      input.phone, input.email, passwordHash, UserEntity.RESTAURANT_ADMIN, true, true));
    var restaurant := new RestaurantEntity.Restaurant.Create(RestaurantEntity.NewRestaurant(restaurantId,
      input.restaurantName, user.id, input.restaurantPhone, input.restaurantAddress,
      input.restaurantCategory, input.restaurantEmail, input.restaurantImageUrl, slug, true));
    ghost var admin := NewAdmin(input, userId, passwordHash);
    ghost var created := NewRestaurantOf(input, restaurantId, userId, slug);
    assert user.Props() == admin && restaurant.Props() == created;

    ghost var usersBefore := users.rows;
    assert !TakenByOther(usersBefore, admin, UserRepository.RowEmail, UserRepository.RowId);
    var savedUser := users.Save(user, now);
    assert savedUser.Ok?;
    SavedAdmin(usersBefore, admin, now);
    assert savedUser.value.Props() == admin.(createdAt := Some(now), updatedAt := Some(now));

    var savedRestaurant := SaveOrRollback(users, restaurants, restaurant, savedUser.value.id, now,
      usersBefore, admin);
    if savedRestaurant.Err? {
      return Err(savedRestaurant.error);
    }
    RestaurantRepository.EntityRoundTrip(created);
    ghost var stamped := Some(now);
    SummaryIgnoresTimestamps(admin, created, tempPassword, stamped, stamped);
    var userRead := savedUser.value.Props();
    var restaurantRead := savedRestaurant.value.Props();
    notifier.Send(Welcome(userRead, restaurantRead, tempPassword));
    r := Ok(Summary(userRead, restaurantRead, tempPassword));
  }

  /** `execute(input)`. */
  method Execute(input: CreateRestaurantAdminInput,
                 users: UserRepository.UserTypeOrmRepository,
                 restaurants: RestaurantRepository.RestaurantTypeOrmRepository,
                 notifier: Notifier,
                 roll: nat -> nat, hash: string -> string, nowMs: nat, now: int,
                 userId: string, restaurantId: string)
    returns (r: Result<CreateRestaurantAdminResult>)
    requires users.Valid() && restaurants.Valid()
    requires IndexOf(users.rows, UserRepository.RowId, userId).None?
    requires IndexOf(restaurants.rows, RestaurantRepository.RowId, restaurantId).None?
    modifies users, restaurants, notifier
    ensures users.Valid() && restaurants.Valid()
    ensures IndexOf(old(users.rows), UserRepository.RowEmail, input.email).Some? ==>
      && r == Err(EmailInUse(input.email))
      && users.rows == old(users.rows) && restaurants.rows == old(restaurants.rows)
      && notifier.sent == old(notifier.sent)
    ensures (IndexOf(old(users.rows), UserRepository.RowEmail, input.email).None?
             && RestaurantRepository.Conflicts(old(restaurants.rows),
                  RestaurantRowFor(old(restaurants.rows), input, restaurantId, userId, nowMs))) ==>
      && r == Err(UnexpectedError(RestaurantRepository.DUPLICATE_KEY))
      && users.rows == old(users.rows) && restaurants.rows == old(restaurants.rows)
      && notifier.sent == old(notifier.sent)
    ensures r.Ok? <==>
      && IndexOf(old(users.rows), UserRepository.RowEmail, input.email).None?
      && !RestaurantRepository.Conflicts(old(restaurants.rows),
           RestaurantRowFor(old(restaurants.rows), input, restaurantId, userId, nowMs))
    ensures r.Ok? ==>
      var pwd := r.value.tempPassword;
      var admin := NewAdmin(input, userId, hash(pwd));
      var restaurant := NewRestaurantOf(input, restaurantId, userId,
        SlugFor(old(restaurants.rows), input.restaurantName, nowMs));
      && PasswordGenerator.IsTemporaryPassword(pwd, PasswordGenerator.DEFAULT_LENGTH)
      && users.rows == UserRepository.Upsert(old(users.rows), admin, now)
      && restaurants.rows == RestaurantRepository.Upsert(old(restaurants.rows),
           RestaurantRepository.ToEntity(restaurant), now)
      && notifier.sent == old(notifier.sent) + [Welcome(admin, restaurant, pwd)]
      && r.value == Summary(admin, restaurant, pwd)
  {
    var existingUser := users.FindByEmail(input.email);
    if existingUser.Some? {
      return Err(EmailInUse(input.email));
    }

    var tempPassword := PasswordGenerator.GenerateTemporaryPassword(PasswordGenerator.DEFAULT_LENGTH, roll);
    var passwordHash := hash(tempPassword);

    var slug := GenerateSlug.Slug(input.restaurantName);
    var existingSlug := restaurants.FindBySlug(slug);
    if existingSlug.Some? {
      slug := slug + "-" + NatToDecimal(nowMs);
    }
    assert slug == SlugFor(restaurants.rows, input.restaurantName, nowMs);

    r := Provision(input, users, restaurants, notifier, tempPassword, passwordHash, slug, now, userId, restaurantId);
  }
}
