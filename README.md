# mesaviva_api core, modelled in Dafny

mesaviva_api is the back end of a restaurant reservation service. A super-administrator
creates a restaurant together with its administrator account. The restaurant publishes
its opening hours, slot interval and acceptance mode as settings. The public lists the
active restaurants, opens one by its slug and books a table. A booking is checked against
group size, advance time, opening hours, slot alignment and shift capacity. A booking can
be cancelled with the token sent by e-mail. Domain errors become HTTP responses in one
exception filter.

This project models that core:

- the three entities and their state machines (`Reservation`, `Restaurant`, `User`), as
  classes whose methods update fields in place;
- the TypeORM repositories, as classes holding their table (`seq` of rows, or a `map` for
  settings). They carry their unique keys as an invariant, turn a unique-key clash into the
  database error, and keep the reservation mappers and the query orderings. The restaurant
  reads use the corrected mapper of the first "Findings" row, not the one as written, and
  the cancel and public-detail use cases use the corrected messages of the other two rows
  (see "Left out");
- the reservation validator, as pure functions over `HH:mm` strings, ISO dates and the
  opening-hours structure;
- the use cases (create reservation, cancel by token, get and update settings, public
  detail and public list, create restaurant admin). Each is a pure plan function and a
  method whose `ensures` ties the new repository and mailbox state to that plan;
- the slug generator, the temporary-password generator, the validation patterns and the
  domain-exception filter.

Collaborators the code cannot see are parameters:

- the clock (`nowMs` for `Date.now()`, `now` for the database timestamp);
- fresh identifiers (`crypto.randomUUID()`);
- the password hasher (a function `hash`);
- `Math.random()`, as an oracle `roll: nat -> nat`.

Sent e-mails are recorded as `Notice` values in a `Notifier` mailbox.

Module map (one file per module):

| module | models |
|---|---|
| `Wrappers`, `DomainErrors`, `Text`, `Calendar`, `Sorting`, `Tables` | shared values, the error classes, string and date helpers, `ORDER BY`, keyed tables |
| `ValidationConstants` | `PHONE_SPAIN_PATTERN`, `TIME_HH_MM_PATTERN` |
| `ReservationEntity`, `RestaurantEntity`, `UserEntity`, `SettingsEntity` | the entities; `SettingsEntity` also holds the settings repository |
| `ReservationRepository`, `RestaurantRepository`, `UserRepository` | the TypeORM repositories |
| `ReservationValidator` | `ReservationValidatorService` |
| `CreateReservation`, `CancelByToken`, `SettingsUseCases`, `GetPublicRestaurant`, `ListPublicRestaurants`, `CreateRestaurantAdmin` | the use cases |
| `GenerateSlug`, `PasswordGenerator`, `DomainExceptionFilter`, `Notifications` | the utilities, the filter, the e-mail port |

## Model

| member | source | states |
|---|---|---|
| ValidationConstants.TimePatternMeaning | src/shared/domain/constants/validation.constants.ts:5 | a string matches the time pattern exactly when it is `DD:DD` with hours at most 23 and minutes at most 59 |
| ValidationConstants.TimePatternExamples | src/shared/domain/constants/validation.constants.ts:5 | `00:00`, `13:30` and `23:59` match; `24:00`, `9:30`, `12:60` and padded strings do not |
| ValidationConstants.PhoneLengths | src/shared/domain/constants/validation.constants.ts:1 | a Spanish phone number has 9, 12 or 13 characters |
| ValidationConstants.PhoneCharacters | src/shared/domain/constants/validation.constants.ts:1 | a Spanish phone number is all digits, except for a leading `+` |
| ValidationConstants.PhonePatternExamples | src/shared/domain/constants/validation.constants.ts:1 | national, `+34` and `0034` numbers match; a leading 5, a short number, spaces and a hyphen do not |
| DomainErrors.NotFoundMessage | src/shared/domain/errors/domain.errors.ts:7-11 | the message starts with the resource, names the id when one is given, and always ends in " not found" |
| DomainErrors.NotFoundError | src/shared/domain/errors/domain.errors.ts:7-11 | a domain error of the not-found kind whose message is `NotFoundMessage` of the resource and id |
| DomainErrors.ConflictError | src/shared/domain/errors/domain.errors.ts:12 | a domain error of the conflict kind carrying the given message |
| DomainErrors.BadRequestError | src/shared/domain/errors/domain.errors.ts:13 | a domain error of the bad-request kind carrying the given message |
| DomainErrors.ForbiddenError | src/shared/domain/errors/domain.errors.ts:15 | a domain error of the forbidden kind carrying the given message |
| DomainExceptionFilter.MapException | src/shared/infrastructure/filters/domain-exception.filter.ts:38-99 | each domain error kind gets its own 4xx status and keeps its message; any other exception is a 500 with the generic message; each status is produced by exactly one kind |
| DomainExceptionFilter.LoggedIffUnexpected | src/shared/infrastructure/filters/domain-exception.filter.ts:22-27 | the filter logs exactly the unexpected (non-domain) exceptions |
| DomainExceptionFilter.ShouldLog | src/shared/infrastructure/filters/domain-exception.filter.ts:22-27 | no status a domain error maps to is logged; the 500 of an unexpected error is |
| DomainExceptionFilter.StatusDeterminesKind | src/shared/infrastructure/filters/domain-exception.filter.ts:58-98 | two exceptions with the same status are of the same kind; all unexpected exceptions give the same response |
| ReservationEntity.Reservation.constructor | src/modules/reservations/domain/entities/reservation.entity.ts:6-27 | the new entity holds exactly the given fields |
| ReservationEntity.Reservation.Create | src/modules/reservations/domain/entities/reservation.entity.ts:29-63 | a new reservation copies its parameters, has deposit 0, payment PENDING, no payment data, no rejection reason and no timestamps |
| ReservationEntity.Reservation.Accept | src/modules/reservations/domain/entities/reservation.entity.ts:65-70 | from PENDING the status becomes CONFIRMED and nothing else changes; from any other status it fails with a bad request and changes nothing |
| ReservationEntity.Reservation.Reject | src/modules/reservations/domain/entities/reservation.entity.ts:72-78 | from PENDING the status becomes REJECTED and the reason is stored, with an empty reason stored as null; otherwise a bad request and no change |
| ReservationEntity.Reservation.Cancel | src/modules/reservations/domain/entities/reservation.entity.ts:80-90 | from PENDING or CONFIRMED the status becomes CANCELLED; otherwise a bad request and no change |
| ReservationEntity.AcceptOnlyFromPending | src/modules/reservations/domain/entities/reservation.entity.ts:65-70 | accept succeeds iff the status is PENDING, leads to CONFIRMED, and otherwise fails with a bad request |
| ReservationEntity.RejectOnlyFromPending | src/modules/reservations/domain/entities/reservation.entity.ts:72-78 | reject succeeds iff the status is PENDING and leads to REJECTED |
| ReservationEntity.CancelOnlyFromActive | src/modules/reservations/domain/entities/reservation.entity.ts:80-90 | cancel succeeds iff the status is PENDING or CONFIRMED and leads to CANCELLED |
| ReservationEntity.TerminalStatesAreFinal | src/modules/reservations/domain/entities/reservation.entity.ts:65-90 | no action succeeds on REJECTED or CANCELLED; each fails with a bad request |
| ReservationEntity.TransitionsProgress | src/modules/reservations/domain/entities/reservation.entity.ts:65-90 | every successful transition strictly advances the status rank (the lifecycle has no cycle) |
| ReservationEntity.TransitionFrame | src/modules/reservations/domain/entities/reservation.entity.ts:65-90 | a transition changes only the status and, for reject, the rejection reason |
| ReservationEntity.LifecycleIsShort | src/modules/reservations/domain/entities/reservation.entity.ts:65-90 | any run of successful actions has at most two steps and ends in CONFIRMED or a terminal status |
| ReservationEntity.PropsOf | src/modules/reservations/domain/entities/reservation.entity.ts:6-27 | the field view of a list of entities, element by element |
| RestaurantEntity.Restaurant.constructor | src/modules/restaurants/domain/entities/restaurant.entity.ts:4-17 | the new entity holds exactly the given fields |
| RestaurantEntity.Restaurant.Create | src/modules/restaurants/domain/entities/restaurant.entity.ts:19-43 | a new restaurant copies its parameters and has no timestamps |
| RestaurantEntity.Restaurant.ToggleIsActive | src/modules/restaurants/domain/entities/restaurant.entity.ts:45-47 | the entity becomes `Toggled` of its old fields |
| RestaurantEntity.Toggled | src/modules/restaurants/domain/entities/restaurant.entity.ts:45-47 | toggling flips `isActive` |
| RestaurantEntity.ToggleTwice | src/modules/restaurants/domain/entities/restaurant.entity.ts:45-47 | toggling twice restores the restaurant, and toggling changes nothing but `isActive` |
| UserEntity.User.constructor | src/modules/users/domain/entities/user.entity.ts:4-16 | the new entity holds exactly the given fields |
| UserEntity.User.Create | src/modules/users/domain/entities/user.entity.ts:22-44 | a new user copies its parameters and has no timestamps |
| UserEntity.User.ToggleIsActive | src/modules/users/domain/entities/user.entity.ts:46-48 | the entity becomes `Toggled` of its old fields |
| UserEntity.FullName | src/modules/users/domain/entities/user.entity.ts:18-20 | the full name is the first name, one space, then the last name |
| UserEntity.FullNameInjective | src/modules/users/domain/entities/user.entity.ts:18-20 | when first names hold no space, equal full names mean equal first and last names |
| UserEntity.Toggled | src/modules/users/domain/entities/user.entity.ts:46-48 | toggling flips `isActive` |
| UserEntity.ToggleTwice | src/modules/users/domain/entities/user.entity.ts:46-48 | toggling twice restores the user, and toggling changes nothing but `isActive` |
| SettingsEntity.Settings.constructor | src/modules/settings/domain/entities/settings.entity.ts:6-15 | the new entity holds exactly the given fields |
| SettingsEntity.Settings.Create | src/modules/settings/domain/entities/settings.entity.ts:17-33 | new settings copy their parameters and have no timestamps |
| SettingsEntity.Stamped | src/modules/settings/infrastructure/persistence/settings.typeorm.repository.ts:22-26 | the row the database keeps differs from the entity only in its timestamps: `updatedAt` is now, and `createdAt` is kept on an update and now on an insert |
| SettingsEntity.SettingsTypeOrmRepository.constructor | src/modules/settings/infrastructure/persistence/settings.typeorm.repository.ts:10-15 | the repository starts with the given table, one settings row per restaurant |
| SettingsEntity.SettingsTypeOrmRepository.FindByRestaurantId | src/modules/settings/infrastructure/persistence/settings.typeorm.repository.ts:17-20 | null exactly when the restaurant has no settings; otherwise a fresh entity with the stored fields |
| SettingsEntity.Returned | src/modules/settings/infrastructure/persistence/settings.typeorm.repository.ts:22-26 | the object `save` hands back has `updatedAt` now, has `createdAt` only after an insert, and otherwise equals the stored row |
| SettingsEntity.SettingsTypeOrmRepository.Save | src/modules/settings/infrastructure/persistence/settings.typeorm.repository.ts:22-26 | a second settings row for the same restaurant is a duplicate-key error with no change; otherwise the restaurant's row becomes the stamped entity, and the returned entity is the ORM's object, without `createdAt` after an update |
| Notifications.Notifier.constructor | src/modules/notifications/application/ports/email.service.port.ts:48-59 | the mailbox starts empty |
| Notifications.Notifier.Send | src/modules/notifications/application/ports/email.service.port.ts:48-59 | sending appends exactly one e-mail to the mailbox |
| ReservationRepository.ToEntity | src/modules/reservations/infrastructure/persistence/reservation.typeorm.repository.ts:96-117 | the row leaves the timestamps to the database, and a missing payment status becomes PENDING |
| ReservationRepository.ToDomainArgs | src/modules/reservations/infrastructure/persistence/reservation.typeorm.repository.ts:71-94 | the entity always has the row's payment status |
| ReservationRepository.EntityRoundTrip | src/modules/reservations/infrastructure/persistence/reservation.typeorm.repository.ts:71-117 | storing and reading back an entity gives it back, except for the timestamps and the PENDING default |
| ReservationRepository.RowRoundTrip | src/modules/reservations/infrastructure/persistence/reservation.typeorm.repository.ts:71-117 | reading and storing a row again gives back the row without its timestamps |
| ReservationRepository.AsDomain | src/modules/reservations/infrastructure/persistence/reservation.typeorm.repository.ts:58 | each row of a query result is mapped to its entity |
| ReservationRepository.BuildConditions | src/modules/reservations/infrastructure/persistence/reservation.typeorm.repository.ts:35-52 | the first condition is the restaurant; a row passes all the built conditions iff it matches the filters |
| ReservationRepository.Select | src/modules/reservations/infrastructure/persistence/reservation.typeorm.repository.ts:35-52 | a row is selected iff it is stored and matches the filters |
| ReservationRepository.SelectAppend | src/modules/reservations/infrastructure/persistence/reservation.typeorm.repository.ts:35-52 | selecting from a table with one more row adds that row at the end exactly when it matches |
| ReservationRepository.RowLeTotalPreorder | src/modules/reservations/infrastructure/persistence/reservation.typeorm.repository.ts:54-56 | date descending, then time ascending, is a total preorder |
| ReservationRepository.QueryResultMeaning | src/modules/reservations/infrastructure/persistence/reservation.typeorm.repository.ts:31-59 | the query returns exactly the matching rows, each as often as stored, sorted by date descending and then time ascending |
| ReservationRepository.NoFiltersSelectsRestaurant | src/modules/reservations/infrastructure/persistence/reservation.typeorm.repository.ts:35-37 | with no filters every row of the restaurant is returned |
| ReservationRepository.HalfRangeIgnored | src/modules/reservations/infrastructure/persistence/reservation.typeorm.repository.ts:47-52 | a start date without an end date does not filter |
| ReservationRepository.Upsert | src/modules/reservations/infrastructure/persistence/reservation.typeorm.repository.ts:61-65 | after a save the id is in the table |
| ReservationRepository.UpsertKeepsKeysUnique | src/modules/reservations/infrastructure/persistence/reservation.typeorm.repository.ts:61-65 | a save whose token no other row holds keeps ids and tokens unique |
| ReservationRepository.UpsertFrame | src/modules/reservations/infrastructure/persistence/reservation.typeorm.repository.ts:61-65 | a save leaves every other reservation in the table |
| ReservationRepository.ByToken | src/modules/reservations/infrastructure/persistence/reservation.typeorm.repository.ts:24-29 | null iff no row has the token; otherwise the entity carries the token and, with unique tokens, is the only row holding it |
| ReservationRepository.ReservationTypeOrmRepository.constructor | src/modules/reservations/infrastructure/persistence/reservation.typeorm.repository.ts:12-17 | the repository starts with the given table of unique keys |
| ReservationRepository.ReservationTypeOrmRepository.FindByToken | src/modules/reservations/infrastructure/persistence/reservation.typeorm.repository.ts:24-29 | returns a fresh entity of the row `ByToken` finds, or null when there is none |
| ReservationRepository.ReservationTypeOrmRepository.FindByRestaurantAndFilters | src/modules/reservations/infrastructure/persistence/reservation.typeorm.repository.ts:31-59 | returns fresh entities of exactly the ordered query result |
| ReservationRepository.RunQuery | src/modules/reservations/infrastructure/persistence/reservation.typeorm.repository.ts:35-52 | the query keeps exactly the rows of the restaurant that pass every filter given, in table order |
| ReservationRepository.MaterializeAll | src/modules/reservations/infrastructure/persistence/reservation.typeorm.repository.ts:58 | one fresh entity per row, in order, each carrying that row's mapped properties |
| ReservationRepository.Returned | src/modules/reservations/infrastructure/persistence/reservation.typeorm.repository.ts:61-65 | the object `save` hands back has `updatedAt` now, has `createdAt` only after an insert, and otherwise equals the stored row |
| ReservationRepository.ReservationTypeOrmRepository.Save | src/modules/reservations/infrastructure/persistence/reservation.typeorm.repository.ts:61-65 | a token held by another row is a duplicate-key error with no change; otherwise the row is upserted with database timestamps, and the returned entity is the ORM's object, without `createdAt` after an update |
| RestaurantRepository.ToEntity | src/modules/restaurants/infrastructure/persistence/restaurant.typeorm.repository.ts:74-88 | the row keeps slug and image URL in their own columns and leaves the timestamps to the database |
| RestaurantRepository.ToDomainArgsAsWritten | src/modules/restaurants/infrastructure/persistence/restaurant.typeorm.repository.ts:57-72 | the mapper as written puts the slug column into `imageUrl` and the image column into `slug` |
| RestaurantRepository.AsWrittenSwapsSlugAndImage | src/modules/restaurants/infrastructure/persistence/restaurant.typeorm.repository.ts:65-66 | storing and reading back with the mapper as written exchanges slug and image URL |
| RestaurantRepository.AsWrittenRoundTripIff | src/modules/restaurants/infrastructure/persistence/restaurant.typeorm.repository.ts:57-88 | the round trip as written gives the restaurant back iff its slug equals its image URL |
| RestaurantRepository.SlugImageSwapExample | src/modules/restaurants/infrastructure/persistence/restaurant.typeorm.repository.ts:65-66 | a saved "la-tasca" restaurant comes back with its image URL as slug and "la-tasca" as image URL |
| RestaurantRepository.ToDomainArgs | src/modules/restaurants/infrastructure/persistence/restaurant.typeorm.repository.ts:57-72 | the corrected mapper reads each column into its own field |
| RestaurantRepository.EntityRoundTrip | src/modules/restaurants/infrastructure/persistence/restaurant.typeorm.repository.ts:57-88 | storing and reading back an entity gives it back, except for the timestamps |
| RestaurantRepository.RowRoundTrip | src/modules/restaurants/infrastructure/persistence/restaurant.typeorm.repository.ts:57-88 | reading and storing a row again gives back the row without its timestamps |
| RestaurantRepository.NameLeTotalPreorder | src/modules/restaurants/infrastructure/persistence/restaurant.typeorm.repository.ts:39-41 | ordering by name is a total preorder |
| RestaurantRepository.OwnedBy | src/modules/restaurants/infrastructure/persistence/restaurant.typeorm.repository.ts:24-27 | a row is kept iff it is stored and belongs to the admin |
| RestaurantRepository.AllByNameMeaning | src/modules/restaurants/infrastructure/persistence/restaurant.typeorm.repository.ts:38-44 | `findAll` returns every stored row, each once per occurrence, sorted by name |
| RestaurantRepository.ByOwnerMeaning | src/modules/restaurants/infrastructure/persistence/restaurant.typeorm.repository.ts:23-30 | `findAllByOwnerId` returns exactly the admin's rows, newest first |
| RestaurantRepository.ById | src/modules/restaurants/infrastructure/persistence/restaurant.typeorm.repository.ts:17-21 | null iff no row has the id; otherwise the entity of a stored row with that id |
| RestaurantRepository.BySlug | src/modules/restaurants/infrastructure/persistence/restaurant.typeorm.repository.ts:32-36 | null iff no row has the slug; otherwise the entity of a stored row with that slug |
| RestaurantRepository.Upsert | src/modules/restaurants/infrastructure/persistence/restaurant.typeorm.repository.ts:46-51 | after a save the id is in the table |
| RestaurantRepository.UpsertKeepsKeysUnique | src/modules/restaurants/infrastructure/persistence/restaurant.typeorm.repository.ts:46-51 | a save that clashes with no other row keeps ids, slugs and e-mails unique |
| RestaurantRepository.RemoveKeepsKeysUnique | src/modules/restaurants/infrastructure/persistence/restaurant.typeorm.repository.ts:53-55 | deleting keeps ids, slugs and e-mails unique |
| RestaurantRepository.Materialize | src/modules/restaurants/infrastructure/persistence/restaurant.typeorm.repository.ts:43 | each row becomes a fresh entity of its fields, in order |
| RestaurantRepository.RestaurantTypeOrmRepository.constructor | src/modules/restaurants/infrastructure/persistence/restaurant.typeorm.repository.ts:10-15 | the repository starts with the given table of unique keys |
| RestaurantRepository.RestaurantTypeOrmRepository.FindById | src/modules/restaurants/infrastructure/persistence/restaurant.typeorm.repository.ts:17-21 | returns a fresh entity of the row `ById` finds, or null |
| RestaurantRepository.RestaurantTypeOrmRepository.FindBySlug | src/modules/restaurants/infrastructure/persistence/restaurant.typeorm.repository.ts:32-36 | returns a fresh entity of the row `BySlug` finds, or null |
| RestaurantRepository.RestaurantTypeOrmRepository.FindAll | src/modules/restaurants/infrastructure/persistence/restaurant.typeorm.repository.ts:38-44 | returns fresh entities of the rows ordered by name |
| RestaurantRepository.RestaurantTypeOrmRepository.FindAllByOwnerId | src/modules/restaurants/infrastructure/persistence/restaurant.typeorm.repository.ts:23-30 | returns fresh entities of the admin's rows, newest first |
| RestaurantRepository.Returned | src/modules/restaurants/infrastructure/persistence/restaurant.typeorm.repository.ts:46-51 | the object `save` hands back has `updatedAt` now, has `createdAt` only after an insert, and otherwise equals the stored row |
| RestaurantRepository.RestaurantTypeOrmRepository.Save | src/modules/restaurants/infrastructure/persistence/restaurant.typeorm.repository.ts:46-51 | a slug or e-mail held by another restaurant is a duplicate-key error with no change; otherwise the row is upserted with timestamps, and the returned entity is the ORM's object, without `createdAt` after an update |
| RestaurantRepository.RestaurantTypeOrmRepository.Delete | src/modules/restaurants/infrastructure/persistence/restaurant.typeorm.repository.ts:53-55 | the rows with the id are removed and the keys stay unique |
| UserRepository.Upsert | src/modules/users/infrastructure/persistence/user.typeorm.repository.ts:39-44 | after a save the id is in the table |
| UserRepository.UpsertKeepsKeysUnique | src/modules/users/infrastructure/persistence/user.typeorm.repository.ts:39-44 | a save whose e-mail no other user holds keeps ids and e-mails unique |
| UserRepository.DeleteUndoesInsert | src/modules/users/infrastructure/persistence/user.typeorm.repository.ts:56-58 | deleting a user that was just inserted restores the table exactly |
| UserRepository.RemoveKeepsKeysUnique | src/modules/users/infrastructure/persistence/user.typeorm.repository.ts:56-58 | deleting keeps ids and e-mails unique |
| UserRepository.UserTypeOrmRepository.constructor | src/modules/users/infrastructure/persistence/user.typeorm.repository.ts:11-16 | the repository starts with the given table of unique keys |
| UserRepository.UserTypeOrmRepository.FindByEmail | src/modules/users/infrastructure/persistence/user.typeorm.repository.ts:18-22 | null iff no user has the e-mail; otherwise a fresh entity of that user |
| UserRepository.Returned | src/modules/users/infrastructure/persistence/user.typeorm.repository.ts:39-44 | the object `save` hands back has `updatedAt` now, has `createdAt` only after an insert, and otherwise equals the stored row |
| UserRepository.UserTypeOrmRepository.Save | src/modules/users/infrastructure/persistence/user.typeorm.repository.ts:39-44 | an e-mail held by another user is a duplicate-key error with no change; otherwise the user is upserted with timestamps, and the returned entity is the ORM's object, without `createdAt` after an update |
| UserRepository.UserTypeOrmRepository.Delete | src/modules/users/infrastructure/persistence/user.typeorm.repository.ts:56-58 | the rows with the id are removed and the keys stay unique |
| ReservationValidator.TimeToMinutes | src/modules/reservations/application/services/reservation-validator.service.ts:112-115 | a well-formed time is a minute of the day, below 1440 |
| ReservationValidator.JsRem60 | src/modules/reservations/application/services/reservation-validator.service.ts:117-122 | JavaScript's `% 60`: the remainder takes the sign of the dividend and differs from it by a multiple of 60 |
| ReservationValidator.SubtractMinutes | src/modules/reservations/application/services/reservation-validator.service.ts:117-122 | when the result stays within the day, it is a well-formed time that many minutes earlier |
| ReservationValidator.NextSlot | src/modules/reservations/application/services/reservation-validator.service.ts:124-130 | the next slot is a multiple of the interval, at or after the time and less than one interval later |
| ReservationValidator.GetNextValidTime | src/modules/reservations/application/services/reservation-validator.service.ts:124-130 | when the next slot stays within the day, the suggestion is a well-formed time, aligned to the interval, at or after the time and less than one interval later |
| ReservationValidator.NextSlotIsLeast | src/modules/reservations/application/services/reservation-validator.service.ts:124-130 | no multiple of the interval at or after the time comes before the next slot |
| ReservationValidator.FormatClockWellFormed | src/modules/reservations/application/services/reservation-validator.service.ts:124-130 | formatting a minute of the day gives a well-formed time that reads back as that minute |
| ReservationValidator.DigitPairRoundTrip | src/modules/reservations/application/services/reservation-validator.service.ts:112-130 | two digits, read as a number and written back zero-padded, are the same two characters |
| ReservationValidator.HourFieldRoundTrip | src/modules/reservations/application/services/reservation-validator.service.ts:112-130 | the hour field of a well-formed time, read and written back padded, is unchanged |
| ReservationValidator.MinuteFieldRoundTrip | src/modules/reservations/application/services/reservation-validator.service.ts:112-130 | the minute field of a well-formed time, read and written back padded, is unchanged |
| ReservationValidator.ClockFieldsOfTime | src/modules/reservations/application/services/reservation-validator.service.ts:112-130 | the minutes of a well-formed time divide back into its hour and its minute |
| ReservationValidator.FormatClockOfTime | src/modules/reservations/application/services/reservation-validator.service.ts:112-130 | formatting the minutes of a well-formed time gives the time back |
| ReservationValidator.TimeToMinutesInjective | src/modules/reservations/application/services/reservation-validator.service.ts:112-115 | two well-formed times have the same minutes iff they are equal |
| ReservationValidator.TimeStringOrder | src/modules/reservations/application/services/reservation-validator.service.ts:50-52 | for well-formed times the string comparison the code uses agrees with the order of their minutes |
| ReservationValidator.TimeStringOrderEq | src/modules/reservations/application/services/reservation-validator.service.ts:90-98 | the same for less-or-equal |
| ReservationValidator.ValidateGroupSize | src/modules/reservations/application/services/reservation-validator.service.ts:13-21 | passes iff the group has at most 9 people; otherwise a bad request saying so |
| ReservationValidator.RequestedInstant | src/modules/reservations/application/services/reservation-validator.service.ts:108-110 | the requested date and time are an instant iff the date is a valid ISO date |
| ReservationValidator.ValidateMinimumAdvanceTime | src/modules/reservations/application/services/reservation-validator.service.ts:23-33 | fails iff the date parses and the booking is less than 30 minutes ahead; an unparsable date passes |
| ReservationValidator.AdvanceTimeBoundary | src/modules/reservations/application/services/reservation-validator.service.ts:23-33 | exactly 30 minutes ahead passes, and a booking in the past fails |
| ReservationValidator.AdvanceTimeMonotone | src/modules/reservations/application/services/reservation-validator.service.ts:23-33 | a booking that passes later also passes earlier |
| ReservationValidator.DayLabel | src/modules/reservations/application/services/reservation-validator.service.ts:40-42 | the label is "invalid date" exactly when the string is not a calendar date, and otherwise a weekday name |
| ReservationValidator.ScheduleFor | src/modules/reservations/application/services/reservation-validator.service.ts:44-46 | no shifts for an invalid date; otherwise the shifts stored under the weekday the label names, none when that weekday has no entry |
| ReservationValidator.FindShift | src/modules/reservations/application/services/reservation-validator.service.ts:50-52 | finds the first shift, from a given one on, that contains the time, or reports that none does |
| ReservationValidator.InvertedShiftIsEmpty | src/modules/reservations/application/services/reservation-validator.service.ts:50-52 | a shift that closes at or before it opens contains no well-formed time, so no booking can fall in it |
| ReservationValidator.ValidateOpeningHours | src/modules/reservations/application/services/reservation-validator.service.ts:35-71 | a closed day, a time outside every shift and a time less than an hour before closing fail with their messages; otherwise the first shift containing the time is returned |
| ReservationValidator.ScheduleWellFormed | src/modules/reservations/application/services/reservation-validator.service.ts:40-44 | every shift of the day's schedule is well formed |
| ReservationValidator.ValidateTimeSlotInterval | src/modules/reservations/application/services/reservation-validator.service.ts:73-83 | passes iff the interval is positive and divides the time's minutes; otherwise a bad request naming the interval |
| ReservationValidator.AlignedTimeIsItsOwnNextSlot | src/modules/reservations/application/services/reservation-validator.service.ts:124-130 | the suggested time for an aligned time is the time itself |
| ReservationValidator.SuggestedTimeIsAligned | src/modules/reservations/application/services/reservation-validator.service.ts:79-82 | when it stays within the day, the suggested time is well formed and passes the slot check |
| ReservationValidator.Occupancy | src/modules/reservations/application/services/reservation-validator.service.ts:90-98 | the reduce is 0 when no booking occupies the shift, and never negative for non-negative party sizes |
| ReservationValidator.ValidateCapacity | src/modules/reservations/application/services/reservation-validator.service.ts:85-106 | passes iff the shift's active bookings plus the group fit the capacity; otherwise a bad request naming the seats left |
| ReservationValidator.OccupancyAppend | src/modules/reservations/application/services/reservation-validator.service.ts:90-98 | occupancy adds up over concatenated booking lists |
| ReservationValidator.OccupancyPermutation | src/modules/reservations/application/services/reservation-validator.service.ts:90-98 | occupancy does not depend on the order of the bookings |
| ReservationValidator.AdmissionKeepsCapacity | src/modules/reservations/application/services/reservation-validator.service.ts:85-106 | once a booking passes, the shift with that booking added is still within capacity |
| ReservationValidator.OccupiesByMinutes | src/modules/reservations/application/services/reservation-validator.service.ts:90-98 | a booking occupies a shift iff its minute is in [open, close) and it is PENDING or CONFIRMED |
| ReservationValidator.MondayLunchExample | src/modules/reservations/application/services/reservation-validator.service.ts:35-71 | 13:00 on a Monday with a 13:00-16:00 shift is accepted into that shift |
| ReservationValidator.SundayClosedExample | src/modules/reservations/application/services/reservation-validator.service.ts:46-48 | a Sunday with no shifts gives "Restaurant is closed on sundays" |
| ReservationValidator.BetweenShiftsExample | src/modules/reservations/application/services/reservation-validator.service.ts:54-58 | 18:00 on Monday gives "Restaurant is not open at 18:00 on mondays" |
| ReservationValidator.LastReservationExample | src/modules/reservations/application/services/reservation-validator.service.ts:60-68 | 22:30 in a shift closing at 23:00 gives "Last reservation is at 22:00" |
| ReservationValidator.SecondShiftExample | src/modules/reservations/application/services/reservation-validator.service.ts:50-52 | 20:00 on a two-shift Friday falls in the evening shift |
| ReservationValidator.NextValidTimeExample | src/modules/reservations/application/services/reservation-validator.service.ts:124-130 | with 30-minute slots the time after 13:15 is 13:30 |
| ReservationValidator.NextValidTimePastMidnightExample | src/modules/reservations/application/services/reservation-validator.service.ts:124-130 | with 30-minute slots the time after 23:50 is "24:00" |
| ReservationValidator.NegativeLastReservationExample | src/modules/reservations/application/services/reservation-validator.service.ts:117-122 | an hour before 00:30 is written "-1:-30" |
| ReservationValidator.CapacityExamples | src/modules/reservations/application/services/reservation-validator.service.ts:85-106 | capacity counts only active bookings inside the shift |
| ReservationValidator.GroupSizeExamples | src/modules/reservations/application/services/reservation-validator.service.ts:15-21 | groups of 1 and 9 pass; groups of 10 and 20 fail |
| ReservationValidator.TimeSlotExamples | src/modules/reservations/application/services/reservation-validator.service.ts:73-83 | slot alignment examples for 15-, 30- and 60-minute intervals |
| CreateReservation.Admit | src/modules/reservations/application/use-cases/create-reservation.use-case.ts:32-74 | an admitted booking has an active restaurant with settings, a group of at most 9, a shift containing the time whose capacity still holds with the group, and a CONFIRMED (iff the mode is automatic) or PENDING status |
| CreateReservation.InitialStatus | src/modules/reservations/application/use-cases/create-reservation.use-case.ts:71-74 | a new booking is CONFIRMED iff the restaurant accepts automatically, and PENDING otherwise |
| CreateReservation.DayReservationsMeaning | src/modules/reservations/application/use-cases/create-reservation.use-case.ts:48-52 | the day's bookings are exactly the restaurant's stored bookings on that date |
| CreateReservation.AdmitIffAllChecksPass | src/modules/reservations/application/use-cases/create-reservation.use-case.ts:32-74 | a booking is admitted iff the restaurant exists and is active, it has settings, and all five validator checks pass; it is admitted into the shift found, with the initial status of the acceptance mode |
| CreateReservation.AdmitCheckOrder | src/modules/reservations/application/use-cases/create-reservation.use-case.ts:54-69 | the first failing check decides the error: group size, then advance time, opening hours, slot interval |
| CreateReservation.AdmitGuards | src/modules/reservations/application/use-cases/create-reservation.use-case.ts:32-46 | a missing restaurant, an inactive restaurant and missing settings each give their own error |
| CreateReservation.AdmittedBookingFits | src/modules/reservations/application/use-cases/create-reservation.use-case.ts:54-91 | after an admitted booking is added the shift is still within capacity |
| CreateReservation.AdmissionNotices | src/modules/reservations/application/use-cases/create-reservation.use-case.ts:93-129 | two e-mails: the admin notice (auto-confirmed iff CONFIRMED) and the customer's accepted or pending e-mail |
| CreateReservation.ResultFor | src/modules/reservations/application/use-cases/create-reservation.use-case.ts:131-145 | the result describes the saved booking, with the confirmed message iff it is CONFIRMED |
| CreateReservation.RunChecks | src/modules/reservations/application/use-cases/create-reservation.use-case.ts:54-74 | the five validator calls run in order; the first failure is the error, otherwise the booking is admitted into the shift found with the mode's initial status |
| CreateReservation.SaveNew | src/modules/reservations/application/use-cases/create-reservation.use-case.ts:76-91 | the new booking is appended once, with timestamps, and the saved entity carries exactly its properties |
| CreateReservation.Notify | src/modules/reservations/application/use-cases/create-reservation.use-case.ts:93-129 | the admin notice is sent, then the customer's accepted e-mail if CONFIRMED and the pending one otherwise |
| CreateReservation.SaveAndNotify | src/modules/reservations/application/use-cases/create-reservation.use-case.ts:76-129 | the booking is appended with timestamps and exactly the two notices are sent |
| CreateReservation.Execute | src/modules/reservations/application/use-cases/create-reservation.use-case.ts:29-146 | a rejected plan returns its error and changes nothing; an admitted one appends the new booking, sends the two e-mails and returns the result |
| CancelByToken.TokenNotFoundAsWrittenRepeats | src/modules/reservations/application/use-cases/cancel-by-token.use-case.ts:25 | the error as written reads "Reservation not found or token is invalid not found" |
| CancelByToken.TokenNotFound | src/modules/reservations/application/use-cases/cancel-by-token.use-case.ts:24-26 | the corrected error is a not-found error whose message is the sentence alone |
| CancelByToken.CancelPlan | src/modules/reservations/application/use-cases/cancel-by-token.use-case.ts:22-38 | an unknown token is not found; a cancellation is the token's active booking with status CANCELLED, paired with its own restaurant |
| CancelByToken.CancelPlanErrors | src/modules/reservations/application/use-cases/cancel-by-token.use-case.ts:29-37 | a missing restaurant is not found; otherwise the plan fails iff the booking is already terminal, with the cancel error |
| CancelByToken.CancelNotice | src/modules/reservations/application/use-cases/cancel-by-token.use-case.ts:41-49 | the cancellation e-mail goes to the customer and names the restaurant |
| CancelByToken.CancelledRowFits | src/modules/reservations/application/use-cases/cancel-by-token.use-case.ts:37-38 | saving the cancelled booking cannot clash: it keeps its id and token |
| CancelByToken.CancelTwiceFails | src/modules/reservations/application/use-cases/cancel-by-token.use-case.ts:37-38 | after a cancellation the table keeps unique keys and a second cancel with the same token fails |
| CancelByToken.Execute | src/modules/reservations/application/use-cases/cancel-by-token.use-case.ts:19-55 | a failing plan returns its error and changes nothing; otherwise the booking is stored cancelled, one e-mail is sent and success is returned |
| SettingsUseCases.GetSettings | src/modules/settings/application/use-cases/get-settings.use-case.ts:18-53 | unknown restaurant, another admin's restaurant and missing settings each fail; otherwise the stored settings are returned |
| SettingsUseCases.GetSettingsErrors | src/modules/settings/application/use-cases/get-settings.use-case.ts:26-39 | missing settings give "Settings for restaurant" not found; a superadmin is never forbidden |
| SettingsUseCases.Merge | src/modules/settings/application/use-cases/update-settings.use-case.ts:42-56 | each field given in the patch replaces the stored one; the others, the ids and the timestamps stay |
| SettingsUseCases.MergeEmptyPatch | src/modules/settings/application/use-cases/update-settings.use-case.ts:43-54 | an empty patch changes nothing |
| SettingsUseCases.MergeIdempotent | src/modules/settings/application/use-cases/update-settings.use-case.ts:43-54 | applying the same patch twice is applying it once |
| SettingsUseCases.Created | src/modules/settings/application/use-cases/update-settings.use-case.ts:69-76 | settings created from a complete patch already agree with that patch |
| SettingsUseCases.UpdatePlan | src/modules/settings/application/use-cases/update-settings.use-case.ts:20-77 | the planned settings keep the stored id and restaurant, or take the fresh id and the requested restaurant when none are stored |
| SettingsUseCases.UpdateOwnership | src/modules/settings/application/use-cases/update-settings.use-case.ts:21-34 | the update is forbidden iff the restaurant exists and belongs to another restaurant admin; an unknown restaurant is not found |
| SettingsUseCases.CreateOnlyIfComplete | src/modules/settings/application/use-cases/update-settings.use-case.ts:57-77 | first-time settings are created iff every field is given, and otherwise fail with "All fields are required" |
| SettingsUseCases.EmptyPatchSavesUnchanged | src/modules/settings/application/use-cases/update-settings.use-case.ts:42-56 | an empty update saves the stored settings unchanged |
| SettingsUseCases.UpdateIdempotent | src/modules/settings/application/use-cases/update-settings.use-case.ts:42-79 | repeating an update plans the same settings again, up to the timestamps |
| SettingsUseCases.GetAfterUpdate | src/modules/settings/application/use-cases/update-settings.use-case.ts:79-92 | after a successful update, reading the settings as the same user returns the stored row, which is the update's answer with the stored `createdAt` filled in |
| SettingsUseCases.UpdateSettings | src/modules/settings/application/use-cases/update-settings.use-case.ts:20-93 | a failing plan returns its error and changes nothing; otherwise the restaurant's settings become the stamped plan, and the answer is the ORM's returned object: `updatedAt` is now, and `createdAt` is missing exactly when settings already existed |
| GetPublicRestaurant.UnavailableAsWrittenRepeats | src/modules/restaurants/application/use-cases/get-public-restaurant.use-case.ts:22 | the error as written reads "Restaurant is not available not found" |
| GetPublicRestaurant.Unavailable | src/modules/restaurants/application/use-cases/get-public-restaurant.use-case.ts:21-23 | the corrected error is a not-found error whose message is the sentence alone |
| GetPublicRestaurant.PublicSettingsOf | src/modules/restaurants/application/use-cases/get-public-restaurant.use-case.ts:38-45 | the public settings are the four public fields of the stored settings |
| GetPublicRestaurant.GetPublicRestaurant | src/modules/restaurants/application/use-cases/get-public-restaurant.use-case.ts:14-47 | an unknown slug and an inactive restaurant are not found; the page opens iff the slug's restaurant is active, showing its fields and its public settings, or null when it has none |
| GetPublicRestaurant.HiddenRestaurantsLookAlike | src/modules/restaurants/application/use-cases/get-public-restaurant.use-case.ts:17-23 | an inactive restaurant's slug fails as not found, with the message of its own error rather than the unknown-slug one |
| ListPublicRestaurants.ItemOf | src/modules/restaurants/applications/use-cases/list-public-restaurants.use-case.ts:21-30 | a card copies the six public fields |
| ListPublicRestaurants.Active | src/modules/restaurants/applications/use-cases/list-public-restaurants.use-case.ts:17-19 | the filter never lengthens the list; every kept restaurant is active and stored, and every active stored restaurant is kept |
| ListPublicRestaurants.ActiveCounts | src/modules/restaurants/applications/use-cases/list-public-restaurants.use-case.ts:17-19 | the filter keeps each active restaurant as often as it occurs and drops every inactive one |
| ListPublicRestaurants.ActivePositions | src/modules/restaurants/applications/use-cases/list-public-restaurants.use-case.ts:17-19 | the filter keeps the relative order of what it keeps |
| ListPublicRestaurants.FindAllProps | src/modules/restaurants/applications/use-cases/list-public-restaurants.use-case.ts:15 | `findAll` yields one entity per stored row, in name order |
| ListPublicRestaurants.ListPublicRestaurants | src/modules/restaurants/applications/use-cases/list-public-restaurants.use-case.ts:14-36 | the result has one card per active restaurant, in order, and `total` is their number |
| ListPublicRestaurants.CardSource | src/modules/restaurants/applications/use-cases/list-public-restaurants.use-case.ts:15-30 | every card comes from an active stored restaurant |
| ListPublicRestaurants.CardOf | src/modules/restaurants/applications/use-cases/list-public-restaurants.use-case.ts:15-30 | every active stored restaurant has a card |
| ListPublicRestaurants.ListedIffActive | src/modules/restaurants/applications/use-cases/list-public-restaurants.use-case.ts:14-36 | the listing shows the active stored restaurants and nothing else |
| ListPublicRestaurants.ListedOnce | src/modules/restaurants/applications/use-cases/list-public-restaurants.use-case.ts:15-30 | with unique ids no restaurant is listed twice |
| ListPublicRestaurants.ListedByName | src/modules/restaurants/applications/use-cases/list-public-restaurants.use-case.ts:15-19 | the cards are in name order |
| ListPublicRestaurants.ListedIffPublicPage | src/modules/restaurants/applications/use-cases/list-public-restaurants.use-case.ts:14-36 | with unique slugs a slug opens a public page iff a listed card carries it |
| GenerateSlug.Lower | src/shared/domain/utils/generate-slug.utils.ts:3 | lower-casing maps each character on its own and keeps the length |
| GenerateSlug.Slug | src/shared/domain/utils/generate-slug.utils.ts:1-10 | every character of a slug is a lower-case letter, a digit or `-` |
| GenerateSlug.SlugExampleNoBreakSpace | src/shared/domain/utils/generate-slug.utils.ts:7-9 | a no-break space counts as white space, so "La\u00A0Tasca" gives "la-tasca" |
| GenerateSlug.KeepChars | src/shared/domain/utils/generate-slug.utils.ts:7 | the character filter leaves only allowed characters |
| GenerateSlug.TrimShape | src/shared/domain/utils/generate-slug.utils.ts:8 | trimming cuts a stretch of white space from each end and leaves no white space at either end |
| GenerateSlug.HyphenateChars | src/shared/domain/utils/generate-slug.utils.ts:9 | replacing white-space runs leaves no white space |
| GenerateSlug.HyphenateRun | src/shared/domain/utils/generate-slug.utils.ts:9 | a run of white space between two words becomes a single `-` |
| GenerateSlug.SlugEnds | src/shared/domain/utils/generate-slug.utils.ts:1-10 | a slug has no white space, is empty iff the filtered text is blank, and starts and ends as the trimmed text does |
| GenerateSlug.SlugIdempotent | src/shared/domain/utils/generate-slug.utils.ts:1-10 | the slug of a slug is the slug itself |
| GenerateSlug.SlugKeepsLettersAndDigits | src/shared/domain/utils/generate-slug.utils.ts:1-10 | the slug keeps every letter and digit of the lower-cased text, in order, and adds none |
| GenerateSlug.SlugExampleTwoWords | src/shared/domain/utils/generate-slug.utils.ts:1-10 | "La Tasca" becomes "la-tasca" |
| PasswordGenerator.NoLookAlikes | src/shared/domain/utils/password-generator.utils.ts:2-6 | the alphabet has no `I`, `O`, `l`, `0` or `1` |
| PasswordGenerator.PasswordLength | src/shared/domain/utils/password-generator.utils.ts:9-16 | the result has the requested length, but never fewer than four characters |
| PasswordGenerator.Compose | src/shared/domain/utils/password-generator.utils.ts:8-16 | one upper-case letter, one lower-case letter, one digit and one symbol come first, then alphabet characters up to the length |
| PasswordGenerator.PermutationKeepsComposition | src/shared/domain/utils/password-generator.utils.ts:18-21 | rearranging a password keeps its length, its four character classes and its alphabet |
| PasswordGenerator.Shuffle | src/shared/domain/utils/password-generator.utils.ts:18-21 | the shuffle only rearranges the characters, whatever the random draws |
| PasswordGenerator.GenerateTemporaryPassword | src/shared/domain/utils/password-generator.utils.ts:1-22 | every result has the right length, a character of each class and only alphabet characters |
| CreateRestaurantAdmin.EmailInUse | src/modules/users/application/use-cases/create-restaurant-admin.use-case.ts:30-33 | a conflict whose message names the e-mail already in use |
| CreateRestaurantAdmin.NewAdmin | src/modules/users/application/use-cases/create-restaurant-admin.use-case.ts:44-54 | the new user is an active restaurant admin who must change the password, with the input's identity and the given hash |
| CreateRestaurantAdmin.Welcome | src/modules/users/application/use-cases/create-restaurant-admin.use-case.ts:79-89 | the welcome e-mail goes to the saved admin and carries the temporary password and the restaurant's name and e-mail |
| CreateRestaurantAdmin.Summary | src/modules/users/application/use-cases/create-restaurant-admin.use-case.ts:91-113 | the result carries the temporary password and the saved user's and restaurant's identifying fields |
| CreateRestaurantAdmin.SlugFor | src/modules/users/application/use-cases/create-restaurant-admin.use-case.ts:38-42 | a free slug is used as is; a taken one gets `-` and the timestamp appended, so it differs from the taken one and starts with it |
| CreateRestaurantAdmin.SummaryIgnoresTimestamps | src/modules/users/application/use-cases/create-restaurant-admin.use-case.ts:91-113 | the returned summary does not depend on the database timestamps |
| CreateRestaurantAdmin.SavedAdmin | src/modules/users/application/use-cases/create-restaurant-admin.use-case.ts:69 | a new admin is stored at the end of the users table, stamped |
| CreateRestaurantAdmin.SavedRestaurant | src/modules/users/application/use-cases/create-restaurant-admin.use-case.ts:71-77 | a new restaurant is stored at the end of the restaurants table, stamped |
| CreateRestaurantAdmin.ProvisionedAndLinked | src/modules/users/application/use-cases/create-restaurant-admin.use-case.ts:44-77 | after both saves the e-mail finds an active restaurant admin who must change the password, and the slug finds the new active restaurant owned by that admin |
| CreateRestaurantAdmin.SaveOrRollback | src/modules/users/application/use-cases/create-restaurant-admin.use-case.ts:71-77 | a failing restaurant save deletes the admin just saved and returns the error; otherwise the restaurant is stored |
| CreateRestaurantAdmin.Provision | src/modules/users/application/use-cases/create-restaurant-admin.use-case.ts:44-113 | on a clash nothing changes and nothing is sent; otherwise both rows are saved, one welcome e-mail is sent and the summary is returned |
| CreateRestaurantAdmin.Execute | src/modules/users/application/use-cases/create-restaurant-admin.use-case.ts:27-114 | a known e-mail is a conflict with no change; a slug or e-mail clash rolls back; the call succeeds iff neither happens, and then the password is a valid temporary password, its hash is stored, and the admin, restaurant, e-mail and summary are as planned |
| Calendar.WeekdayNext | src/modules/reservations/application/services/reservation-validator.service.ts:40-42 | the computed weekday advances by one each calendar day, across month and year ends |
| Calendar.ParseIsoDate | src/modules/reservations/application/services/reservation-validator.service.ts:108-110 | a parsed date is a real calendar day |
| Sorting.InsertionSortSorted | src/modules/restaurants/infrastructure/persistence/restaurant.typeorm.repository.ts:39-41 | an `ORDER BY` result is sorted and holds the same rows |

## Left out

- Lower (GenerateSlug.Lower) and Slug (GenerateSlug.Slug): `toLowerCase`, `normalize('NFD')`, the accent stripping and `ñ` → `n` work on characters outside ASCII. The model lower-cases only `A-Z` and treats text as already free of combining marks, so a letter outside `a-z` is dropped by the character filter. In JavaScript `"É"` becomes `"e"`, `"İ"` lower-cases to two characters and becomes `"i"`, and the Kelvin sign becomes `"k"`. White space is the full `\s` class of JavaScript, so no-break and other Unicode spaces become `-` as in the source.
- Host time zone: the weekday comes from `new Date(date).toLocaleDateString('en-US', { weekday: 'long' })`, and the requested instant from the local-time parse of `${date}T${time}:00`. Both depend on the server's zone. The model reads the date with no zone offset and computes the weekday and the instant arithmetically.
- The `HttpException` branch of the exception filter, and the writing of the response and the log line, are framework I/O. The filter is modelled as the choice of status, error and message, plus whether it logs.
- E-mail templates and delivery (Resend) are not part of this model. A sent e-mail is the record of its parameters.
- Authentication, JWT guards, controllers and DTO validation are outside the core. The validator's `HH:mm` requirement and the `HH:mm` shape of every shift's `open` and `close` are preconditions, because the DTOs guarantee them. The settings form does not compare `open` with `close`; a shift that closes at or before it opens is accepted and contains no time, in the source as in the model (ReservationValidator.InvertedShiftIsEmpty). The DTOs do not make a capacity whole; see the next line.
- ValidateCapacity (ReservationValidator.ValidateCapacity) and SettingsEntity.TimeRange: a shift's capacity is a whole number in the model, while `@IsNumber() @IsPositive() @Min(1)` also admits a fraction such as 2.5. With such a capacity the source admits exactly the bookings that fit the whole part, as the model does, but its message names a fractional number of free seats ("Available: 0.5 people"), which the model cannot produce.
- Concurrency: each use case runs alone. Two requests that interleave between the capacity check and the save are not modelled.
- Payments and deposits: `depositAmount` is a `real`, with no decimal rounding and no `Number()` conversion from the column.
- Database collation: `ORDER BY name` is modelled as code-point order on strings (`StrLess`), and rows that tie keep no particular order.
- The user and settings ORM mappers are field-for-field copies, so the repositories store entity fields directly.
- A slot interval of 0 is never valid in the model. In the source `x % 0` is `NaN`, which also fails the check.
- PasswordGenerator.Shuffle: `sort(() => Math.random() - 0.5)` is engine-defined. It is modelled as a Fisher-Yates pass driven by the same random oracle, and only its permutation property is claimed.
- `Math.random()`, `Date.now()`, `crypto.randomUUID()` and the password hasher are parameters. The fresh ids are required not to be in the tables already.
- CreateRestaurantAdmin.SlugFor: a slug with a timestamp suffix can still clash with a stored one. The model keeps that and lets the save fail with the duplicate-key error, as the code would.
- The duplicate error hierarchy in `src/shared/domain/errors/domain.error.ts` is not used by the core and is not part of this model.
- `findById`, `findAllRestaurantAdmins` and `findByEmailWithPassword` of the user repository, and `findById` and `delete` of the reservation repository, are not called by the modelled use cases and are not part of this model.
- RestaurantRepository.ById, RestaurantRepository.BySlug, RestaurantRepository.Materialize and the `RestaurantTypeOrmRepository` reads (`FindById`, `FindBySlug`, `FindAll`, `FindAllByOwnerId`, and the entity `Save` returns) build entities with the corrected `ToDomainArgs`, not `ToDomainArgsAsWritten` (first "Findings" row). As written, every restaurant read back from the database has `slug` and `imageUrl` exchanged.
- GetPublicRestaurant.GetPublicRestaurant, ListPublicRestaurants.ItemOf, ListPublicRestaurants.ListedIffActive, ListPublicRestaurants.ListedIffPublicPage, CreateRestaurantAdmin.Provision and CreateRestaurantAdmin.Execute inherit that corrected mapper. As written, the public page and the public cards show the image URL as the slug, a card's slug does not open its page, and the provisioning result returns the two fields exchanged.
- CancelByToken.CancelPlan and CancelByToken.Execute answer an unknown token with the corrected `TokenNotFound` message, and GetPublicRestaurant.GetPublicRestaurant answers an inactive restaurant with the corrected `Unavailable` message (second and third "Findings" rows). As written, both messages end in a doubled " not found".
- Calendar.ParseIsoDate, ReservationValidator.DayLabel and ReservationValidator.ScheduleFor: the model accepts only `YYYY-MM-DD` with a day the month has. The request DTO's `@IsDateString()` also lets through other ISO 8601 forms ("2026-03", date-times, week dates), and the JavaScript engine rolls a day past the month's end over ("2026-02-30" is 2 March). The model reads all of these as the invalid date, so `DayLabel` is "invalid date" and `ScheduleFor` has no shifts for them.
- ReservationValidator.RequestedInstant and ReservationValidator.ValidateMinimumAdvanceTime: for such a string the model has no instant and the check passes. The engine may read a real instant from it and fail the check.
- ValidateOpeningHours (ReservationValidator.ValidateOpeningHours): for such a string the model reports "Restaurant is closed on invalid dates". The engine may instead check the weekday of the date it read (for "2026-02-30", a Monday). The contract is weaker than the source on these strings.
- CreateReservation.Execute and CreateReservation.Admit: for a date string that is not a calendar day, the source first sends it to PostgreSQL in the day query (`findByRestaurantAndFilters`). The database rejects the literal, and the exception filter answers 500. The model's query cannot fail, so the booking goes on to the checks and ends in the 400 of the opening-hours check.
- SettingsEntity.Stamped, SettingsEntity.Returned, SettingsEntity.SettingsTypeOrmRepository.Save, ReservationRepository.Upsert, ReservationRepository.Returned, ReservationRepository.ReservationTypeOrmRepository.Save, RestaurantRepository.Upsert, RestaurantRepository.Returned, RestaurantRepository.RestaurantTypeOrmRepository.Save, UserRepository.Upsert, UserRepository.Returned and UserRepository.UserTypeOrmRepository.Save always write the row and stamp `updatedAt`, in the stored row and in the returned object. TypeORM compares the entity with the row it loads first and sends no `UPDATE` when no column differs; then the stored `updatedAt` stays as it was and the returned object carries neither timestamp. SettingsUseCases.UpdateSettings and SettingsUseCases.GetAfterUpdate inherit this: for a patch that changes nothing, the source answers with no `updatedAt` and leaves the stored one, while the model answers and stores `updatedAt` = now. The modelled use cases make no such save through the other three repositories: they insert, or cancel, which always changes the status. How TypeORM compares the `decimal` deposit column with the number the mapper passes is not part of this model.
- SettingsEntity.SettingsTypeOrmRepository.Save keys the table by restaurant and keeps settings ids unique only through the use cases, which save either settings read for the same restaurant or new ones with a fresh id. A save whose id belongs to another restaurant's settings would, in TypeORM, update that row and move it to the new restaurant. The model would add a second row with that id instead, and its invariant does not state that ids are unique.

## Findings

| source | as written | input that shows it | evidently intended | confidence | as-written member | corrected member |
|---|---|---|---|---|---|---|
| src/modules/restaurants/infrastructure/persistence/restaurant.typeorm.repository.ts:65-66 | `toDomain` passes `entity.slug` where the constructor expects `imageUrl`, and `entity.imageUrl` where it expects `slug` | a restaurant with slug "la-tasca" and image "https://img.example/la-tasca.png" comes back from `save` or `findBySlug` with the two exchanged | each column maps to its own field, so storing and reading back gives the restaurant back | high (not executed) | RestaurantRepository.ToDomainArgsAsWritten | RestaurantRepository.ToDomainArgs |
| src/modules/reservations/application/use-cases/cancel-by-token.use-case.ts:25 | `new NotFoundError('Reservation not found or token is invalid')` with no id appends " not found" to a full sentence | any unknown token gives "Reservation not found or token is invalid not found" | the message "Reservation not found or token is invalid" | high (not executed) | CancelByToken.TokenNotFoundAsWrittenRepeats | CancelByToken.TokenNotFound |
| src/modules/restaurants/application/use-cases/get-public-restaurant.use-case.ts:22 | `new NotFoundError('Restaurant is not available')` appends " not found" | an inactive restaurant's slug gives "Restaurant is not available not found" | the message "Restaurant is not available" | high (not executed) | GetPublicRestaurant.UnavailableAsWrittenRepeats | GetPublicRestaurant.Unavailable |
