/**
 * The user repository port as the provisioning use case uses it: `findByEmail`, `save`
 * and `delete` over a table with a unique e-mail column. Rows are the entity's fields;
 * the database stamps `createdAt` on insert and `updatedAt` on every write.
 */
module UserRepository {
  import opened Wrappers
  import opened DomainErrors
  import opened Tables
  import opened UserEntity

  function RowId(row: UserProps): string { row.id }
  function RowEmail(row: UserProps): string { row.email }

  predicate UniqueKeys(rows: seq<UserProps>) {
    UniqueBy(rows, RowId) && UniqueBy(rows, RowEmail)
  }

  const DUPLICATE_KEY := "duplicate key value violates unique constraint"

  /** The table after `save`: update by id keeping the creation time, or append. */
  function Upsert(rows: seq<UserProps>, row: UserProps, now: int): (out: seq<UserProps>)
    ensures IndexOf(out, RowId, row.id).Some?
  {
    match IndexOf(rows, RowId, row.id)
    case Some(i) =>
      var out := rows[i := row.(createdAt := rows[i].createdAt, updatedAt := Some(now))];
      assert out[i].id == row.id;
      out
    case None =>
      var out := rows + [row.(createdAt := Some(now), updatedAt := Some(now))];
      assert out[|rows|].id == row.id;
      out
  }

  /**
   * The row `save` hands back: the entity as the mapper built it, which carries no
   * timestamps, with the columns the database generated merged in. An insert returns
   * both timestamps; an update returns only the new update time, so `createdAt` stays
   * unset, and otherwise the object agrees with the stored row.
   */
  function Returned(rows: seq<UserProps>, row: UserProps, now: int): (q: UserProps)
    ensures q.(createdAt := row.createdAt, updatedAt := row.updatedAt) == row
    ensures q.updatedAt == Some(now)
    ensures q.createdAt.Some? <==> IndexOf(rows, RowId, row.id).None?
    ensures match IndexOf(rows, RowId, row.id)
      case None => q == Upsert(rows, row, now)[|rows|]
      case Some(i) => q.(createdAt := rows[i].createdAt) == Upsert(rows, row, now)[i]
  {
    if IndexOf(rows, RowId, row.id).None? then row.(createdAt := Some(now), updatedAt := Some(now))
    else row.(createdAt := None, updatedAt := Some(now))
  }

  lemma UpsertKeepsKeysUnique(rows: seq<UserProps>, row: UserProps, now: int)
    requires UniqueKeys(rows) && !TakenByOther(rows, row, RowEmail, RowId)
    ensures UniqueKeys(Upsert(rows, row, now))
  {
    match IndexOf(rows, RowId, row.id)
    case Some(k) =>
      var stored := row.(createdAt := rows[k].createdAt, updatedAt := Some(now));
      UpdateKeepsUnique(rows, k, stored, RowId, RowId);
      UpdateKeepsUnique(rows, k, stored, RowEmail, RowId);
    case None =>
      var stored := row.(createdAt := Some(now), updatedAt := Some(now));
      AppendKeepsUnique(rows, stored, RowId, RowId);
      AppendKeepsUnique(rows, stored, RowEmail, RowId);
  }

  /**
   * Inserting a user under a new id and deleting it again gives the table back: the
   * compensating delete of the provisioning use case undoes its insert.
   */
  lemma DeleteUndoesInsert(rows: seq<UserProps>, row: UserProps, now: int)
    requires IndexOf(rows, RowId, row.id).None?
    ensures RemoveKey(Upsert(rows, row, now), RowId, row.id) == rows
  {
    var stored := row.(createdAt := Some(now), updatedAt := Some(now));
    RemoveAppended(rows, stored, RowId);
  }

  /** Deleting a row keeps the remaining keys unique. */
  lemma RemoveKeepsKeysUnique(rows: seq<UserProps>, id: string)
    requires UniqueKeys(rows)
    ensures UniqueKeys(RemoveKey(rows, RowId, id))
  {
    RemoveKeepsUnique(rows, RowId, id, RowId);
    RemoveKeepsUnique(rows, RowId, id, RowEmail);
  }

  class UserTypeOrmRepository {
    var rows: seq<UserProps>

    ghost predicate Valid()
      reads this
    {
      UniqueKeys(rows)
    }

    constructor (initial: seq<UserProps>)
      requires UniqueKeys(initial)
      ensures rows == initial && Valid()
    {
      rows := initial;
    }

    /** `findByEmail`: a fresh entity for the row with that e-mail, or none. */
    method FindByEmail(email: string) returns (r: Option<User>)
      ensures r.None? <==> IndexOf(rows, RowEmail, email).None?
      ensures r.Some? ==> fresh(r.value) && r.value.Props() == rows[IndexOf(rows, RowEmail, email).value]
      ensures r.Some? ==> r.value.email == email
    {
      match IndexOf(rows, RowEmail, email)
      case None => r := None;
      case Some(i) =>
        var u := new User(rows[i]);
        r := Some(u);
    }

    /**
     * `save`: writes the user's row and returns a fresh entity of the object the ORM
     * hands back; an e-mail already held by another user is rejected and changes nothing.
     */
    method Save(user: User, now: int) returns (r: Result<User>)
      requires Valid()
      modifies this
      ensures Valid()
      ensures TakenByOther(old(rows), user.Props(), RowEmail, RowId) ==>
        r == Err(UnexpectedError(DUPLICATE_KEY)) && rows == old(rows)
      ensures !TakenByOther(old(rows), user.Props(), RowEmail, RowId) ==>
        && rows == Upsert(old(rows), user.Props(), now)
        && r.Ok? && fresh(r.value)
        && r.value.Props() == Returned(old(rows), user.Props(), now)
    {
      var row := user.Props();
      if TakenByOther(rows, row, RowEmail, RowId) {
        return Err(UnexpectedError(DUPLICATE_KEY));
      }
      var saved := new User(Returned(rows, row, now));
      UpsertKeepsKeysUnique(rows, row, now);
      rows := Upsert(rows, row, now);
      r := Ok(saved);
    }

    /** `delete(id)`: removes the row with that id, if any. */
    method Delete(id: string)
      requires Valid()
      modifies this
      ensures Valid()
      ensures rows == RemoveKey(old(rows), RowId, id)
    {
      RemoveKeepsKeysUnique(rows, id);
      rows := RemoveKey(rows, RowId, id);
    }
  }
}
