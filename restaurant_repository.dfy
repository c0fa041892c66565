/**
 * The TypeORM restaurant repository: the row/entity mappers, the lookups and orderings
 * of `findById`, `findBySlug`, `findAll` and `findAllByOwnerId`, and `save`/`delete`,
 * over a table held as a sequence of rows with unique ids, e-mails and slugs.
 *
 * `toDomain` as written passes the `slug` column where the constructor expects
 * `imageUrl` and the `imageUrl` column where it expects `slug`. `ToDomainArgsAsWritten`
 * models that mapping and `AsWrittenSwapsSlugAndImage` shows its effect; the repository
 * reads rows with the corrected `ToDomainArgs`.
 */
module RestaurantRepository {
  import opened Wrappers
  import opened DomainErrors
  import opened Text
  import opened Sorting
  import opened Tables
  import opened RestaurantEntity

  /** A row of the `restaurants` table. */
  datatype RestaurantRow = RestaurantRow(
    id: string,
    name: string,
    adminId: string,
    phone: string,
    address: string,
    category: string,
    email: string,
    slug: string,
    imageUrl: string,
    isActive: bool,
    createdAt: Option<int>,
    updatedAt: Option<int>)

  /** `toEntity`: every column from the field of the same name; the timestamps are left to the database. */
  function ToEntity(p: RestaurantProps): (row: RestaurantRow)
    ensures row.slug == p.slug && row.imageUrl == p.imageUrl
    ensures row.createdAt.None? && row.updatedAt.None?
  {
    RestaurantRow(p.id, p.name, p.adminId, p.phone, p.address, p.category, p.email, p.slug,
      p.imageUrl, p.isActive, None, None)
  }

  /** `toDomain` as written: the slug column fills `imageUrl` and the image column fills `slug`. */
  function ToDomainArgsAsWritten(row: RestaurantRow): (p: RestaurantProps)
    ensures p.imageUrl == row.slug && p.slug == row.imageUrl
  {
    RestaurantProps(row.id, row.name, row.adminId, row.phone, row.address, row.category,
      row.email, row.slug, row.imageUrl, row.isActive, row.createdAt, row.updatedAt)
  }

  /** `toDomain` with each column passed to the constructor parameter of its name. */
  function ToDomainArgs(row: RestaurantRow): (p: RestaurantProps)
    ensures p.imageUrl == row.imageUrl && p.slug == row.slug
  {
    RestaurantProps(row.id, row.name, row.adminId, row.phone, row.address, row.category,
      row.email, row.imageUrl, row.slug, row.isActive, row.createdAt, row.updatedAt)
  }

  /**
   * Through the written mappers an entity comes back with its other fields intact but its
   * slug and image URL exchanged.
   */
  lemma AsWrittenSwapsSlugAndImage(p: RestaurantProps)
    ensures ToDomainArgsAsWritten(ToEntity(p)) ==
      p.(imageUrl := p.slug, slug := p.imageUrl, createdAt := None, updatedAt := None)
  {
  }

  /** The written round trip is faithful exactly for the entities whose slug equals their image URL. */
  lemma AsWrittenRoundTripIff(p: RestaurantProps)
    ensures ToDomainArgsAsWritten(ToEntity(p)) == p.(createdAt := None, updatedAt := None) <==> p.slug == p.imageUrl
  {
    if ToDomainArgsAsWritten(ToEntity(p)) == p.(createdAt := None, updatedAt := None) {
      assert ToDomainArgsAsWritten(ToEntity(p)).slug == p.imageUrl;
    }
  }

  /** A restaurant saved with slug "la-tasca" is read back with its image URL as slug. */
  lemma SlugImageSwapExample()
    ensures var p := RestaurantProps("r-1", "La Tasca", "u-1", "912345678", "Calle Mayor 1", "TAPAS",
        "hola@latasca.es", "https://img.example/la-tasca.png", "la-tasca", true, None, None);
      ToDomainArgsAsWritten(ToEntity(p)).slug == "https://img.example/la-tasca.png"
      && ToDomainArgsAsWritten(ToEntity(p)).imageUrl == "la-tasca"
      && ToDomainArgsAsWritten(ToEntity(p)) != p
  {
  }

  /** With the corrected mapper an entity comes back unchanged but for the timestamps. */
  lemma EntityRoundTrip(p: RestaurantProps)
    ensures ToDomainArgs(ToEntity(p)) == p.(createdAt := None, updatedAt := None)
  {
  }

  /** A row read and written back is the same row, without its timestamps. */
  lemma RowRoundTrip(row: RestaurantRow)
    ensures ToEntity(ToDomainArgs(row)) == row.(createdAt := None, updatedAt := None)
  {
  }

  // ----- lookups and orderings ---------------------------------------------------------

  function RowId(row: RestaurantRow): string { row.id }
  function RowEmail(row: RestaurantRow): string { row.email }
  function RowSlug(row: RestaurantRow): string { row.slug }

  /** `order: { name: 'ASC' }`. */
  predicate NameLe(a: RestaurantRow, b: RestaurantRow) {
    StrLessEq(a.name, b.name)
  }

  /** `order: { createdAt: 'DESC' }`, newest first. */
  predicate NewestFirst(a: RestaurantRow, b: RestaurantRow) {
    a.createdAt.GetOr(0) >= b.createdAt.GetOr(0)
  }

  lemma NameLeTotalPreorder()
    ensures TotalPreorder(NameLe)
  {
    forall a: RestaurantRow, b: RestaurantRow
      ensures NameLe(a, b) || NameLe(b, a)
    {
      if StrLess(a.name, b.name) {
        StrLessAsymmetric(a.name, b.name);
      }
    }
    forall a: RestaurantRow, b: RestaurantRow, c: RestaurantRow | NameLe(a, b) && NameLe(b, c)
      ensures NameLe(a, c)
    {
      if StrLess(c.name, a.name) {
        StrLessTotal(a.name, b.name);
        if StrLess(a.name, b.name) {
          StrLessTransitive(c.name, a.name, b.name);
        }
        assert false;
      }
    }
  }

  /** The rows of one owner, in table order. */
  function OwnedBy(rows: seq<RestaurantRow>, adminId: string): (sel: seq<RestaurantRow>)
    ensures forall row :: row in sel <==> row in rows && row.adminId == adminId
  {
    if rows == [] then []
    else
      var rest := OwnedBy(rows[1..], adminId);
      assert forall row :: row in rows <==> row == rows[0] || row in rows[1..];
      if rows[0].adminId == adminId then [rows[0]] + rest else rest
  }

  /** The rows `findAll` returns, in order. */
  function AllByName(rows: seq<RestaurantRow>): seq<RestaurantRow> {
    InsertionSort(rows, NameLe)
  }

  /** The rows `findAllByOwnerId` returns, in order. */
  function ByOwnerNewestFirst(rows: seq<RestaurantRow>, adminId: string): seq<RestaurantRow> {
    InsertionSort(OwnedBy(rows, adminId), NewestFirst)
  }

  /** `findAll` returns every restaurant exactly as often as stored, ordered by name. */
  lemma AllByNameMeaning(rows: seq<RestaurantRow>)
    ensures multiset(AllByName(rows)) == multiset(rows)
    ensures SortedBy(AllByName(rows), NameLe)
  {
    NameLeTotalPreorder();
    InsertionSortSorted(rows, NameLe);
  }

  /** `findAllByOwnerId` returns exactly the owner's restaurants, newest first. */
  lemma ByOwnerMeaning(rows: seq<RestaurantRow>, adminId: string)
    ensures multiset(ByOwnerNewestFirst(rows, adminId)) == multiset(OwnedBy(rows, adminId))
    ensures forall row :: row in ByOwnerNewestFirst(rows, adminId) <==> row in rows && row.adminId == adminId
    ensures SortedBy(ByOwnerNewestFirst(rows, adminId), NewestFirst)
  {
    InsertionSortSorted(OwnedBy(rows, adminId), NewestFirst);
    forall row
      ensures row in ByOwnerNewestFirst(rows, adminId) <==> row in OwnedBy(rows, adminId)
    {
      SortKeepsMembers(OwnedBy(rows, adminId), NewestFirst, row);
    }
  }

  /** The entity `findById` reads: the row with that id, if any. */
  function ById(rows: seq<RestaurantRow>, id: string): (r: Option<RestaurantProps>)
    ensures r.None? <==> forall i :: 0 <= i < |rows| ==> rows[i].id != id
    ensures r.Some? ==> r.value.id == id && exists i :: 0 <= i < |rows| && r.value == ToDomainArgs(rows[i])
  {
    match IndexOf(rows, RowId, id)
    case None => None
    case Some(i) => Some(ToDomainArgs(rows[i]))
  }

  /** The entity `findBySlug` reads: the row with that slug, if any. */
  function BySlug(rows: seq<RestaurantRow>, slug: string): (r: Option<RestaurantProps>)
    ensures r.None? <==> forall i :: 0 <= i < |rows| ==> rows[i].slug != slug
    ensures r.Some? ==> r.value.slug == slug && exists i :: 0 <= i < |rows| && r.value == ToDomainArgs(rows[i])
  {
    match IndexOf(rows, RowSlug, slug)
    case None => None
    case Some(i) => Some(ToDomainArgs(rows[i]))
  }

  /** Ids are the primary key; e-mails and slugs are unique columns. */
  predicate UniqueKeys(rows: seq<RestaurantRow>) {
    UniqueBy(rows, RowId) && UniqueBy(rows, RowEmail) && UniqueBy(rows, RowSlug)
  }

  /** The write would break the e-mail or the slug constraint. */
  predicate Conflicts(rows: seq<RestaurantRow>, row: RestaurantRow) {
    TakenByOther(rows, row, RowEmail, RowId) || TakenByOther(rows, row, RowSlug, RowId)
  }

  const DUPLICATE_KEY := "duplicate key value violates unique constraint"

  /** The table after `save`: update by id keeping the creation time, or append. */
  function Upsert(rows: seq<RestaurantRow>, row: RestaurantRow, now: int): (out: seq<RestaurantRow>)
    ensures IndexOf(out, RowId, row.id).Some?
  {
    match IndexOf(rows, RowId, row.id)
    case Some(i) =>
      var out := rows[i := row.(createdAt := rows[i].createdAt, updatedAt := Some(now))];
      assert out[i].id == row.id;
      out
    case None =>
      var out := rows + [row.(createdAt := Some(now), updatedAt := Some(now))];
      assert out[|rows|].id == row.id;
      out
  }

  /**
   * The row `save` hands back: the entity as the mapper built it, which carries no
   * timestamps, with the columns the database generated merged in. An insert returns
   * both timestamps; an update returns only the new update time, so `createdAt` stays
   * unset, and otherwise the object agrees with the stored row.
   */
  function Returned(rows: seq<RestaurantRow>, row: RestaurantRow, now: int): (q: RestaurantRow)
    ensures q.(createdAt := row.createdAt, updatedAt := row.updatedAt) == row
    ensures q.updatedAt == Some(now)
    ensures q.createdAt.Some? <==> IndexOf(rows, RowId, row.id).None?
    ensures match IndexOf(rows, RowId, row.id)
      case None => q == Upsert(rows, row, now)[|rows|]
      case Some(i) => q.(createdAt := rows[i].createdAt) == Upsert(rows, row, now)[i]
  {
    if IndexOf(rows, RowId, row.id).None? then row.(createdAt := Some(now), updatedAt := Some(now))
    else row.(createdAt := None, updatedAt := Some(now))
  }

  lemma UpsertKeepsKeysUnique(rows: seq<RestaurantRow>, row: RestaurantRow, now: int)
    requires UniqueKeys(rows) && !Conflicts(rows, row)
    ensures UniqueKeys(Upsert(rows, row, now))
  {
    match IndexOf(rows, RowId, row.id)
    case Some(k) =>
      var stored := row.(createdAt := rows[k].createdAt, updatedAt := Some(now));
      UpdateKeepsUnique(rows, k, stored, RowId, RowId);
      UpdateKeepsUnique(rows, k, stored, RowEmail, RowId);
      UpdateKeepsUnique(rows, k, stored, RowSlug, RowId);
    case None =>
      var stored := row.(createdAt := Some(now), updatedAt := Some(now));
      AppendKeepsUnique(rows, stored, RowId, RowId);
      AppendKeepsUnique(rows, stored, RowEmail, RowId);
      AppendKeepsUnique(rows, stored, RowSlug, RowId);
  }

  /** Deleting a row keeps the remaining keys unique. */
  lemma RemoveKeepsKeysUnique(rows: seq<RestaurantRow>, id: string)
    requires UniqueKeys(rows)
    ensures UniqueKeys(RemoveKey(rows, RowId, id))
  {
    RemoveKeepsUnique(rows, RowId, id, RowId);
    RemoveKeepsUnique(rows, RowId, id, RowEmail);
    RemoveKeepsUnique(rows, RowId, id, RowSlug);
  }

  class RestaurantTypeOrmRepository {
    var rows: seq<RestaurantRow>

    ghost predicate Valid()
      reads this
    {
      UniqueKeys(rows)
    }

    constructor (initial: seq<RestaurantRow>)
      requires UniqueKeys(initial)
      ensures rows == initial && Valid()
    {
      rows := initial;
    }

    /** `findById`: a fresh entity for the row with that id, or none. */
    method FindById(id: string) returns (r: Option<Restaurant>)
      ensures r.None? <==> ById(rows, id).None?
      ensures r.Some? ==> fresh(r.value) && r.value.Props() == ById(rows, id).value
    {
      match IndexOf(rows, RowId, id)
      case None => r := None;
      case Some(i) =>
        var e := new Restaurant(ToDomainArgs(rows[i]));
        r := Some(e);
    }

    /** `findBySlug`: a fresh entity for the row with that slug, or none. */
    method FindBySlug(slug: string) returns (r: Option<Restaurant>)
      ensures r.None? <==> BySlug(rows, slug).None?
      ensures r.Some? ==> fresh(r.value) && r.value.Props() == BySlug(rows, slug).value
    {
      match IndexOf(rows, RowSlug, slug)
      case None => r := None;
      case Some(i) =>
        var e := new Restaurant(ToDomainArgs(rows[i]));
        r := Some(e);
    }

    /** `findAll`: fresh entities for every row, by name. */
    method FindAll() returns (res: seq<Restaurant>)
      ensures |res| == |AllByName(rows)|
      ensures forall i :: 0 <= i < |res| ==> fresh(res[i]) && res[i].Props() == ToDomainArgs(AllByName(rows)[i])
    {
      res := Materialize(AllByName(rows));
    }

    /** `findAllByOwnerId`: fresh entities for the owner's rows, newest first. */
    method FindAllByOwnerId(adminId: string) returns (res: seq<Restaurant>)
      ensures |res| == |ByOwnerNewestFirst(rows, adminId)|
      ensures forall i :: 0 <= i < |res| ==>
        fresh(res[i]) && res[i].Props() == ToDomainArgs(ByOwnerNewestFirst(rows, adminId)[i])
    {
      res := Materialize(ByOwnerNewestFirst(rows, adminId));
    }

    /**
     * `save`: writes the entity's row and returns a fresh entity of the object the ORM
     * hands back; an e-mail or slug already held by another row is rejected and changes
     * nothing.
     */
    method Save(restaurant: Restaurant, now: int) returns (r: Result<Restaurant>)
      requires Valid()
      modifies this
      ensures Valid()
      ensures Conflicts(old(rows), ToEntity(restaurant.Props())) ==>
        r == Err(UnexpectedError(DUPLICATE_KEY)) && rows == old(rows)
      ensures !Conflicts(old(rows), ToEntity(restaurant.Props())) ==>
        && rows == Upsert(old(rows), ToEntity(restaurant.Props()), now)
        && r.Ok? && fresh(r.value)
        && r.value.Props() == ToDomainArgs(Returned(old(rows), ToEntity(restaurant.Props()), now))
    {
      var row := ToEntity(restaurant.Props());
      if Conflicts(rows, row) {
        return Err(UnexpectedError(DUPLICATE_KEY));
      }
      var saved := new Restaurant(ToDomainArgs(Returned(rows, row, now)));
      UpsertKeepsKeysUnique(rows, row, now);
      rows := Upsert(rows, row, now);
      r := Ok(saved);
    }

    /** `delete(id)`: removes the row with that id, if any. */
    method Delete(id: string)
      requires Valid()
      modifies this
      ensures Valid()
      ensures rows == RemoveKey(old(rows), RowId, id)
    {
      RemoveKeepsKeysUnique(rows, id);
      rows := RemoveKey(rows, RowId, id);
    }
  }

  /** `entities.map(toDomain)`: one fresh entity per row, in order. */
  method Materialize(rows: seq<RestaurantRow>) returns (res: seq<Restaurant>)
    ensures |res| == |rows|
    ensures forall i :: 0 <= i < |res| ==> fresh(res[i]) && res[i].Props() == ToDomainArgs(rows[i])
  {
    res := [];
    var i := 0;
    while i < |rows|
      invariant 0 <= i <= |rows| && |res| == i
      invariant forall j :: 0 <= j < i ==> fresh(res[j]) && res[j].Props() == ToDomainArgs(rows[j])
    {
      var e := new Restaurant(ToDomainArgs(rows[i]));
      res := res + [e];
      i := i + 1;
    }
  }
}
