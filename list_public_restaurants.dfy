/**
 * `ListPublicRestaurantsUseCase`: every active restaurant, in the order `findAll`
 * returns them (by name), projected to the public card fields, with their count.
 * Nothing is written.
 */
module ListPublicRestaurants {
  import opened Wrappers
  import opened Tables
  import opened Sorting
  import opened RestaurantEntity
  import opened RestaurantRepository
  import opened GetPublicRestaurant
  import opened Text
  import SettingsEntity

  /** `PublicRestaurantListItem`. */
  datatype PublicRestaurantListItem = PublicRestaurantListItem(
    id: string,
    name: string,
    slug: string,
    category: string,
    address: string,
    imageUrl: string)

  /** `PublicRestaurantListResult`. */
  datatype PublicRestaurantListResult = PublicRestaurantListResult(
    restaurants: seq<PublicRestaurantListItem>,
    total: nat)

  /** The public card of a restaurant. */
  function ItemOf(p: RestaurantProps): (item: PublicRestaurantListItem)
    ensures item.id == p.id && item.name == p.name && item.slug == p.slug
    ensures item.category == p.category && item.address == p.address && item.imageUrl == p.imageUrl
  {
    PublicRestaurantListItem(p.id, p.name, p.slug, p.category, p.address, p.imageUrl)
  }

  /** `allRestaurants.filter(r => r.isActive)`. */
  function Active(all: seq<RestaurantProps>): (act: seq<RestaurantProps>)
    ensures |act| <= |all|
    ensures forall k :: 0 <= k < |act| ==> act[k].isActive && act[k] in all
    ensures forall i :: 0 <= i < |all| && all[i].isActive ==> all[i] in act
  {
    if all == [] then []
    else if all[0].isActive then [all[0]] + Active(all[1..])
    else Active(all[1..])
  }

  /** The filter keeps the active restaurants, each as often as it occurs, and no inactive one. */
  lemma {:induction false} ActiveCounts(all: seq<RestaurantProps>)
    ensures forall p :: multiset(Active(all))[p] == if p.isActive then multiset(all)[p] else 0
  {
    if all != [] {
      ActiveCounts(all[1..]);
      assert all == [all[0]] + all[1..];
    }
  }

  /** `pos` lists, in increasing order, positions of `all` holding the elements of `sub`. */
  predicate PositionsOf(all: seq<RestaurantProps>, sub: seq<RestaurantProps>, pos: seq<int>) {
    && |pos| == |sub|
    && (forall k :: 0 <= k < |pos| ==> 0 <= pos[k] < |all| && all[pos[k]] == sub[k])
    && (forall k, l :: 0 <= k < l < |pos| ==> pos[k] < pos[l])
  }

  /** Positions in the tail of `all`, moved one place on, are positions in `all`. */
  lemma ShiftPositions(all: seq<RestaurantProps>, sub: seq<RestaurantProps>, rest: seq<int>)
    returns (shifted: seq<int>)
    requires all != [] && PositionsOf(all[1..], sub, rest)
    ensures PositionsOf(all, sub, shifted)
    ensures forall k :: 0 <= k < |shifted| ==> shifted[k] > 0
  {
    shifted := seq(|rest|, k requires 0 <= k < |rest| => rest[k] + 1);
    forall k | 0 <= k < |shifted|
      ensures 0 < shifted[k] < |all| && all[shifted[k]] == sub[k]
    {
      assert all[rest[k] + 1] == all[1..][rest[k]];
    }
  }

  /** Position 0 put in front of positions past it covers the first element as well. */
  lemma PrependFirst(all: seq<RestaurantProps>, sub: seq<RestaurantProps>, shifted: seq<int>)
    returns (pos: seq<int>)
    requires all != [] && PositionsOf(all, sub, shifted)
    requires forall k :: 0 <= k < |shifted| ==> shifted[k] > 0
    ensures PositionsOf(all, [all[0]] + sub, pos)
  {
    pos := [0] + shifted;
    forall k | 0 < k < |pos|
      ensures pos[k] == shifted[k - 1] && ([all[0]] + sub)[k] == sub[k - 1]
    {
    }
  }

  /** The filter keeps the relative order: the kept elements sit at increasing positions. */
  lemma {:induction false} ActivePositions(all: seq<RestaurantProps>) returns (pos: seq<int>)
    ensures |pos| == |Active(all)|
    ensures forall k :: 0 <= k < |pos| ==> 0 <= pos[k] < |all| && all[pos[k]] == Active(all)[k]
    ensures forall k, l :: 0 <= k < l < |pos| ==> pos[k] < pos[l]
  {
    if all == [] {
      pos := [];
    } else {
      var tail := all[1..];
      var rest := ActivePositions(tail);
      assert PositionsOf(tail, Active(tail), rest);
      var shifted := ShiftPositions(all, Active(tail), rest);
      if all[0].isActive {
        assert Active(all) == [all[0]] + Active(tail);
        pos := PrependFirst(all, Active(tail), shifted);
      } else {
        assert Active(all) == Active(tail);
        pos := shifted;
      }
      assert PositionsOf(all, Active(all), pos);
    }
  }

  /** `findAll()`: the stored restaurants as entities, ordered by name. */
  function FindAllProps(rows: seq<RestaurantRow>): (all: seq<RestaurantProps>)
    ensures |all| == |rows|
    ensures forall k, l :: 0 <= k < l < |all| ==> StrLessEq(all[k].name, all[l].name)
  {
    AllByNameMeaning(rows);
    var sorted := AllByName(rows);
    seq(|sorted|, i requires 0 <= i < |sorted| => ToDomainArgs(sorted[i]))
  }

  /** `execute()` on the restaurants `findAll` returns. */
  function ListPublicRestaurants(all: seq<RestaurantProps>): (r: PublicRestaurantListResult)
    ensures r.total == |r.restaurants| == |Active(all)|
    ensures forall k :: 0 <= k < |r.restaurants| ==> r.restaurants[k] == ItemOf(Active(all)[k])
  {
    var act := Active(all);
    var items := seq(|act|, k requires 0 <= k < |act| => ItemOf(act[k]));
    PublicRestaurantListResult(items, |items|)
  }

  /** The listing of the stored table. */
  function Listed(rows: seq<RestaurantRow>): seq<PublicRestaurantListItem> {
    ListPublicRestaurants(FindAllProps(rows)).restaurants
  }

  /** The stored row behind the `k`-th card: an active one. */
  lemma CardSource(rows: seq<RestaurantRow>, k: nat) returns (i: nat)
    requires k < |Listed(rows)|
    ensures i < |rows| && rows[i].isActive && Listed(rows)[k] == ItemOf(ToDomainArgs(rows[i]))
  {
    var sorted := AllByName(rows);
    var all := FindAllProps(rows);
    var act := Active(all);
    ActiveCounts(all);
    assert act[k] in act;
    var j :| 0 <= j < |all| && all[j] == act[k];
    SortKeepsMembers(rows, NameLe, sorted[j]);
    i :| 0 <= i < |rows| && rows[i] == sorted[j];
    assert all[j] == ToDomainArgs(rows[i]);
  }

  /** The card of an active stored row: its position in the listing. */
  lemma CardOf(rows: seq<RestaurantRow>, i: nat) returns (k: nat)
    requires i < |rows| && rows[i].isActive
    ensures k < |Listed(rows)| && Listed(rows)[k] == ItemOf(ToDomainArgs(rows[i]))
  {
    var sorted := AllByName(rows);
    var all := FindAllProps(rows);
    var act := Active(all);
    ActiveCounts(all);
    SortKeepsMembers(rows, NameLe, rows[i]);
    var j :| 0 <= j < |sorted| && sorted[j] == rows[i];
    assert all[j] == ToDomainArgs(rows[i]);
    assert all[j] in act;
    k :| 0 <= k < |act| && act[k] == all[j];
  }

  /** `item` is the card of an active stored restaurant. */
  predicate CardOfActiveRow(rows: seq<RestaurantRow>, item: PublicRestaurantListItem) {
    exists i :: 0 <= i < |rows| && rows[i].isActive && item == ItemOf(ToDomainArgs(rows[i]))
  }

  /** Each listed card is the card of an active stored restaurant, and each such restaurant is listed. */
  lemma ListedIffActive(rows: seq<RestaurantRow>)
    ensures forall k :: 0 <= k < |Listed(rows)| ==> CardOfActiveRow(rows, Listed(rows)[k])
    ensures forall i :: 0 <= i < |rows| && rows[i].isActive ==> ItemOf(ToDomainArgs(rows[i])) in Listed(rows)
  {
    forall k | 0 <= k < |Listed(rows)|
      ensures CardOfActiveRow(rows, Listed(rows)[k])
    {
      var i := CardSource(rows, k);
    }
    forall i | 0 <= i < |rows| && rows[i].isActive
      ensures ItemOf(ToDomainArgs(rows[i])) in Listed(rows)
    {
      var k := CardOf(rows, i);
    }
  }

  /** No restaurant is listed twice: with unique ids the listed ids are distinct. */
  lemma ListedOnce(rows: seq<RestaurantRow>)
    requires UniqueBy(rows, RowId)
    ensures forall k, l :: 0 <= k < l < |Listed(rows)| ==> Listed(rows)[k].id != Listed(rows)[l].id
  {
    var sorted := AllByName(rows);
    var all := FindAllProps(rows);
    AllByNameMeaning(rows);
    PermutationKeepsUnique(sorted, rows, RowId);
    var pos := ActivePositions(all);
    forall k, l | 0 <= k < l < |Listed(rows)|
      ensures Listed(rows)[k].id != Listed(rows)[l].id
    {
      assert Listed(rows)[k].id == sorted[pos[k]].id;
      assert Listed(rows)[l].id == sorted[pos[l]].id;
    }
  }

  /** The listing keeps `findAll`'s order: by name. */
  lemma ListedByName(rows: seq<RestaurantRow>)
    ensures forall k, l :: 0 <= k < l < |Listed(rows)| ==> StrLessEq(Listed(rows)[k].name, Listed(rows)[l].name)
  {
    var sorted := AllByName(rows);
    var all := FindAllProps(rows);
    AllByNameMeaning(rows);
    var pos := ActivePositions(all);
    forall k, l | 0 <= k < l < |Listed(rows)|
      ensures StrLessEq(Listed(rows)[k].name, Listed(rows)[l].name)
    {
      assert NameLe(sorted[pos[k]], sorted[pos[l]]);
    }
  }

  /**
   * The list and the detail page agree: with unique slugs, a slug opens a public page
   * exactly when a listed card carries it.
   */
  lemma ListedIffPublicPage(rows: seq<RestaurantRow>, table: map<string, SettingsEntity.SettingsProps>,
                            slug: string)
    requires UniqueBy(rows, RowSlug)
    ensures GetPublicRestaurant.GetPublicRestaurant(rows, table, slug).Ok? <==>
      exists k :: 0 <= k < |Listed(rows)| && Listed(rows)[k].slug == slug
  {
    if GetPublicRestaurant.GetPublicRestaurant(rows, table, slug).Ok? {
      var i :| 0 <= i < |rows| && BySlug(rows, slug).value == ToDomainArgs(rows[i]);
      var k := CardOf(rows, i);
      assert Listed(rows)[k].slug == slug;
    }
    if exists k :: 0 <= k < |Listed(rows)| && Listed(rows)[k].slug == slug {
      var k :| 0 <= k < |Listed(rows)| && Listed(rows)[k].slug == slug;
      var i := CardSource(rows, k);
      IndexOfUnique(rows, RowSlug, slug, i);
    }
  }
}
