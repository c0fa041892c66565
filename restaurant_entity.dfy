/** The `Restaurant` entity: constructor fields, `create`, and the `isActive` toggle. */
module RestaurantEntity {
  import opened Wrappers

  /** The constructor arguments of `Restaurant`, in their declared order. */
  datatype RestaurantProps = RestaurantProps(
    id: string,
    name: string,
    adminId: string,
    phone: string,
    address: string,
    category: string,
    email: string,
    imageUrl: string,
    slug: string,
    isActive: bool,
    createdAt: Option<int>,
    updatedAt: Option<int>)

  /** The parameter object of `Restaurant.create`. */
  datatype NewRestaurant = NewRestaurant(
    id: string,
    name: string,
    adminId: string,
    phone: string,
    address: string,
    category: string,
    email: string,
    imageUrl: string,
    slug: string,
    isActive: bool)

  /** The entity after `toggleIsActive`. */
  function Toggled(p: RestaurantProps): (q: RestaurantProps)
    ensures q.isActive != p.isActive
  {
    p.(isActive := !p.isActive)
  }

  /** Toggling twice restores the entity, and a toggle leaves every other field alone. */
  lemma ToggleTwice(p: RestaurantProps)
    ensures Toggled(Toggled(p)) == p
    ensures Toggled(p).(isActive := p.isActive) == p
  {
  }

  class Restaurant {
    const id: string
    var name: string
    const adminId: string
    var phone: string
    var address: string
    const category: string
    const email: string
    var imageUrl: string
    var slug: string
    var isActive: bool
    const createdAt: Option<int>
    const updatedAt: Option<int>

    function Props(): RestaurantProps
      reads this
    {
      RestaurantProps(id, name, adminId, phone, address, category, email, imageUrl, slug,
        isActive, createdAt, updatedAt)
    }

    /** `new Restaurant(...)` with every field given. */
    constructor (p: RestaurantProps)
      ensures Props() == p
    {
      id, name, adminId, phone, address, category := p.id, p.name, p.adminId, p.phone, p.address, p.category;
      email, imageUrl, slug, isActive := p.email, p.imageUrl, p.slug, p.isActive;
      createdAt, updatedAt := p.createdAt, p.updatedAt;
    }

    /** `Restaurant.create`: the ten given fields in their positions, no timestamps yet. */
    constructor Create(params: NewRestaurant)
      ensures Props() == RestaurantProps(params.id, params.name, params.adminId, params.phone,
        params.address, params.category, params.email, params.imageUrl, params.slug,
        params.isActive, None, None)
    {
      id, name, adminId, phone, address := params.id, params.name, params.adminId, params.phone, params.address;
      category, email, imageUrl, slug := params.category, params.email, params.imageUrl, params.slug;
      isActive, createdAt, updatedAt := params.isActive, None, None;
    }

    /** `toggleIsActive`: negates `isActive` and touches nothing else. */
    method ToggleIsActive()
      modifies this
      ensures Props() == Toggled(old(Props()))
    {
      isActive := !isActive;
    }
  }
}
