/** The product and user lookups the order and payment engines depend on
    (ProductService.getProductById and UserService.getUserById). The catalog
    is read-only in this model. */
module CatalogService {
  import opened Domain

  /** The product and user repositories, keyed by id. */
  datatype Catalog = Catalog(products: map<nat, Product>, users: map<nat, User>)

  /** Products and users are stored under their own ids. */
  ghost predicate WellKeyed(c: Catalog) {
    && (forall id :: id in c.products ==> c.products[id].id == id)
    && (forall id :: id in c.users ==> c.users[id].id == id)
  }

  /** Fails with ProductNotFound exactly when no product has the id. */
  function GetProductById(c: Catalog, id: nat): (r: Result<Product>)
    ensures r.Ok? <==> id in c.products
    ensures r.Ok? ==> r.value == c.products[id]
    ensures r.Err? ==> r.error == ProductNotFound(id)
  {
    if id in c.products then Ok(c.products[id]) else Err(ProductNotFound(id))
  }

  /** Fails with UserNotFound exactly when no user has the id. */
  function GetUserById(c: Catalog, id: nat): (r: Result<User>)
    ensures r.Ok? <==> id in c.users
    ensures r.Ok? ==> r.value == c.users[id]
    ensures r.Err? ==> r.error == UserNotFound(id)
  {
    if id in c.users then Ok(c.users[id]) else Err(UserNotFound(id))
  }
}
