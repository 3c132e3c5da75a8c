/** The rows of the users, products, warehouses and organizations tables that the core reads
    (app/models/user.py, product.py, warehouse.py, organization.py), and the lookups it makes
    on them. */
module Catalog {
  import opened Enums
  import opened Errors

  datatype User = User(id: Id, org: Id, email: string, role: Role)

  datatype Product = Product(id: Id, org: Id, name: string, minStockLevel: int)

  datatype Warehouse = Warehouse(id: Id, org: Id, name: string)

  datatype Organization = Organization(id: Id, name: string)

  /** The unique index (org_id, email) on users. */
  predicate UniqueEmails(users: seq<User>)
  {
    forall i, j :: 0 <= i < |users| && 0 <= j < |users| && i != j && users[i].org == users[j].org ==>
      users[i].email != users[j].email
  }

  /** The e-mail addresses of an organization's ADMIN and MANAGER users, in table order:
      `select(User.email).where(User.org_id == org).where(role == ADMIN or role == MANAGER)`. */
  function ManagerEmails(users: seq<User>, org: Id): (emails: seq<string>)
    ensures |emails| <= |users|
    ensures forall e :: e in emails <==>
      exists i :: 0 <= i < |users| && users[i].org == org && IsManagerRole(users[i].role) && users[i].email == e
  {
    if users == [] then []
    else
      var rest := ManagerEmails(users[1..], org);
      assert forall i :: 1 <= i < |users| ==> users[i] == users[1..][i - 1];
      if users[0].org == org && IsManagerRole(users[0].role) then [users[0].email] + rest else rest
  }

  /** A STAFF user never receives a manager notification: their address is not selected, because
      no other user of the same organization can share it. */
  lemma StaffNeverRecipient(users: seq<User>, org: Id, k: nat)
    requires UniqueEmails(users)
    requires k < |users| && users[k].org == org && users[k].role == STAFF
    ensures users[k].email !in ManagerEmails(users, org)
  {
  }

  /** `ProductService.get_by_id`: the product with that id in that organization, else 404. */
  function FindProduct(products: seq<Product>, org: Id, id: Id): (r: Result<Product>)
    ensures r.Success? ==> r.value in products && r.value.id == id && r.value.org == org
    ensures r.Failure? <==> forall p :: p in products ==> !(p.id == id && p.org == org)
    ensures r.Failure? ==> r.error == NotFound("Product not found")
  {
    if products == [] then Failure(NotFound("Product not found"))
    else if products[0].id == id && products[0].org == org then Success(products[0])
    else FindProduct(products[1..], org, id)
  }

  /** `WarehouseService.get_by_id`: the warehouse with that id in that organization, else 404. */
  function FindWarehouse(warehouses: seq<Warehouse>, org: Id, id: Id): (r: Result<Warehouse>)
    ensures r.Success? ==> r.value in warehouses && r.value.id == id && r.value.org == org
    ensures r.Failure? <==> forall w :: w in warehouses ==> !(w.id == id && w.org == org)
    ensures r.Failure? ==> r.error == NotFound("Warehouse not found")
  {
    if warehouses == [] then Failure(NotFound("Warehouse not found"))
    else if warehouses[0].id == id && warehouses[0].org == org then Success(warehouses[0])
    else FindWarehouse(warehouses[1..], org, id)
  }
}
