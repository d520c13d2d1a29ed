/**
 * The controller: one object, standing for the whole process, holds the shared
 * table (`static List<Shop> shops`) and each endpoint is a method on it. Mutating endpoints change `shops` in place
 * and are proved against the functions of ShopTable; lookups leave it alone.
 */
module ShopApi {
  import opened Wrappers
  import opened Shops
  import opened ShopTable

  class ShopController {
    var shops: seq<Shop>

    /** Process start (the static initializer): the table starts with the four seed
        shops. This is not the per-request controller, whose constructor is empty. */
    constructor ()
      ensures shops == Seed()
    {
      shops := Seed();
    }

    /** Create: appends the shop as given, with no ID-uniqueness or validation check,
        and echoes it back. */
    method Post(value: Shop) returns (created: Shop)
      modifies this
      ensures shops == old(shops) + [value]
      ensures created == value
    {
      shops := shops + [value];
      created := value;
    }

    /** List all: the whole table, in order. */
    method GetAllShops() returns (r: Reply)
      ensures r.OkShops? && r.shops == shops
    {
      r := OkShops(shops);
    }

    /** Get by name: the first shop whose name equals `name`, or 404. */
    method GetShopsByName(name: Str) returns (r: Reply)
      ensures r.OkShop? || r == NotFound(NoShopWithName)
      ensures r.NotFound? <==> NoMatch(shops, ByName(name))
      ensures forall i :: IsFirstMatch(shops, ByName(name), i) ==> r == OkShop(shops[i])
    {
      var result := Find(shops, ByName(name));
      if result.Some? {
        r := OkShop(result.value);
      } else {
        r := NotFound(NoShopWithName);
      }
    }

    /** Get by employee count, the count bound from the query string: the first shop
        with that count, or null; a null count gives null. */
    method GetQuery(numberOfEmployees: Option<Int32>) returns (r: Option<Shop>)
      ensures numberOfEmployees.None? ==> r.None?
      ensures r.None? <==> NoMatch(shops, ByEmployees(numberOfEmployees))
      ensures forall i :: IsFirstMatch(shops, ByEmployees(numberOfEmployees), i) ==> r == Some(shops[i])
    {
      r := Find(shops, ByEmployees(numberOfEmployees));
    }

    /** Get by employee count, the count bound from the route; same answers as GetQuery. */
    method GetRoute(numberOfEmployees: Option<Int32>) returns (r: Option<Shop>)
      ensures numberOfEmployees.None? ==> r.None?
      ensures r.None? <==> NoMatch(shops, ByEmployees(numberOfEmployees))
      ensures forall i :: IsFirstMatch(shops, ByEmployees(numberOfEmployees), i) ==> r == Some(shops[i])
    {
      r := Find(shops, ByEmployees(numberOfEmployees));
    }

    /** Get by address and employee count: the first shop matching both, or null. */
    method GetRouteAndQuery(shopAddress: Str, numberOfEmployees: Option<Int32>) returns (r: Option<Shop>)
      ensures numberOfEmployees.None? ==> r.None?
      ensures r.Some? ==>
        (r.value.shopAddress == shopAddress && numberOfEmployees == Some(r.value.numberOfEmployees))
      ensures r.None? <==> NoMatch(shops, ByAddressAndEmployees(shopAddress, numberOfEmployees))
      ensures forall i :: IsFirstMatch(shops, ByAddressAndEmployees(shopAddress, numberOfEmployees), i) ==>
        r == Some(shops[i])
    {
      r := Find(shops, ByAddressAndEmployees(shopAddress, numberOfEmployees));
    }

    /** Update name: renames the first shop with ID `id` in place, or answers 404. */
    method UpdateShopName(id: Str, name: Str) returns (r: Reply)
      modifies this
      ensures Step(shops, r) == RenameFirst(old(shops), id, name)
    {
      var found := FirstIndex(shops, ById(id));
      if found.Some? {
        var i := found.value;
        shops := shops[i := shops[i].(shopName := name)];
        r := OkUpdated(shops[i].id, shops[i].shopName);
      } else {
        r := NotFound(NoShopWithId);
      }
    }

    /** Update name and employee count of the first shop with ID `id` in place, or
        answer 404. */
    method UpdateShop(id: Str, name: Str, numberOfEmployees: Int32) returns (r: Reply)
      modifies this
      ensures Step(shops, r) == UpdateFirst(old(shops), id, name, numberOfEmployees)
    {
      var found := FirstIndex(shops, ById(id));
      if found.Some? {
        var i := found.value;
        shops := shops[i := shops[i].(shopName := name)];
        shops := shops[i := shops[i].(numberOfEmployees := numberOfEmployees)];
        r := OkUpdated(shops[i].id, shops[i].shopName);
      } else {
        r := NotFound(NoShopWithId);
      }
    }

    /** Delete: removes the first shop with ID `id`, or answers 404. */
    method DeleteShop(id: Str) returns (r: Reply)
      modifies this
      ensures Step(shops, r) == RemoveFirst(old(shops), id)
    {
      var found := FirstIndex(shops, ById(id));
      if found.Some? {
        var i := found.value;
        var result := shops[i];
        shops := shops[..i] + shops[i + 1..];
        r := OkDeleted(result.id);
      } else {
        r := NotFound(NoShopWithId);
      }
    }
  }

  /** A client that sees only the contracts: with unique IDs, deleting an ID twice
      answers 404 the second time. */
  method DeleteTwiceClient(c: ShopController, id: Str) returns (first: Reply, second: Reply)
    requires UniqueIds(c.shops)
    modifies c
    ensures second == NotFound(NoShopWithId)
    ensures |c.shops| == |old(c.shops)| - (if first.OkDeleted? then 1 else 0)
  {
    ghost var before := c.shops;
    first := c.DeleteShop(id);
    DeleteTwiceNotFound(before, id);
    second := c.DeleteShop(id);
  }
}
