/**
 * Worked scenarios on the four seed shops: what each endpoint answers at start-up,
 * and what the table looks like after an update or a delete.
 */
module ShopScenarios {
  import opened Wrappers
  import opened Shops
  import opened ShopTable
  import opened ShopApi

  /** Every seed shop passes the validation rules. */
  lemma SeedIsValid()
    ensures forall k :: 0 <= k < |Seed()| ==> IsValid(Seed()[k])
  {
    var s := Seed();
    forall k | 0 <= k < |s|
      ensures IsValid(s[k])
    {
      assert !IsWhiteSpace(s[k].id.value[0]);
      assert !IsWhiteSpace(s[k].shopName.value[0]);
    }
  }

  /** Get by name "Kardesler Bakkal" finds the shop with ID "1". */
  lemma SeedFindByName()
    ensures Find(Seed(), ByName(Some("Kardesler Bakkal"))) ==
      Some(Shop(Some("1"), Some("Kardesler Bakkal"), Some("Izmir/Buca"), 3))
  {
    assert IsFirstMatch(Seed(), ByName(Some("Kardesler Bakkal")), 0);
  }

  /** Address "Izmir/Buca" with 2 employees skips shop "1" (3 employees) and finds
      shop "2". */
  lemma SeedFindByAddressAndCount()
    ensures Find(Seed(), ByAddressAndEmployees(Some("Izmir/Buca"), Some(2))) == Some(Seed()[1])
    ensures Seed()[1].id == Some("2")
  {
    assert IsFirstMatch(Seed(), ByAddressAndEmployees(Some("Izmir/Buca"), Some(2)), 1);
  }

  /** Shops "1" and "4" both have 3 employees; the lookup by count answers the first. */
  lemma SeedFindByCountFirstWins()
    ensures Seed()[3].numberOfEmployees == 3
    ensures Find(Seed(), ByEmployees(Some(3))) == Some(Seed()[0])
  {
    assert IsFirstMatch(Seed(), ByEmployees(Some(3)), 0);
  }

  /** Updating shop "2" to ("New Name", 10) confirms with that ID and name; looking
      "2" up afterwards shows both new values, and the stored name (8 characters) is
      one the validation rules would reject. */
  lemma SeedUpdateShop()
    ensures var after := UpdateFirst(Seed(), Some("2"), Some("New Name"), 10);
      after.reply == OkUpdated(Some("2"), Some("New Name")) &&
      |after.shops| == 4 &&
      Find(after.shops, ById(Some("2"))) == Some(Shop(Some("2"), Some("New Name"), Some("Izmir/Buca"), 10)) &&
      !IsValid(after.shops[1])
  {
    var s := Seed();
    assert IsFirstMatch(s, ById(Some("2")), 1);
    UpdateThenFind(s, Some("2"), Some("New Name"), 10);
    assert Find(s, ById(Some("2"))) == Some(s[1]);
  }

  /** Deleting the absent ID "99" answers 404 and leaves all four shops. */
  lemma SeedDeleteAbsent()
    ensures RemoveFirst(Seed(), Some("99")) == Step(Seed(), NotFound(NoShopWithId))
  {
    assert NoMatch(Seed(), ById(Some("99")));
  }

  /** The same scenarios driven through the controller object. */
  method ControllerScenario() returns (byName: Reply, updated: Reply, deleted: Reply, again: Reply)
    ensures byName == OkShop(Shop(Some("1"), Some("Kardesler Bakkal"), Some("Izmir/Buca"), 3))
    ensures updated == OkUpdated(Some("2"), Some("New Name"))
    ensures deleted == OkDeleted(Some("2"))
    ensures again == NotFound(NoShopWithId)
  {
    var c := new ShopController();
    byName := c.GetShopsByName(Some("Kardesler Bakkal"));
    SeedFindByName();
    updated := c.UpdateShop(Some("2"), Some("New Name"), 10);
    assert IsFirstMatch(Seed(), ById(Some("2")), 1);
    ghost var afterUpdate := c.shops;
    UpdateKeepsIds(Seed(), Some("2"), Some("New Name"), 10);
    assert UniqueIds(afterUpdate) by {
      assert SameIds(Seed(), afterUpdate);
    }
    assert IsFirstMatch(afterUpdate, ById(Some("2")), 1);
    deleted := c.DeleteShop(Some("2"));
    DeleteTwiceNotFound(afterUpdate, Some("2"));
    again := c.DeleteShop(Some("2"));
  }
}
