/**
 * The shop table as a value: the first-match lookup that every endpoint uses
 * (`List.FirstOrDefault` with an exact-match predicate), the replies the endpoints
 * give, and the effect of each mutating endpoint as a function of the old table.
 * The class in ShopController.dfy is proved against these functions; the lemmas
 * here state what the endpoints promise about them.
 */
module ShopTable {
  import opened Wrappers
  import opened Shops

  /** The exact-match predicates of the lookups. An employee count of `None` is the
      null `int?` of the query and route bindings. */
  datatype Query =
    | ByName(name: Str)
    | ById(id: Str)
    | ByEmployees(count: Option<Int32>)
    | ByAddressAndEmployees(address: Str, count: Option<Int32>)

  /** C#'s lifted `int == int?`: false when the nullable side is null. */
  predicate CountEquals(n: Int32, count: Option<Int32>)
  {
    count.Some? && count.value == n
  }

  predicate Matches(q: Query, shop: Shop)
  {
    match q
    case ByName(name) => shop.shopName == name
    case ById(id) => shop.id == id
    case ByEmployees(count) => CountEquals(shop.numberOfEmployees, count)
    case ByAddressAndEmployees(address, count) =>
      // The source combines the two tests with the non-short-circuit `&`; both
      // operands are side-effect free booleans, so this is their conjunction.
      var addressMatches := shop.shopAddress == address;
      var countMatches := CountEquals(shop.numberOfEmployees, count);
      addressMatches && countMatches
  }

  /** Index `i` holds the first shop of `s` that `q` matches. */
  predicate IsFirstMatch(s: seq<Shop>, q: Query, i: int)
  {
    0 <= i < |s| && Matches(q, s[i]) && forall j :: 0 <= j < i ==> !Matches(q, s[j])
  }

  /** No shop of `s` matches `q`. */
  predicate NoMatch(s: seq<Shop>, q: Query)
  {
    forall j :: 0 <= j < |s| ==> !Matches(q, s[j])
  }

  /** The position `FirstOrDefault` stops at, if any. */
  function FirstIndex(s: seq<Shop>, q: Query): (r: Option<nat>)
    ensures r.Some? ==> IsFirstMatch(s, q, r.value)
    ensures r.None? ==> NoMatch(s, q)
  {
    if s == [] then None
    else if Matches(q, s[0]) then Some(0)
    else
      match FirstIndex(s[1..], q)
      case None => None
      case Some(k) =>
        assert forall j :: 0 < j <= k ==> s[j] == s[1..][j - 1];
        Some(k + 1)
  }

  /** There is at most one first match. */
  lemma FirstMatchUnique(s: seq<Shop>, q: Query, i: int, k: int)
    requires IsFirstMatch(s, q, i) && IsFirstMatch(s, q, k)
    ensures i == k
  {
  }

  /** `FirstOrDefault(q)`: the first matching shop, or null. */
  function Find(s: seq<Shop>, q: Query): (r: Option<Shop>)
    ensures r.None? <==> NoMatch(s, q)
    ensures forall i :: IsFirstMatch(s, q, i) ==> r == Some(s[i])
  {
    match FirstIndex(s, q)
    case None => None
    case Some(i) => Some(s[i])
  }

  /** Why a lookup answered 404. */
  datatype NotFoundReason = NoShopWithName | NoShopWithId

  /** What an `IActionResult` endpoint answers: 200 with a shop, the list or a
      confirmation message (kept as the id and name it reports), or 404. */
  datatype Reply =
    | OkShop(shop: Shop)
    | OkShops(shops: seq<Shop>)
    | OkUpdated(id: Str, name: Str)
    | OkDeleted(id: Str)
    | NotFound(reason: NotFoundReason)

  /** The table after an endpoint, with its reply. */
  datatype Step = Step(shops: seq<Shop>, reply: Reply)

  /** The four shops the table starts with. */
  function Seed(): (r: seq<Shop>)
    ensures |r| == 4
    ensures UniqueIds(r)
    ensures forall k :: 0 <= k < |r| ==> r[k].id == Some([('1' as int + k) as char])
  {
    [ Shop(Some("1"), Some("Kardesler Bakkal"), Some("Izmir/Buca"), 3),
      Shop(Some("2"), Some("Meydan Tekel"), Some("Izmir/Buca"), 2),
      Shop(Some("3"), Some("Ucarlar Market"), Some("Izmir/Karsiyaka"), 4),
      Shop(Some("4"), Some("Tuylu Petshop"), Some("Afyonkarahisar/Bolvadin"), 3) ]
  }

  /** No two shops share an ID. Creation does not enforce this. */
  predicate UniqueIds(s: seq<Shop>)
  {
    forall i, j :: 0 <= i < |s| && 0 <= j < |s| && s[i].id == s[j].id ==> i == j
  }

  /** `UpdateShopName`: the first shop with ID `id` gets name `name`; the reply reports
      the ID and the new name. Nothing is re-validated. */
  function RenameFirst(s: seq<Shop>, id: Str, name: Str): (r: Step)
    ensures |r.shops| == |s|
    ensures NoMatch(s, ById(id)) ==> r == Step(s, NotFound(NoShopWithId))
    ensures forall i :: IsFirstMatch(s, ById(id), i) ==>
      r.reply == OkUpdated(id, name) &&
      r.shops[i] == Shop(s[i].id, name, s[i].shopAddress, s[i].numberOfEmployees) &&
      forall j :: 0 <= j < |s| && j != i ==> r.shops[j] == s[j]
  {
    match FirstIndex(s, ById(id))
    case None => Step(s, NotFound(NoShopWithId))
    case Some(i) =>
      var updated := s[i].(shopName := name);
      Step(s[i := updated], OkUpdated(updated.id, updated.shopName))
  }

  /** `UpdateShop`: the first shop with ID `id` gets name `name` and employee count `n`;
      the reply reports the ID and the new name. Nothing is re-validated. */
  function UpdateFirst(s: seq<Shop>, id: Str, name: Str, n: Int32): (r: Step)
    ensures |r.shops| == |s|
    ensures NoMatch(s, ById(id)) ==> r == Step(s, NotFound(NoShopWithId))
    ensures forall i :: IsFirstMatch(s, ById(id), i) ==>
      r.reply == OkUpdated(id, name) &&
      r.shops[i] == Shop(s[i].id, name, s[i].shopAddress, n) &&
      forall j :: 0 <= j < |s| && j != i ==> r.shops[j] == s[j]
  {
    match FirstIndex(s, ById(id))
    case None => Step(s, NotFound(NoShopWithId))
    case Some(i) =>
      var updated := s[i].(shopName := name, numberOfEmployees := n);
      Step(s[i := updated], OkUpdated(updated.id, updated.shopName))
  }

  /** `DeleteShop`: the first shop with ID `id` is removed and the others keep their
      order; the reply reports the deleted ID. */
  function RemoveFirst(s: seq<Shop>, id: Str): (r: Step)
    ensures NoMatch(s, ById(id)) ==> r == Step(s, NotFound(NoShopWithId))
    ensures forall i :: IsFirstMatch(s, ById(id), i) ==>
      r.reply == OkDeleted(id) &&
      |r.shops| == |s| - 1 &&
      (forall j :: 0 <= j < i ==> r.shops[j] == s[j]) &&
      (forall j :: i <= j < |r.shops| ==> r.shops[j] == s[j + 1])
  {
    match FirstIndex(s, ById(id))
    case None => Step(s, NotFound(NoShopWithId))
    case Some(i) => Step(s[..i] + s[i + 1..], OkDeleted(s[i].id))
  }

  /** After `Post(v)`, a lookup still finds what it found before; only a lookup that
      found nothing can now find `v`. In particular a posted shop whose ID is already
      in the table is shadowed by the older one for every ID-based endpoint. */
  lemma {:induction false} FindAfterPost(s: seq<Shop>, v: Shop, q: Query)
    ensures Find(s + [v], q) ==
      if Find(s, q).Some? then Find(s, q)
      else if Matches(q, v) then Some(v)
      else None
  {
    var t := s + [v];
    match FirstIndex(s, q)
    case Some(i) =>
      assert IsFirstMatch(t, q, i) by {
        assert forall j :: 0 <= j <= i ==> t[j] == s[j];
      }
    case None =>
      if Matches(q, v) {
        assert IsFirstMatch(t, q, |s|) by {
          assert forall j :: 0 <= j < |s| ==> t[j] == s[j];
        }
      } else {
        assert NoMatch(t, q) by {
          assert forall j :: 0 <= j < |s| ==> t[j] == s[j];
        }
      }
  }

  /** Posting a shop whose ID is already taken breaks ID uniqueness. */
  lemma PostDuplicateBreaksUniqueness(s: seq<Shop>, v: Shop, k: int)
    requires 0 <= k < |s| && s[k].id == v.id
    ensures !UniqueIds(s + [v])
  {
    var t := s + [v];
    assert t[k].id == t[|s|].id;
  }

  /** Two tables with the same IDs at the same positions. */
  predicate SameIds(s: seq<Shop>, t: seq<Shop>)
  {
    |s| == |t| && forall j :: 0 <= j < |s| ==> s[j].id == t[j].id
  }

  /** ID lookups depend only on the IDs. */
  lemma SameIdsSameFirstIndex(s: seq<Shop>, t: seq<Shop>, id: Str)
    requires SameIds(s, t)
    ensures FirstIndex(s, ById(id)) == FirstIndex(t, ById(id))
  {
    assert forall j :: 0 <= j < |s| ==> (Matches(ById(id), s[j]) <==> Matches(ById(id), t[j]));
    match FirstIndex(s, ById(id))
    case None =>
      assert NoMatch(t, ById(id));
    case Some(i) =>
      assert IsFirstMatch(t, ById(id), i);
      FirstMatchUnique(t, ById(id), i, FirstIndex(t, ById(id)).value);
  }

  /** Renaming keeps every ID in place. */
  lemma RenameKeepsIds(s: seq<Shop>, id: Str, name: Str)
    ensures SameIds(s, RenameFirst(s, id, name).shops)
  {
  }

  /** A full update keeps every ID in place. */
  lemma UpdateKeepsIds(s: seq<Shop>, id: Str, name: Str, n: Int32)
    ensures SameIds(s, UpdateFirst(s, id, name, n).shops)
  {
  }

  /** After a rename, looking the ID up finds the same shop with the new name. */
  lemma RenameThenFind(s: seq<Shop>, id: Str, name: Str)
    ensures Find(RenameFirst(s, id, name).shops, ById(id)) ==
      match Find(s, ById(id))
      case None => None
      case Some(shop) => Some(shop.(shopName := name))
  {
    var t := RenameFirst(s, id, name).shops;
    RenameKeepsIds(s, id, name);
    SameIdsSameFirstIndex(s, t, id);
  }

  /** After a full update, looking the ID up finds the same shop with the new name and
      employee count. */
  lemma UpdateThenFind(s: seq<Shop>, id: Str, name: Str, n: Int32)
    ensures Find(UpdateFirst(s, id, name, n).shops, ById(id)) ==
      match Find(s, ById(id))
      case None => None
      case Some(shop) => Some(shop.(shopName := name, numberOfEmployees := n))
  {
    var t := UpdateFirst(s, id, name, n).shops;
    UpdateKeepsIds(s, id, name, n);
    SameIdsSameFirstIndex(s, t, id);
  }

  /** Renaming twice with the same arguments is the same as renaming once. */
  lemma RenameIdempotent(s: seq<Shop>, id: Str, name: Str)
    ensures RenameFirst(RenameFirst(s, id, name).shops, id, name) == RenameFirst(s, id, name)
  {
    var t := RenameFirst(s, id, name).shops;
    RenameKeepsIds(s, id, name);
    SameIdsSameFirstIndex(s, t, id);
    match FirstIndex(s, ById(id))
    case None =>
    case Some(i) =>
      assert RenameFirst(t, id, name).shops == t;
  }

  /** A full update does not re-validate: a valid shop can be given a count of 250 or
      more, and any other name, and the update still succeeds. */
  lemma UpdateSkipsValidation(s: seq<Shop>, id: Str, name: Str, n: Int32, i: int)
    requires IsFirstMatch(s, ById(id), i)
    requires n >= MAX_EMPLOYEES
    ensures UpdateFirst(s, id, name, n).reply.OkUpdated?
    ensures !IsValid(UpdateFirst(s, id, name, n).shops[i])
  {
  }

  /** Delete removes exactly one occurrence of the found shop. */
  lemma RemoveIsMultisetDifference(s: seq<Shop>, id: Str, i: int)
    requires IsFirstMatch(s, ById(id), i)
    ensures multiset(RemoveFirst(s, id).shops) + multiset{s[i]} == multiset(s)
  {
    var t := RemoveFirst(s, id).shops;
    assert t == s[..i] + s[i + 1..];
    assert s == s[..i] + [s[i]] + s[i + 1..];
  }

  /** Every shop left after a delete was in the table at a position other than the
      deleted one. */
  lemma RemoveLeavesOthers(s: seq<Shop>, id: Str, i: int, j: int)
    requires IsFirstMatch(s, ById(id), i)
    requires 0 <= j < |RemoveFirst(s, id).shops|
    ensures exists k :: 0 <= k < |s| && k != i && RemoveFirst(s, id).shops[j] == s[k]
  {
    if j < i {
      assert RemoveFirst(s, id).shops[j] == s[j];
    } else {
      assert RemoveFirst(s, id).shops[j] == s[j + 1];
    }
  }

  /** Deleting keeps IDs unique. */
  lemma RemovePreservesUniqueIds(s: seq<Shop>, id: Str)
    requires UniqueIds(s)
    ensures UniqueIds(RemoveFirst(s, id).shops)
  {
    var t := RemoveFirst(s, id).shops;
    match FirstIndex(s, ById(id))
    case None =>
    case Some(i) =>
      forall a, b | 0 <= a < |t| && 0 <= b < |t| && t[a].id == t[b].id
        ensures a == b
      {
        var a' := if a < i then a else a + 1;
        var b' := if b < i then b else b + 1;
        assert t[a] == s[a'] && t[b] == s[b'];
      }
  }

  /** With unique IDs, deleting the same ID twice: the second delete answers 404 and
      leaves the table as the first one left it. */
  lemma DeleteTwiceNotFound(s: seq<Shop>, id: Str)
    requires UniqueIds(s)
    ensures var once := RemoveFirst(s, id).shops;
      RemoveFirst(once, id) == Step(once, NotFound(NoShopWithId))
  {
    var once := RemoveFirst(s, id).shops;
    match FirstIndex(s, ById(id))
    case None =>
    case Some(i) =>
      forall j | 0 <= j < |once|
        ensures !Matches(ById(id), once[j])
      {
        var k := if j < i then j else j + 1;
        assert once[j] == s[k];
      }
  }

  /** An ID no shop has: every ID-based endpoint answers 404 and changes nothing. */
  lemma AbsentIdNotFound(s: seq<Shop>, id: Str, name: Str, n: Int32)
    requires forall j :: 0 <= j < |s| ==> s[j].id != id
    ensures RenameFirst(s, id, name) == Step(s, NotFound(NoShopWithId))
    ensures UpdateFirst(s, id, name, n) == Step(s, NotFound(NoShopWithId))
    ensures RemoveFirst(s, id) == Step(s, NotFound(NoShopWithId))
  {
  }

  /** Looking up the name of any shop in the table succeeds, with a shop of that name
      no later in the table; when names are unique it is that very shop. */
  lemma FindByNameOfMember(s: seq<Shop>, k: int)
    requires 0 <= k < |s|
    ensures var r := FirstIndex(s, ByName(s[k].shopName));
      r.Some? && r.value <= k && s[r.value].shopName == s[k].shopName
    ensures (forall a, b :: 0 <= a < |s| && 0 <= b < |s| && s[a].shopName == s[b].shopName ==> a == b)
      ==> Find(s, ByName(s[k].shopName)) == Some(s[k])
  {
    var q := ByName(s[k].shopName);
    assert Matches(q, s[k]);
  }

  /** A null employee count never matches, so those lookups answer null. */
  lemma NullCountNeverMatches(s: seq<Shop>, address: Str)
    ensures Find(s, ByEmployees(None)) == None
    ensures Find(s, ByAddressAndEmployees(address, None)) == None
  {
  }
}
