# Shop REST example: a Dafny model of the in-memory shop table

The repository is a small ASP.NET Core service over one resource, the Shop. A static
list of shops, seeded with four entries, is the whole store. The endpoints create a
shop, list all shops, look a shop up by name, by employee count or by address and
employee count, rename a shop, update its name and employee count, and delete it.
Every lookup and every ID-based mutation acts on the first shop that matches exactly.
The validation rules are declared as attributes on the Shop class: the ID is required,
the name is required and 10 to 250 characters long, the address has at most 350
characters, and the employee count is below 250 (the SME threshold).

The model has five files:

- `Wrappers.dfy`: `Option`, which stands for C#'s null references and `int?`.
- `Shop.dfy` (module `Shops`): the `Shop` datatype and the validation rules as
  predicates, with boundary lemmas. A C# string that may be null is `Str =
  Option<string>`. The employee count is the subset type `Int32`.
- `ShopTable.dfy` (module `ShopTable`): the table as a `seq<Shop>`. It holds the one
  exact-match predicate behind all lookups (`Query`, `Matches`), the first-match
  position (`FirstIndex`) and `Find`, which is `FirstOrDefault`. It gives each
  mutating endpoint's effect as a pure function of the old table (`RenameFirst`,
  `UpdateFirst`, `RemoveFirst`). The lemmas relating the operations are proved here.
- `ShopController.dfy` (module `ShopApi`): class `ShopController`, whose field
  `shops` the endpoints change in place. Each mutating method is proved to leave
  exactly the table its ShopTable function gives. Each lookup method states its
  first-match answer directly.
- `Scenarios.dfy` (module `ShopScenarios`): the seed table and worked scenarios.

Modelling decisions:

- An `IActionResult` is the datatype `Reply`. A 200 carries a shop, the list, or the
  confirmation message kept as the ID and name it reports. A 404 carries which of the
  two not-found messages it is. Endpoints that return a bare `Shop` return
  `Option<Shop>`, where `None` is the null body.
- C#'s `p.NumberOfEmployees == numberOfEmployees` compares an `int` with an `int?`,
  and it is false when the nullable side is null. So a null count matches no shop.
- In `GetRouteAndQuery` the source joins the two tests with the non-short-circuit
  `&`. Both operands are side-effect free booleans, so the model uses their
  conjunction.
- `[Required]` on a string rejects null, the empty string and a string of only
  white space, as .NET's `RequiredAttribute` does by default. White space is the set
  of characters .NET's `char.IsWhiteSpace` accepts. `[StringLength]` accepts null.
- `DeleteShop` calls `List.Remove` on the object it found. That removes the element
  at the found position, because every earlier element has another ID and so is
  another object. The model removes that position.
- IDs are used as keys by the update and delete endpoints, but the code does not
  enforce uniqueness: `Post` appends any shop (ShopController.cs:67), and every
  ID-based endpoint acts on the first match only. `UniqueIds` is a predicate the seed
  satisfies and deletion preserves, and `Post` can break it.
- The static list is the field `shops` of one `ShopController` object, which stands
  for the whole process. Constructing that object is process start (the static
  initializer), not the per-request controller ASP.NET creates.

## Model

| member | source | states |
|---|---|---|
| Shops.IsWhiteSpace | RestExample/Controllers/ShopController.cs:11-13 | the characters .NET's white-space test accepts, which `[Required]` uses to reject blank strings |
| Shops.IsBlank | RestExample/Controllers/ShopController.cs:11-13 | a string is blank when it is empty or every character is white space |
| Shops.Required | RestExample/Controllers/ShopController.cs:11-13 | `[Required]` on a string: not null and not blank |
| Shops.StringLength | RestExample/Controllers/ShopController.cs:14-17 | `[StringLength]`: null passes; otherwise the length lies in the closed range [min, max] |
| Shops.EmployeeRangeIsValid | RestExample/Controllers/ShopController.cs:36-42 | the custom rule passes exactly when the count is strictly below the threshold |
| Shops.IdValid | RestExample/Controllers/ShopController.cs:11-12 | the ID rule is `[Required]` alone |
| Shops.NameValid | RestExample/Controllers/ShopController.cs:13-15 | the name rule is `[Required]` together with a length in [10, 250] |
| Shops.AddressValid | RestExample/Controllers/ShopController.cs:17-18 | the address rule is a length of at most 350, with null allowed |
| Shops.EmployeesValid | RestExample/Controllers/ShopController.cs:20-21 | the employee rule is the custom rule with threshold 250 |
| Shops.IsValid | RestExample/Controllers/ShopController.cs:11-21 | a shop every declared validation attribute accepts: all four property rules hold |
| ShopTable.CountEquals | RestExample/Controllers/ShopController.cs:111 | C#'s lifted `int == int?`: true only when the nullable side is present and equal |
| ShopTable.Matches | RestExample/Controllers/ShopController.cs:91-183 | the exact-match predicates of the lookups: name, ID, employee count, and address with employee count |
| ShopTable.UniqueIds | RestExample/Controllers/ShopController.cs:50-67 | no two shops share an ID; the seed satisfies it and `Post` does not enforce it |
| Shops.NameValidIff | RestExample/Controllers/ShopController.cs:13-15 | a name is accepted exactly when it is non-null, has a non-white-space character, and has length in [10, 250] |
| Shops.NameLengthBoundary | RestExample/Controllers/ShopController.cs:14-15 | a non-blank name of length 10 or 250 is accepted; one of length 9 or 251 is rejected |
| Shops.NameRequired | RestExample/Controllers/ShopController.cs:13-15 | a null or blank name is rejected, although the length rule alone lets null through |
| Shops.AddressBoundary | RestExample/Controllers/ShopController.cs:17-18 | a null address is accepted; a present one is accepted exactly when it has at most 350 characters |
| Shops.EmployeesBoundary | RestExample/Controllers/ShopController.cs:20-42 | the business-size rule with threshold 250 is strict: 249 passes and 250 fails |
| ShopTable.FirstIndex | RestExample/Controllers/ShopController.cs:91 | the returned position holds a matching shop and no earlier shop matches; no position means no shop matches |
| ShopTable.FirstMatchUnique | RestExample/Controllers/ShopController.cs:91 | there is at most one first match, so first-match answers are determined |
| ShopTable.Find | RestExample/Controllers/ShopController.cs:109-126 | `FirstOrDefault` answers null exactly when nothing matches, and otherwise the shop at the first matching position |
| ShopTable.Seed | RestExample/Controllers/ShopController.cs:50-55 | the table starts with four shops whose IDs are "1" to "4" in order, hence unique |
| ShopTable.RenameFirst | RestExample/Controllers/ShopController.cs:134-143 | with no shop of that ID: 404 and the table unchanged; otherwise only the first such shop's name changes, its other fields and all other shops and the length stay, and the reply carries the ID and new name |
| ShopTable.UpdateFirst | RestExample/Controllers/ShopController.cs:158-168 | as RenameFirst, but the first such shop's name and employee count are both overwritten |
| ShopTable.RemoveFirst | RestExample/Controllers/ShopController.cs:183-192 | with no shop of that ID: 404 and the table unchanged; otherwise the length drops by one, the shops before the first match stay and those after it shift down by one in order, and the reply carries the ID |
| ShopTable.FindAfterPost | RestExample/Controllers/ShopController.cs:65-69 | after appending a shop, every lookup finds what it found before; only a lookup that found nothing can find the new shop, so a duplicate ID is shadowed by the older shop |
| ShopTable.PostDuplicateBreaksUniqueness | RestExample/Controllers/ShopController.cs:65-69 | posting a shop whose ID is taken leaves two shops with that ID, since nothing checks uniqueness |
| ShopTable.SameIdsSameFirstIndex | RestExample/Controllers/ShopController.cs:134 | ID lookups depend only on the IDs at each position |
| ShopTable.RenameKeepsIds | RestExample/Controllers/ShopController.cs:137 | a rename leaves every ID at its position |
| ShopTable.UpdateKeepsIds | RestExample/Controllers/ShopController.cs:161-162 | a full update leaves every ID at its position |
| ShopTable.RenameThenFind | RestExample/Controllers/ShopController.cs:130-150 | after a rename, looking up that ID finds the same shop with the new name, or nothing if it was absent |
| ShopTable.UpdateThenFind | RestExample/Controllers/ShopController.cs:154-175 | after a full update, looking up that ID finds the same shop with the new name and count, or nothing if it was absent |
| ShopTable.RenameIdempotent | RestExample/Controllers/ShopController.cs:130-150 | renaming twice with the same arguments gives the same table and reply as renaming once |
| ShopTable.UpdateSkipsValidation | RestExample/Controllers/ShopController.cs:158-163 | an update with a count of 250 or more succeeds and stores a shop the validation rules reject |
| ShopTable.RemoveIsMultisetDifference | RestExample/Controllers/ShopController.cs:183-187 | a delete removes exactly one occurrence of the found shop |
| ShopTable.RemoveLeavesOthers | RestExample/Controllers/ShopController.cs:183-187 | every shop left after a delete was at some other position of the old table |
| ShopTable.RemovePreservesUniqueIds | RestExample/Controllers/ShopController.cs:179-198 | deleting keeps IDs unique |
| ShopTable.DeleteTwiceNotFound | RestExample/Controllers/ShopController.cs:179-198 | with unique IDs, a second delete of the same ID answers 404 and changes nothing |
| ShopTable.AbsentIdNotFound | RestExample/Controllers/ShopController.cs:130-198 | for an ID no shop has, rename, update and delete all answer 404 and leave the table unchanged |
| ShopTable.FindByNameOfMember | RestExample/Controllers/ShopController.cs:91-98 | looking up the name of any shop in the table succeeds with a shop of that name at the same or an earlier position, and with unique names it is that shop |
| ShopTable.NullCountNeverMatches | RestExample/Controllers/ShopController.cs:109-126 | a null employee count makes the count lookups answer null |
| ShopApi.ShopController.constructor | RestExample/Controllers/ShopController.cs:50-55 | the shared table starts as the four seed shops |
| ShopApi.ShopController.Post | RestExample/Controllers/ShopController.cs:65-69 | the shop is appended at the end, unchecked, and echoed back |
| ShopApi.ShopController.GetAllShops | RestExample/Controllers/ShopController.cs:73-83 | answers 200 with the whole table in order |
| ShopApi.ShopController.GetShopsByName | RestExample/Controllers/ShopController.cs:87-105 | answers the shop at the first position whose name equals the argument, and 404 "no shop with this name" exactly when none does |
| ShopApi.ShopController.GetQuery | RestExample/Controllers/ShopController.cs:109-112 | answers the first shop with that employee count, null exactly when none has it, and null for a null count |
| ShopApi.ShopController.GetRoute | RestExample/Controllers/ShopController.cs:116-119 | the same answers as GetQuery, with the count bound from the route |
| ShopApi.ShopController.GetRouteAndQuery | RestExample/Controllers/ShopController.cs:123-126 | answers the first shop matching both address and count; the answer has that address and count; null exactly when none matches |
| ShopApi.ShopController.UpdateShopName | RestExample/Controllers/ShopController.cs:130-150 | the new table and reply are those RenameFirst gives for the old table |
| ShopApi.ShopController.UpdateShop | RestExample/Controllers/ShopController.cs:154-175 | the new table and reply are those UpdateFirst gives for the old table |
| ShopApi.ShopController.DeleteShop | RestExample/Controllers/ShopController.cs:179-198 | the new table and reply are those RemoveFirst gives for the old table |
| ShopApi.DeleteTwiceClient | RestExample/Controllers/ShopController.cs:179-198 | through the class alone: with unique IDs, the second delete of an ID answers 404, and the table shrinks only if the first one succeeded |
| ShopScenarios.SeedIsValid | RestExample/Controllers/ShopController.cs:50-55 | every seed shop passes the validation rules |
| ShopScenarios.SeedFindByName | RestExample/Controllers/ShopController.cs:91 | "Kardesler Bakkal" finds shop "1" at "Izmir/Buca" with 3 employees |
| ShopScenarios.SeedFindByAddressAndCount | RestExample/Controllers/ShopController.cs:125 | ("Izmir/Buca", 2) skips shop "1" and finds shop "2" |
| ShopScenarios.SeedFindByCountFirstWins | RestExample/Controllers/ShopController.cs:111 | shops "1" and "4" both have 3 employees, and the lookup answers shop "1" |
| ShopScenarios.SeedUpdateShop | RestExample/Controllers/ShopController.cs:158-163 | updating "2" to ("New Name", 10) confirms that ID and name, a lookup of "2" shows both values, and the stored 8-character name fails validation |
| ShopScenarios.SeedDeleteAbsent | RestExample/Controllers/ShopController.cs:183-191 | deleting "99" answers 404 and leaves the four shops |
| ShopScenarios.ControllerScenario | RestExample/Controllers/ShopController.cs:50-198 | on a fresh controller: name lookup, update of "2", delete of "2", then a second delete answering 404 |

## Left out

- HTTP routing, parameter binding and status codes: endpoints are methods, replies are the `Reply` datatype, and a count that fails to bind is not modelled.
- The `try`/`catch` branches that answer 500: nothing in the in-memory code throws, and the message text comes from the runtime.
- When ASP.NET runs the validation attributes, and the error messages it reports: the rules are predicates, and `Post` does not check them, as its body does not.
- A null request body and a null element in the list: `Post` takes a non-null `Shop`.
- The text of the confirmation and not-found messages: kept as the ID and name they report, or as which of the two 404 messages.
- Thread safety of the shared static list: calls are sequential.
- Nullable reference-type annotations: if the project enables them, ASP.NET also treats the non-nullable `string` properties as required, which would reject a null address; the model follows the declared attributes only.
- Object identity: the list holds values, so `Post` returning the same object and updates through a reference are modelled by value.
- String lengths count Dafny characters (Unicode scalar values), while .NET counts UTF-16 code units, so a character outside the Basic Multilingual Plane counts 1 here and 2 there.
