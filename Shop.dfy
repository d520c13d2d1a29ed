/**
 * The Shop entity and the validation rules declared on it: `[Required]` on the ID and
 * the name, `[StringLength]` on the name and the address, and the custom
 * `EmployeeRangeForBusinessSize(250)` rule on the employee count.
 */
module Shops {
  import opened Wrappers

  /** C#'s `int`: the employee count is a 32-bit signed integer. */
  type Int32 = x: int | -0x8000_0000 <= x < 0x8000_0000

  /** A C# string reference, which may be null. */
  type Str = Option<string>

  datatype Shop = Shop(id: Str, shopName: Str, shopAddress: Str, numberOfEmployees: Int32)

  const NAME_MIN_LENGTH := 10
  const NAME_MAX_LENGTH := 250
  const ADDRESS_MAX_LENGTH := 350
  /** The argument of `EmployeeRangeForBusinessSize(250)`: the SME threshold. */
  const MAX_EMPLOYEES := 250

  /** The characters .NET's `char.IsWhiteSpace` accepts (Latin-1 controls and spaces,
      and the Unicode space, line and paragraph separators). */
  predicate IsWhiteSpace(c: char)
  {
    ('\t' <= c <= '\r') || c == ' ' || c == '\U{0085}' || c == '\U{00A0}' ||
    c == '\U{1680}' || ('\U{2000}' <= c <= '\U{200A}') || c == '\U{2028}' ||
    c == '\U{2029}' || c == '\U{202F}' || c == '\U{205F}' || c == '\U{3000}'
  }

  /** Empty or made only of white space. */
  predicate IsBlank(s: string)
  {
    forall k :: 0 <= k < |s| ==> IsWhiteSpace(s[k])
  }

  /** `[Required]` on a string: not null, not empty and not only white space. */
  predicate Required(s: Str)
  {
    s.Some? && !IsBlank(s.value)
  }

  /** `[StringLength(max, MinimumLength = min)]`: a null string passes; otherwise its
      length lies in the closed range [min, max]. */
  predicate StringLength(s: Str, min: nat, max: nat)
  {
    s.None? || min <= |s.value| <= max
  }

  /** `EmployeeRangeForBusinessSize.IsValid`: the count is strictly below the threshold. */
  predicate EmployeeRangeIsValid(value: int, maxEmployees: int)
  {
    value < maxEmployees
  }

  predicate IdValid(id: Str)
  {
    Required(id)
  }

  predicate NameValid(name: Str)
  {
    Required(name) && StringLength(name, NAME_MIN_LENGTH, NAME_MAX_LENGTH)
  }

  predicate AddressValid(address: Str)
  {
    StringLength(address, 0, ADDRESS_MAX_LENGTH)
  }

  predicate EmployeesValid(n: Int32)
  {
    EmployeeRangeIsValid(n, MAX_EMPLOYEES)
  }

  /** A shop every declared validation attribute accepts. */
  predicate IsValid(shop: Shop)
  {
    IdValid(shop.id) && NameValid(shop.shopName) &&
    AddressValid(shop.shopAddress) && EmployeesValid(shop.numberOfEmployees)
  }

  /** A name is accepted exactly when it is present, has a character that is not white
      space, and is 10 to 250 characters long. */
  lemma NameValidIff(name: Str)
    ensures NameValid(name) <==>
      (name.Some? && (exists k :: 0 <= k < |name.value| && !IsWhiteSpace(name.value[k])) &&
       10 <= |name.value| <= 250)
  {
  }

  /** The name bounds are inclusive at both ends: 10 and 250 pass, 9 and 251 fail. */
  lemma NameLengthBoundary(name: string)
    requires !IsBlank(name)
    ensures |name| == 10 || |name| == 250 ==> NameValid(Some(name))
    ensures |name| == 9 || |name| == 251 ==> !NameValid(Some(name))
  {
  }

  /** A missing or blank name fails even though `[StringLength]` lets a null through. */
  lemma NameRequired(name: Str)
    requires name.None? || IsBlank(name.value)
    ensures !NameValid(name)
  {
  }

  /** An address is optional; when present it has at most 350 characters. */
  lemma AddressBoundary(address: Str)
    ensures address.None? ==> AddressValid(address)
    ensures address.Some? ==> (AddressValid(address) <==> |address.value| <= 350)
  {
  }

  /** The business-size rule is strict: 249 passes, 250 fails. */
  lemma EmployeesBoundary()
    ensures EmployeesValid(249)
    ensures !EmployeesValid(250)
  {
  }
}
