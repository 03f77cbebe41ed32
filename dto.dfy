/** The response objects of the detail endpoint and their address placeholder rule. */
module Dto {
  import opened Wrappers
  import opened Text
  import opened Entity

  /** What `getAddress` shows for a null or blank address (spelling as in the source). */
  const NoAddress := "No address avaliable"

  /** The `getAddress` rule of both DTOs: a null or blank address shows the placeholder, any other is shown untouched. */
  function DisplayAddress(address: Option<string>): (r: string)
    ensures address.Some? && !IsBlank(address.value) ==> r == address.value
    ensures address.None? || IsBlank(address.value) ==> r == NoAddress
  {
    if address.None? || IsBlank(address.value) then NoAddress else address.value
  }

  /** `SWIFTCodeDTO`: one code without its branches. */
  datatype SwiftCodeDto = SwiftCodeDto(
    address: Option<string>,
    bankName: Option<string>,
    countryISO2: string,
    countryName: string,
    isHeadquarter: bool,
    swiftCode: string)
  {
    function GetAddress(): string
    {
      DisplayAddress(address)
    }
  }

  /** `SwiftCodeWithBranchesDTO`: a headquarters with the branches the caller listed, in the caller's order. */
  datatype SwiftCodeWithBranchesDto = SwiftCodeWithBranchesDto(
    address: Option<string>,
    bankName: Option<string>,
    countryISO2: string,
    countryName: string,
    isHeadquarter: bool,
    swiftCode: string,
    branches: seq<SwiftCodeDto>)
  {
    function GetAddress(): string
    {
      DisplayAddress(address)
    }
  }

  /** The DTO a controller builds from a row: the row's fields, copied. */
  function ToDto(e: Entry): SwiftCodeDto
  {
    SwiftCodeDto(e.address, e.bankName, e.countryISO2, e.countryName, e.headquarterFlag, e.swiftCode)
  }

  /** The DTOs of a list of rows, one for one and in the same order. */
  function Dtos(list: seq<Entry>): (r: seq<SwiftCodeDto>)
    ensures |r| == |list|
    ensures forall i :: 0 <= i < |list| ==> r[i] == ToDto(list[i])
  {
    seq(|list|, i requires 0 <= i < |list| => ToDto(list[i]))
  }

  /** The displayed address is never blank, so a client always sees some text. */
  lemma DisplayedAddressNeverBlank(address: Option<string>)
    ensures !IsBlank(DisplayAddress(address))
  {
    var r := DisplayAddress(address);
    if r == NoAddress {
      assert !IsTrimmable(r[0]);
    }
  }

  /** A non-blank address is shown as stored, surrounding spaces included; a blank one is replaced. */
  lemma AddressExamples()
    ensures DisplayAddress(Some(" Warsaw ")) == " Warsaw "
    ensures DisplayAddress(Some("   ")) == NoAddress
    ensures DisplayAddress(None) == NoAddress
  {
    assert !IsTrimmable(" Warsaw "[1]);
  }
}
