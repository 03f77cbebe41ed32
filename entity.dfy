/** The `SwiftCode` entity: one row of the `swift_codes` table, and the classification derived from its code. */
module Entity {
  import opened Wrappers
  import opened Text

  /**
   * A stored row. `swiftCode` is the primary key; `headquarter` is the join column
   * `headquarter_swift`, i.e. the code of the referenced headquarters (null = orphan).
   * `bankName` and `address` may be null in Java; the other columns are always set by the
   * code paths modelled here.
   */
  datatype Entry = Entry(
    swiftCode: string,
    bankName: Option<string>,
    address: Option<string>,
    countryISO2: string,
    countryName: string,
    headquarterFlag: bool,
    headquarter: Option<string>)

  /** A `SwiftCode` as bound from a JSON request body: any field the client leaves out is null. */
  datatype Request = Request(
    swiftCode: Option<string>,
    bankName: Option<string>,
    address: Option<string>,
    countryISO2: Option<string>,
    countryName: Option<string>)

  /** The mutable JPA entity; its fields are changed in place through setters. */
  class SwiftCode {
    var swiftCode: string
    var bankName: Option<string>
    var address: Option<string>
    var countryISO2: string
    var countryName: string
    var headquarterFlag: bool
    var headquarter: Option<string>

    /** The six-argument constructor: every field as passed, the flag as the caller decides, no headquarter. */
    constructor (swiftCode: string, bankName: Option<string>, address: Option<string>,
                 countryISO2: string, countryName: string, isHeadquarter: bool)
      ensures this.swiftCode == swiftCode && this.bankName == bankName && this.address == address
      ensures this.countryISO2 == countryISO2 && this.countryName == countryName
      ensures this.headquarterFlag == isHeadquarter
      ensures this.headquarter == None
    {
      this.swiftCode := swiftCode;
      this.bankName := bankName;
      this.address := address;
      this.countryISO2 := countryISO2;
      this.countryName := countryName;
      this.headquarterFlag := isHeadquarter;
      this.headquarter := None;
    }

    /** The row that `save(this)` writes. */
    function Row(): Entry
      reads this
    {
      Entry(swiftCode, bankName, address, countryISO2, countryName, headquarterFlag, headquarter)
    }

    method SetHeadquarter(hq: Option<string>)
      modifies this
      ensures headquarter == hq
      ensures Row() == old(Row()).(headquarter := hq)
    {
      headquarter := hq;
    }
  }

  /** Length of the institution prefix shared by a headquarters and its branches. */
  const PrefixLength := 8

  /** `code.endsWith("XXX")`: the code names a headquarters. */
  predicate IsHeadquarterCode(code: string)
  {
    EndsWith(code, "XXX")
  }

  /** `code.substring(0, 8)`. */
  function Prefix(code: string): (p: string)
    requires |code| >= PrefixLength
    ensures |p| == PrefixLength && StartsWith(code, p)
  {
    code[..PrefixLength]
  }

  /** The only code a branch looks up as its headquarters: `prefix + "XXX"`. */
  function ExpectedHeadquarter(code: string): (h: string)
    requires |code| >= PrefixLength
    ensures |h| == 11 && IsHeadquarterCode(h) && Prefix(h) == Prefix(code)
  {
    Prefix(code) + "XXX"
  }

  /**
   * For an 11-character headquarters the two linking rules agree: a code starts with the
   * headquarters' prefix exactly when that headquarters is the code's expected headquarters.
   */
  lemma ElevenCharHeadquartersAgree(hq: string, code: string)
    requires |hq| == 11 && IsHeadquarterCode(hq) && |code| >= PrefixLength
    ensures StartsWith(code, Prefix(hq)) <==> ExpectedHeadquarter(code) == hq
  {
    assert hq == hq[..8] + hq[8..];
    if StartsWith(code, Prefix(hq)) {
      assert Prefix(code) == Prefix(hq);
    }
    if ExpectedHeadquarter(code) == hq {
      assert Prefix(code) == ExpectedHeadquarter(code)[..8];
    }
  }
}
