/**
 * `SWIFTCodeService` of the orphan-tolerant application: the country table and the store
 * operations the controller builds on.
 */
module InternService {
  import opened Wrappers
  import opened Text
  import opened Entity
  import opened Repository
  import opened Linking

  /**
   * `COUNTRY_NAME_MAP`: ISO2 code to canonical upper-case country name. Every key of the
   * table is two upper-case letters, so it is written as a lookup on the two characters of
   * the code, one line per entry in the source's order (`Map.ofEntries` rejects repeated
   * keys, so no two lines share a key).
   */
  function CountryName(iso2: string): (name: Option<string>)
    ensures name.Some? ==> |iso2| == 2 && IsUpper(iso2) && IsAlnumWord(iso2)
  {
    if |iso2| == 2 then TableEntry(iso2[0], iso2[1]) else None
  }

  function TableEntry(a: char, b: char): (name: Option<string>)
    ensures name.Some? ==> 'A' <= a <= 'Z' && 'A' <= b <= 'Z'
  {
    if a == 'A' && b == 'F' then Some("AFGHANISTAN")
    else if a == 'A' && b == 'L' then Some("ALBANIA")
    else if a == 'D' && b == 'Z' then Some("ALGERIA")
    else if a == 'A' && b == 'D' then Some("ANDORRA")
    else if a == 'A' && b == 'O' then Some("ANGOLA")
    else if a == 'A' && b == 'R' then Some("ARGENTINA")
    else if a == 'A' && b == 'M' then Some("ARMENIA")
    else if a == 'A' && b == 'U' then Some("AUSTRALIA")
    else if a == 'A' && b == 'T' then Some("AUSTRIA")
    else if a == 'A' && b == 'Z' then Some("AZERBAIJAN")
    else if a == 'B' && b == 'H' then Some("BAHRAIN")
    else if a == 'B' && b == 'D' then Some("BANGLADESH")
    else if a == 'B' && b == 'Y' then Some("BELARUS")
    else if a == 'B' && b == 'E' then Some("BELGIUM")
    else if a == 'B' && b == 'Z' then Some("BELIZE")
    else if a == 'B' && b == 'J' then Some("BENIN")
    else if a == 'B' && b == 'O' then Some("BOLIVIA")
    else if a == 'B' && b == 'A' then Some("BOSNIA AND HERZEGOVINA")
    else if a == 'B' && b == 'R' then Some("BRAZIL")
    else if a == 'B' && b == 'G' then Some("BULGARIA")
    else if a == 'C' && b == 'A' then Some("CANADA")
    else if a == 'C' && b == 'L' then Some("CHILE")
    else if a == 'C' && b == 'N' then Some("CHINA")
    else if a == 'C' && b == 'O' then Some("COLOMBIA")
    else if a == 'H' && b == 'R' then Some("CROATIA")
    else if a == 'C' && b == 'U' then Some("CUBA")
    else if a == 'C' && b == 'Y' then Some("CYPRUS")
    else if a == 'C' && b == 'Z' then Some("CZECH REPUBLIC")
    else if a == 'D' && b == 'K' then Some("DENMARK")
    else if a == 'D' && b == 'O' then Some("DOMINICAN REPUBLIC")
    else if a == 'E' && b == 'C' then Some("ECUADOR")
    else if a == 'E' && b == 'G' then Some("EGYPT")
    else if a == 'E' && b == 'E' then Some("ESTONIA")
    else if a == 'F' && b == 'I' then Some("FINLAND")
    else if a == 'F' && b == 'R' then Some("FRANCE")
    else if a == 'G' && b == 'E' then Some("GEORGIA")
    else if a == 'D' && b == 'E' then Some("GERMANY")
    else if a == 'G' && b == 'R' then Some("GREECE")
    else if a == 'G' && b == 'T' then Some("GUATEMALA")
    else if a == 'H' && b == 'N' then Some("HONDURAS")
    else if a == 'H' && b == 'K' then Some("HONG KONG")
    else if a == 'H' && b == 'U' then Some("HUNGARY")
    else if a == 'I' && b == 'S' then Some("ICELAND")
    else if a == 'I' && b == 'N' then Some("INDIA")
    else if a == 'I' && b == 'D' then Some("INDONESIA")
    else if a == 'I' && b == 'R' then Some("IRAN")
    else if a == 'I' && b == 'E' then Some("IRELAND")
    else if a == 'I' && b == 'L' then Some("ISRAEL")
    else if a == 'I' && b == 'T' then Some("ITALY")
    else if a == 'J' && b == 'P' then Some("JAPAN")
    else if a == 'K' && b == 'Z' then Some("KAZAKHSTAN")
    else if a == 'K' && b == 'E' then Some("KENYA")
    else if a == 'K' && b == 'R' then Some("SOUTH KOREA")
    else if a == 'K' && b == 'W' then Some("KUWAIT")
    else if a == 'L' && b == 'V' then Some("LATVIA")
    else if a == 'L' && b == 'B' then Some("LEBANON")
    else if a == 'L' && b == 'T' then Some("LITHUANIA")
    else if a == 'L' && b == 'U' then Some("LUXEMBOURG")
    else if a == 'M' && b == 'Y' then Some("MALAYSIA")
    else if a == 'M' && b == 'X' then Some("MEXICO")
    else if a == 'M' && b == 'A' then Some("MOROCCO")
    else if a == 'N' && b == 'L' then Some("NETHERLANDS")
    else if a == 'N' && b == 'Z' then Some("NEW ZEALAND")
    else if a == 'N' && b == 'G' then Some("NIGERIA")
    else if a == 'N' && b == 'O' then Some("NORWAY")
    else if a == 'P' && b == 'K' then Some("PAKISTAN")
    else if a == 'P' && b == 'A' then Some("PANAMA")
    else if a == 'P' && b == 'E' then Some("PERU")
    else if a == 'P' && b == 'H' then Some("PHILIPPINES")
    else if a == 'P' && b == 'L' then Some("POLAND")
    else if a == 'P' && b == 'T' then Some("PORTUGAL")
    else if a == 'Q' && b == 'A' then Some("QATAR")
    else if a == 'R' && b == 'O' then Some("ROMANIA")
    else if a == 'R' && b == 'U' then Some("RUSSIA")
    else if a == 'S' && b == 'A' then Some("SAUDI ARABIA")
    else if a == 'R' && b == 'S' then Some("SERBIA")
    else if a == 'S' && b == 'G' then Some("SINGAPORE")
    else if a == 'S' && b == 'K' then Some("SLOVAKIA")
    else if a == 'S' && b == 'I' then Some("SLOVENIA")
    else if a == 'Z' && b == 'A' then Some("SOUTH AFRICA")
    else if a == 'E' && b == 'S' then Some("SPAIN")
    else if a == 'S' && b == 'E' then Some("SWEDEN")
    else if a == 'C' && b == 'H' then Some("SWITZERLAND")
    else if a == 'T' && b == 'H' then Some("THAILAND")
    else if a == 'T' && b == 'N' then Some("TUNISIA")
    else if a == 'T' && b == 'R' then Some("TURKEY")
    else if a == 'U' && b == 'A' then Some("UKRAINE")
    else if a == 'A' && b == 'E' then Some("UNITED ARAB EMIRATES")
    else if a == 'G' && b == 'B' then Some("UNITED KINGDOM")
    else if a == 'U' && b == 'S' then Some("UNITED STATES")
    else if a == 'U' && b == 'Y' then Some("URUGUAY")
    else if a == 'U' && b == 'Z' then Some("UZBEKISTAN")
    else if a == 'V' && b == 'N' then Some("VIETNAM")
    else if a == 'Y' && b == 'E' then Some("YEMEN")
    else if a == 'Z' && b == 'W' then Some("ZIMBABWE")
    else if a == 'M' && b == 'C' then Some("MONACO")
    else if a == 'A' && b == 'S' then Some("AMERICAN SAMOA")
    else if a == 'A' && b == 'I' then Some("ANGUILLA")
    else if a == 'A' && b == 'Q' then Some("ANTARCTICA")
    else if a == 'A' && b == 'G' then Some("ANTIGUA AND BARBUDA")
    else if a == 'A' && b == 'W' then Some("ARUBA")
    else if a == 'B' && b == 'S' then Some("BAHAMAS (THE)")
    else if a == 'B' && b == 'B' then Some("BARBADOS")
    else if a == 'B' && b == 'M' then Some("BERMUDA")
    else if a == 'B' && b == 'T' then Some("BHUTAN")
    else if a == 'B' && b == 'Q' then Some("BONAIRE, SINT EUSTATIUS AND SABA")
    else if a == 'B' && b == 'W' then Some("BOTSWANA")
    else if a == 'B' && b == 'N' then Some("BRUNEI DARUSSALAM")
    else if a == 'K' && b == 'H' then Some("CAMBODIA")
    else if a == 'M' && b == 'T' then Some("MALTA")
    else None
  }

  /** Sentinel name of an unknown country. */
  const UnknownCountry := "UNKNOWN"

  /** `isValidCountryCode`: exact, case-sensitive key membership. */
  predicate IsValidCountryCode(iso2: string)
    // the check is case-sensitive: only two upper-case letters can pass
    ensures IsValidCountryCode(iso2) ==> |iso2| == 2 && IsUpper(iso2) && IsAlnumWord(iso2)
  {
    CountryName(iso2).Some?
  }

  /** `getCorrectCountryName`: the table's name for a key, "UNKNOWN" for anything else. */
  function GetCorrectCountryName(iso2: string): (name: string)
    ensures IsValidCountryCode(iso2) ==> name == CountryName(iso2).value
    ensures !IsValidCountryCode(iso2) ==> name == UnknownCountry
  {
    match CountryName(iso2)
    case Some(n) => n
    case None => UnknownCountry
  }

  /** The sentinel is no country's name, so "UNKNOWN" answers exactly the codes outside the table. */
  lemma UnknownIsNotACountry(iso2: string)
    ensures CountryName(iso2) != Some(UnknownCountry)
    ensures IsValidCountryCode(iso2) <==> GetCorrectCountryName(iso2) != UnknownCountry
  {
  }

  /** `isValidCountryCode` is exact and case-sensitive: callers must upper-case first. */
  lemma ValidCountryCodeExamples()
    ensures IsValidCountryCode("PL") && IsValidCountryCode("MT") && IsValidCountryCode("MC")
    ensures !IsValidCountryCode("pl") && !IsValidCountryCode("ZZ") && !IsValidCountryCode("")
  {
  }

  /** `getCorrectCountryName` gives the canonical name of a key and "UNKNOWN" for anything else. */
  lemma CountryNameExamples()
    ensures GetCorrectCountryName("PL") == "POLAND"
    ensures GetCorrectCountryName("XX") == UnknownCountry
    ensures GetCorrectCountryName("pl") == UnknownCountry
    ensures GetCorrectCountryName("") == UnknownCountry
  {
  }

  // ---------------------------------------------------------------------------------------
  // Store operations

  /** `getSwiftCodeDetails`: the lookup is by the upper-cased code. */
  method GetSwiftCodeDetails(repo: Repo, swiftCode: string) returns (r: Option<Entry>)
    requires repo.Valid()
    ensures r.Some? <==> ToUpper(swiftCode) in repo.rows
    ensures r.Some? ==> r.value == repo.rows[ToUpper(swiftCode)] && r.value.swiftCode == ToUpper(swiftCode)
  {
    r := repo.FindById(ToUpper(swiftCode));
  }

  /** `existsBySwiftCode`: membership of the upper-cased code. */
  method ExistsBySwiftCode(repo: Repo, swiftCode: string) returns (b: bool)
    ensures b <==> ToUpper(swiftCode) in repo.rows
  {
    b := repo.ExistsById(ToUpper(swiftCode));
  }

  /** `getBranchesForHeadquarter`: every row whose join column is the given code, as passed. */
  method GetBranchesForHeadquarter(repo: Repo, headquarterSwift: string) returns (list: seq<Entry>)
    requires repo.Valid()
    ensures Enumerates(list, repo.rows, LinkedTo(repo.rows, headquarterSwift))
  {
    list := repo.FindByHeadquarter(headquarterSwift);
  }

  /** `findBranchesByPrefix`: the non-headquarters rows whose code starts with `prefix`. */
  method FindBranchesByPrefix(repo: Repo, prefix: string) returns (list: seq<Entry>)
    requires repo.Valid()
    ensures Enumerates(list, repo.rows, BranchesStartingWith(repo.rows, prefix))
  {
    list := repo.FindBySwiftCodeStartingWithAndHeadquarterFlagFalse(prefix);
  }

  /** `getSwiftCodesByCountry`: the rows whose ISO2 equals the argument ignoring case. */
  method GetSwiftCodesByCountry(repo: Repo, countryISO2: string) returns (list: seq<Entry>)
    requires repo.Valid()
    ensures Enumerates(list, repo.rows, InCountry(repo.rows, countryISO2))
  {
    list := repo.FindByCountryISO2IgnoreCase(countryISO2);
  }

  /**
   * `saveSwiftCode`: upper-cases the entity's code in place, throws on a duplicate without
   * saving, links the orphans of a headquarters one by one, then saves the entity.
   */
  method SaveSwiftCode(repo: Repo, swiftCode: SwiftCode) returns (thrown: Option<SaveError>)
    requires repo.Valid()
    modifies repo, swiftCode
    ensures repo.Valid()
    ensures swiftCode.Row() == old(swiftCode.Row()).(swiftCode := ToUpper(old(swiftCode.swiftCode)))
    ensures match Saved(old(repo.rows), swiftCode.Row())
            case Success(rows) => thrown == None && repo.rows == rows
            case Failure(e) => thrown == Some(e) && repo.rows == old(repo.rows)
  {
    var swiftUpper := ToUpper(swiftCode.swiftCode);
    swiftCode.swiftCode := swiftUpper;
    var duplicate := repo.ExistsById(swiftUpper);
    if duplicate {
      return Some(DuplicateCode);
    }
    if swiftCode.headquarterFlag {
      if |swiftUpper| < PrefixLength {
        return Some(PrefixOutOfRange);
      }
      var orphanBranches := repo.FindByHeadquarterIsNullAndSwiftCodeStartingWith(swiftUpper[..PrefixLength]);
      ghost var rows0 := repo.rows;
      var i := 0;
      while i < |orphanBranches|
        modifies repo
        invariant 0 <= i <= |orphanBranches|
        invariant repo.Valid()
        invariant repo.rows == Relink(rows0, Codes(orphanBranches[..i]), Some(swiftUpper))
      {
        var branch := orphanBranches[i];
        CodesPrefix(orphanBranches, i);
        RelinkStep(rows0, Codes(orphanBranches[..i]), branch.swiftCode, Some(swiftUpper));
        repo.Save(branch.(headquarter := Some(swiftUpper)));
        i := i + 1;
      }
      assert orphanBranches[..i] == orphanBranches;
    }
    repo.Save(swiftCode.Row());
    thrown := None;
  }

  /**
   * `deleteSwiftCode`: false for an absent code (looked up as passed); otherwise a
   * headquarters' dependants are unlinked and saved one by one, then the row is deleted.
   */
  method DeleteSwiftCode(repo: Repo, swiftCode: string) returns (deleted: bool)
    requires repo.Valid()
    modifies repo
    ensures repo.Valid()
    ensures deleted <==> swiftCode in old(repo.rows)
    ensures repo.rows == Deleted(old(repo.rows), swiftCode)
  {
    var optional := repo.FindById(swiftCode);
    if optional.None? {
      return false;
    }
    var codeToDelete := optional.value;
    if codeToDelete.headquarterFlag {
      var branches := repo.FindByHeadquarter(codeToDelete.swiftCode);
      ghost var rows0 := repo.rows;
      var i := 0;
      while i < |branches|
        invariant 0 <= i <= |branches|
        invariant repo.Valid()
        invariant repo.rows == Relink(rows0, Codes(branches[..i]), None)
      {
        var branch := branches[i];
        CodesPrefix(branches, i);
        RelinkStep(rows0, Codes(branches[..i]), branch.swiftCode, None);
        repo.Save(branch.(headquarter := None));
        i := i + 1;
      }
      assert branches[..i] == branches;
    }
    repo.DeleteById(swiftCode);
    deleted := true;
  }
}
