/**
 * `SWIFTCodeController` of the strict application: codes of exactly 8 or 11 characters, no
 * branch without its headquarters, and no charset or country check on insert.
 */
module AtakiController {
  import opened Wrappers
  import opened Text
  import opened Entity
  import opened Repository
  import opened Linking
  import opened Dto
  import AtakiService

  // ---------------------------------------------------------------------------------------
  // POST /v1/swift-codes

  datatype AddOutcome =
    | Added                                          // 200 "SWIFT Code added successfully."
    | InvalidCodeFormat(providedSwiftCode: string)   // 400 "Invalid SWIFT code format"
    | MissingHeadquarter(expectedHQCode: string)     // 400 "Missing headquarter"
    | ServerError   // 500: a null code, ISO2 or name throws, and so does a duplicate in the service

  /** The request fields after the normalisation lines: bank name and address are kept as sent. */
  datatype Fields = Fields(
    swift: string,
    bankName: Option<string>,
    address: Option<string>,
    countryISO2: string,
    countryName: string)

  /**
   * The normalisation lines; a null code, ISO2 or name throws. Code, ISO2 and name come out
   * trimmed and upper-cased; bank name and address are kept as sent.
   */
  function Normalize(body: Request): (f: Option<Fields>)
    ensures f.None? <==> body.swiftCode.None? || body.countryISO2.None? || body.countryName.None?
    ensures f.Some? ==> f.value.bankName == body.bankName && f.value.address == body.address
    ensures f.Some? ==> && f.value.swift == TrimUpper(body.swiftCode.value)
                        && f.value.countryISO2 == TrimUpper(body.countryISO2.value)
                        && f.value.countryName == TrimUpper(body.countryName.value)
    ensures f.Some? ==> IsUpper(f.value.swift) && NoBlankEnds(f.value.swift)
  {
    if body.swiftCode.None? || body.countryISO2.None? || body.countryName.None? then None
    else Some(Fields(TrimUpper(body.swiftCode.value), body.bankName, body.address,
                     TrimUpper(body.countryISO2.value), TrimUpper(body.countryName.value)))
  }

  /** The entity after the setters: normalised fields, the flag from the code, a branch linked to `prefix + "XXX"`. */
  function NewRow(f: Fields): (e: Entry)
    requires |f.swift| >= PrefixLength
  {
    var isHeadquarter := IsHeadquarterCode(f.swift);
    Entry(f.swift, f.bankName, f.address, f.countryISO2, f.countryName, isHeadquarter,
          if isHeadquarter then None else Some(ExpectedHeadquarter(f.swift)))
  }

  /** The checks and the save that follow normalisation. */
  function Insert(rows: Rows, f: Fields): (r: (AddOutcome, Rows))
    ensures r.0.InvalidCodeFormat? <==> |f.swift| != 8 && |f.swift| != 11
    // a branch needs its `prefix + "XXX"` stored; a duplicate makes the service throw
    ensures r.0.MissingHeadquarter? <==>
              (|f.swift| == 8 || |f.swift| == 11) && !IsHeadquarterCode(f.swift) && ExpectedHeadquarter(f.swift) !in rows
    ensures r.0.MissingHeadquarter? ==> r.0.expectedHQCode == ExpectedHeadquarter(f.swift)
    ensures r.0 == ServerError <==>
              && (|f.swift| == 8 || |f.swift| == 11)
              && (IsHeadquarterCode(f.swift) || ExpectedHeadquarter(f.swift) in rows)
              && f.swift in rows
    ensures r.0 != Added ==> r.1 == rows
    // an accepted insert adds exactly the normalised row; stored rows change at most their link
    ensures r.0 == Added ==>
              && f.swift !in rows && r.1.Keys == rows.Keys + {f.swift} && r.1[f.swift] == NewRow(f)
              && forall k :: k in rows ==> r.1[k].(headquarter := rows[k].headquarter) == rows[k]
  {
    if |f.swift| != 8 && |f.swift| != 11 then (InvalidCodeFormat(f.swift), rows)
    else if !IsHeadquarterCode(f.swift) && ExpectedHeadquarter(f.swift) !in rows then
      (MissingHeadquarter(ExpectedHeadquarter(f.swift)), rows)
    else
      match Saved(rows, NewRow(f))
      case Success(r) => (Added, r)
      case Failure(_) => (ServerError, rows)
  }

  /** `addSwiftCode` as a function of the store: the answer and the new rows. */
  function Add(rows: Rows, body: Request): (r: (AddOutcome, Rows))
    ensures Normalize(body).None? ==> r == (ServerError, rows)
    ensures r.0 != Added ==> r.1 == rows
    ensures r.0 == Added ==>
              var code := TrimUpper(body.swiftCode.value);
              code !in rows && r.1.Keys == rows.Keys + {code}
  {
    match Normalize(body)
    case None => (ServerError, rows)
    case Some(f) => Insert(rows, f)
  }

  /**
   * The insert endpoint. The body is bound to an entity; a null code, ISO2 or name throws
   * while normalising; the rest is `InsertFields`.
   */
  method AddSwiftCode(repo: Repo, body: Request) returns (outcome: AddOutcome)
    requires repo.Valid()
    modifies repo
    ensures repo.Valid()
    ensures (outcome, repo.rows) == Add(old(repo.rows), body)
  {
    if body.swiftCode.None? || body.countryISO2.None? || body.countryName.None? {
      return ServerError;
    }
    var swift := TrimUpper(body.swiftCode.value);
    var countryISO2 := TrimUpper(body.countryISO2.value);
    var countryName := TrimUpper(body.countryName.value);
    var f := Fields(swift, body.bankName, body.address, countryISO2, countryName);
    assert Normalize(body) == Some(f);
    var swiftCode := new SwiftCode(body.swiftCode.value, body.bankName, body.address,
                                   body.countryISO2.value, body.countryName.value, false);
    outcome := InsertFields(repo, swiftCode, f);
  }

  /**
   * The rest of the insert endpoint on the bound entity: a branch is given the headquarters
   * the service finds under `prefix + "XXX"`, the setters normalise the entity, and the
   * service saves it. A duplicate is not checked here: the service's exception gives a 500.
   */
  method InsertFields(repo: Repo, swiftCode: SwiftCode, f: Fields) returns (outcome: AddOutcome)
    requires repo.Valid() && IsUpper(f.swift)
    requires swiftCode.bankName == f.bankName && swiftCode.address == f.address && swiftCode.headquarter.None?
    modifies repo, swiftCode
    ensures repo.Valid()
    ensures (outcome, repo.rows) == Insert(old(repo.rows), f)
  {
    ghost var rows0 := repo.rows;
    var swift := f.swift;
    if |swift| != 8 && |swift| != 11 {
      return InvalidCodeFormat(swift);
    }
    var isHeadquarter := EndsWith(swift, "XXX");
    var swiftPrefix := swift[..PrefixLength];
    var expectedHQCode := swiftPrefix + "XXX";
    assert expectedHQCode == ExpectedHeadquarter(swift);
    if !isHeadquarter {
      assert IsUpper(expectedHQCode);
      UpperStable(expectedHQCode);
      var hq := AtakiService.GetSwiftCodeDetails(repo, expectedHQCode);
      if hq.None? {
        return MissingHeadquarter(expectedHQCode);
      }
      swiftCode.SetHeadquarter(Some(hq.value.swiftCode));
    }
    swiftCode.swiftCode := swift;
    swiftCode.countryISO2 := f.countryISO2;
    swiftCode.countryName := f.countryName;
    swiftCode.headquarterFlag := isHeadquarter;
    assert swiftCode.Row() == NewRow(f);
    UpperStable(swift);
    assert swiftCode.Row().(swiftCode := ToUpper(swift)) == NewRow(f);
    var thrown := AtakiService.SaveSwiftCode(repo, swiftCode);
    if thrown.Some? {
      return ServerError;
    }
    return Added;
  }

  // ---------------------------------------------------------------------------------------
  // The registry invariant

  /** A stored code: exactly 8 or 11 characters, upper case. */
  ghost predicate StrictCode(code: string)
  {
    (|code| == 8 || |code| == 11) && IsUpper(code)
  }

  /**
   * What every insert and delete of this application keeps: rows keyed by their code, codes
   * of 8 or 11 upper-case characters, flags derived from the codes, every link valid.
   */
  ghost predicate Consistent(rows: Rows)
  {
    Keyed(rows) && (forall k :: k in rows ==> StrictCode(k)) && FlagsDerived(rows) && LinksValid(rows)
  }

  /**
   * An insert is accepted exactly when the three normalised fields are present, the code
   * has 8 or 11 characters, a branch's `prefix + "XXX"` is stored and the code is new.
   */
  lemma AddAcceptsExactly(rows: Rows, body: Request)
    ensures Add(rows, body).0 == Added <==>
              && body.swiftCode.Some? && body.countryISO2.Some? && body.countryName.Some?
              && var swift := TrimUpper(body.swiftCode.value);
              && (|swift| == 8 || |swift| == 11)
              && (IsHeadquarterCode(swift) || ExpectedHeadquarter(swift) in rows)
              && swift !in rows
  {
  }

  /** A rejected insert, whatever the reason, leaves the store as it was. */
  lemma RejectedAddChangesNothing(rows: Rows, body: Request)
    requires Add(rows, body).0 != Added
    ensures Add(rows, body).1 == rows
  {
    if Normalize(body).Some? {
      var f := Normalize(body).value;
      if (|f.swift| == 8 || |f.swift| == 11) && (IsHeadquarterCode(f.swift) || ExpectedHeadquarter(f.swift) in rows) {
        assert Saved(rows, NewRow(f)).Failure?;
      }
    }
  }

  /**
   * An accepted insert adds exactly its own row, normalised, and changes no other row but
   * the orphans a headquarters claims; a branch always arrives linked to its
   * `prefix + "XXX"`, so this application never creates an orphan.
   */
  lemma InsertedRow(rows: Rows, f: Fields)
    requires Insert(rows, f).0 == Added
    ensures |f.swift| >= PrefixLength
    ensures var r := Insert(rows, f).1;
            && r == Saved(rows, NewRow(f)).value
            && r.Keys == rows.Keys + {f.swift}
            && r[f.swift] == NewRow(f)
            && r[f.swift].headquarterFlag == IsHeadquarterCode(f.swift)
            && (!IsHeadquarterCode(f.swift) ==>
                  r[f.swift].headquarter == Some(ExpectedHeadquarter(f.swift)) && ExpectedHeadquarter(f.swift) in r)
            && (!IsHeadquarterCode(f.swift) ==> forall k :: k in rows ==> r[k] == rows[k])
  {
  }

  /**
   * No country-code or country-name check: what the ISO2 and name fields hold never
   * changes the answer.
   */
  lemma CountryFieldsNeverRejected(rows: Rows, f: Fields, iso2: string, name: string)
    ensures Insert(rows, f).0 == Insert(rows, f.(countryISO2 := iso2, countryName := name)).0
  {
  }

  /** A code with a hyphen and a space, in an unknown country, is accepted into an empty store. */
  lemma NoCharsetOrCountryCheck()
    ensures Insert(map[], Fields("AB-D EFGXXX", None, None, "ZZ", "NOWHERE")).0 == Added
  {
    assert IsHeadquarterCode("AB-D EFGXXX");
  }

  /** Every insert, accepted or not, keeps the registry consistent. */
  lemma InsertPreservesConsistency(rows: Rows, f: Fields)
    requires Consistent(rows) && IsUpper(f.swift)
    ensures Consistent(Insert(rows, f).1)
  {
    if Insert(rows, f).0 == Added {
      InsertedRow(rows, f);
      var row := NewRow(f);
      if row.headquarter.Some? {
        assert LinkOk(rows, f.swift, ExpectedHeadquarter(f.swift));
      }
      SavePreservesLinks(rows, row);
    }
  }

  lemma AddPreservesConsistency(rows: Rows, body: Request)
    requires Consistent(rows)
    ensures Consistent(Add(rows, body).1)
  {
    if Normalize(body).Some? {
      InsertPreservesConsistency(rows, Normalize(body).value);
    }
  }

  // ---------------------------------------------------------------------------------------
  // DELETE /v1/swift-codes/{swiftCode}

  datatype DeleteOutcome =
    | DeleteOk         // 200 "SWIFT Code deleted successfully."
    | DeleteNotFound   // 404

  /** `deleteSwiftCode` as a function of the store: the path code is used exactly as sent. */
  function Delete(rows: Rows, path: string): (r: (DeleteOutcome, Rows))
    ensures r.0 == DeleteNotFound <==> path !in rows
    ensures r.0 == DeleteNotFound ==> r.1 == rows
    ensures r.0 == DeleteOk ==> r.1.Keys == rows.Keys - {path}
  {
    if path in rows then (DeleteOk, Deleted(rows, path)) else (DeleteNotFound, rows)
  }

  /** The delete endpoint: not found exactly when the service reports nothing deleted. */
  method DeleteSwiftCode(repo: Repo, path: string) returns (outcome: DeleteOutcome)
    requires repo.Valid()
    modifies repo
    ensures repo.Valid()
    ensures (outcome, repo.rows) == Delete(old(repo.rows), path)
  {
    var deleted := AtakiService.DeleteSwiftCode(repo, path);
    if deleted {
      outcome := DeleteOk;
    } else {
      outcome := DeleteNotFound;
    }
  }

  /** A delete keeps the registry consistent and leaves no row referencing the deleted code. */
  lemma DeletePreservesConsistency(rows: Rows, path: string)
    requires Consistent(rows)
    ensures Consistent(Delete(rows, path).1)
    ensures var r := Delete(rows, path).1;
            path !in r && forall k :: k in r ==> r[k].headquarter != Some(path)
  {
    DeletePreservesLinks(rows, path);
  }

  /** The path is not upper-cased, so a code with a lower-case letter never deletes anything. */
  lemma LowerCasePathNeverDeletes(rows: Rows, path: string)
    requires Consistent(rows) && !IsUpper(path)
    ensures Delete(rows, path) == (DeleteNotFound, rows)
  {
  }

  /**
   * An accepted insert undone by a delete of the stored code gives back the registry it
   * started from.
   */
  lemma InsertThenDeleteRestores(rows: Rows, f: Fields)
    requires Consistent(rows) && Insert(rows, f).0 == Added
    ensures Delete(Insert(rows, f).1, f.swift).1 == rows
  {
    InsertedRow(rows, f);
    SaveThenDeleteRestores(rows, NewRow(f));
  }

  // ---------------------------------------------------------------------------------------
  // GET /v1/swift-codes/{swiftCode}

  datatype DetailOutcome =
    | InvalidFormat                                    // 400 "Invalid SWIFT code format"
    | DetailNotFound(providedSwiftCode: string)        // 404 "SWIFT code not found"
    | BranchDetails(branch: SwiftCodeDto)              // 200
    | HeadquarterDetails(hq: SwiftCodeWithBranchesDto) // 200

  /** `dto` shows the row `e` with the rows whose link is `branchesOf`, each once, in some order. */
  ghost predicate ShowsHeadquarters(dto: SwiftCodeWithBranchesDto, e: Entry, rows: Rows, branchesOf: string)
  {
    && dto.address == e.address && dto.bankName == e.bankName && dto.countryISO2 == e.countryISO2
    && dto.countryName == e.countryName && dto.isHeadquarter == e.headquarterFlag && dto.swiftCode == e.swiftCode
    && exists list :: Enumerates(list, rows, LinkedTo(rows, branchesOf)) && dto.branches == Dtos(list)
  }

  /** The branch DTOs of the rows linked to `code`, built one by one. */
  method ListBranches(repo: Repo, code: string) returns (branches: seq<SwiftCodeDto>)
    requires repo.Valid()
    ensures exists list :: Enumerates(list, repo.rows, LinkedTo(repo.rows, code)) && branches == Dtos(list)
  {
    var branchesList := AtakiService.GetBranchesForHeadquarter(repo, code);
    branches := [];
    for i := 0 to |branchesList|
      invariant branches == Dtos(branchesList[..i])
    {
      branches := branches + [ToDto(branchesList[i])];
    }
    assert branchesList[..|branchesList|] == branchesList;
  }

  /**
   * The detail endpoint: the path's raw length must be 8 or 11; the row is looked up by
   * the upper-cased code, but a headquarters' branches by the path exactly as sent.
   */
  method GetSwiftCodeDetails(repo: Repo, path: string) returns (r: DetailOutcome)
    requires repo.Valid()
    ensures var code := ToUpper(path);
            && (r.InvalidFormat? <==> |path| != 8 && |path| != 11)
            && (r.DetailNotFound? <==> (|path| == 8 || |path| == 11) && code !in repo.rows)
            && (r.DetailNotFound? ==> r.providedSwiftCode == path)
            && (r.BranchDetails? ==> code in repo.rows && r.branch == ToDto(repo.rows[code]))
            && (r.HeadquarterDetails? ==> code in repo.rows && ShowsHeadquarters(r.hq, repo.rows[code], repo.rows, path))
            && ((|path| == 8 || |path| == 11) && code in repo.rows ==>
                  (r.HeadquarterDetails? <==> repo.rows[code].headquarterFlag))
  {
    if |path| != 8 && |path| != 11 {
      return InvalidFormat;
    }
    var swiftCodeOptional := AtakiService.GetSwiftCodeDetails(repo, path);
    if swiftCodeOptional.None? {
      return DetailNotFound(path);
    }
    var details := swiftCodeOptional.value;
    if details.headquarterFlag {
      var branches := ListBranches(repo, path);
      r := HeadquarterDetails(SwiftCodeWithBranchesDto(details.address, details.bankName, details.countryISO2,
                                                       details.countryName, details.headquarterFlag,
                                                       details.swiftCode, branches));
      return;
    }
    r := BranchDetails(ToDto(details));
  }

  /**
   * The strict service runs the same orphan scan: into an empty store, `ABCDEXXXXXX` then
   * `ABCDEXXX` are both accepted, and the second links the first, a headquarters, under it.
   */
  lemma HeadquartersClaimedAsOrphan()
    ensures var long := Fields("ABCDEXXXXXX", None, None, "PL", "POLAND");
            var short := Fields("ABCDEXXX", None, None, "PL", "POLAND");
            var r1 := Insert(map[], long);
            && r1.0 == Added && Insert(r1.1, short).0 == Added
            && Insert(r1.1, short).1["ABCDEXXXXXX"].headquarter == Some("ABCDEXXX")
            && !HeadquartersUnlinked(Insert(r1.1, short).1)
  {
    var long := Fields("ABCDEXXXXXX", None, None, "PL", "POLAND");
    var short := Fields("ABCDEXXX", None, None, "PL", "POLAND");
    assert IsHeadquarterCode(long.swift) && IsHeadquarterCode(short.swift);
    var r1 := Insert(map[], long).1;
    assert r1 == map["ABCDEXXXXXX" := NewRow(long)];
    assert StartsWith("ABCDEXXXXXX", Prefix("ABCDEXXX"));
    var r2 := Insert(r1, short).1;
    assert r2["ABCDEXXXXXX"].headquarter == Some("ABCDEXXX") && r2["ABCDEXXXXXX"].headquarterFlag;
  }

  /**
   * In a consistent store every link names a stored, upper-case code, so a path with a
   * lower-case letter finds the headquarters but lists none of its branches.
   */
  lemma LowerCasePathListsNoBranches(rows: Rows, path: string)
    requires Consistent(rows) && !IsUpper(path)
    ensures LinkedTo(rows, path) == {}
  {
    forall k | k in rows && rows[k].headquarter.Some?
      ensures rows[k].headquarter.value != path
    {
      assert LinkOk(rows, k, rows[k].headquarter.value);
    }
  }

  /**
   * The endpoint with the branch lookup made by the upper-cased code, the code of the row
   * it shows: a headquarters is listed with exactly the rows linked to it.
   */
  method GetSwiftCodeDetailsFixed(repo: Repo, path: string) returns (r: DetailOutcome)
    requires repo.Valid()
    ensures var code := ToUpper(path);
            && (r.InvalidFormat? <==> |path| != 8 && |path| != 11)
            && (r.DetailNotFound? <==> (|path| == 8 || |path| == 11) && code !in repo.rows)
            && (r.BranchDetails? ==> code in repo.rows && r.branch == ToDto(repo.rows[code]))
            && (r.HeadquarterDetails? ==>
                  code in repo.rows && ShowsHeadquarters(r.hq, repo.rows[code], repo.rows, r.hq.swiftCode))
            && ((|path| == 8 || |path| == 11) && code in repo.rows ==>
                  (r.HeadquarterDetails? <==> repo.rows[code].headquarterFlag))
  {
    if |path| != 8 && |path| != 11 {
      return InvalidFormat;
    }
    var swiftCodeOptional := AtakiService.GetSwiftCodeDetails(repo, path);
    if swiftCodeOptional.None? {
      return DetailNotFound(path);
    }
    var details := swiftCodeOptional.value;
    if details.headquarterFlag {
      var branches := ListBranches(repo, details.swiftCode);
      r := HeadquarterDetails(SwiftCodeWithBranchesDto(details.address, details.bankName, details.countryISO2,
                                                       details.countryName, details.headquarterFlag,
                                                       details.swiftCode, branches));
      return;
    }
    r := BranchDetails(ToDto(details));
  }

  // ---------------------------------------------------------------------------------------
  // GET /v1/swift-codes/country/{countryISO2}

  datatype CountryOutcome =
    | CountryNotFound   // 404
    | CountryCodes(countryISO2: string, countryName: string, swiftCodes: seq<Entry>)

  /**
   * The country endpoint: no check of the code; the rows whose ISO2 matches ignoring case;
   * not found when there are none, otherwise the first row's name and the code upper-cased.
   */
  method GetSwiftCodesByCountry(repo: Repo, path: string) returns (r: CountryOutcome)
    requires repo.Valid()
    ensures r.CountryNotFound? <==> InCountry(repo.rows, path) == {}
    ensures r.CountryCodes? ==>
              && r.countryISO2 == ToUpper(path)
              && Enumerates(r.swiftCodes, repo.rows, InCountry(repo.rows, path))
              && |r.swiftCodes| > 0 && r.countryName == r.swiftCodes[0].countryName
              && r.swiftCodes[0].swiftCode in InCountry(repo.rows, path)
  {
    var swiftCodes := AtakiService.GetSwiftCodesByCountry(repo, path);
    if |swiftCodes| == 0 {
      return CountryNotFound;
    }
    assert swiftCodes[0].swiftCode in Codes(swiftCodes);
    r := CountryCodes(ToUpper(path), swiftCodes[0].countryName, swiftCodes);
  }
}
