/**
 * `SWIFTCodeController` of the orphan-tolerant application: normalisation and the
 * short-circuiting validation chain of an insert, the insert itself (a branch links to an
 * existing headquarters or stays an orphan, a headquarters claims orphans), the delete that
 * orphans a headquarters' branches, and the two read endpoints.
 */
module InternController {
  import opened Wrappers
  import opened Text
  import opened Entity
  import opened Repository
  import opened Linking
  import opened Dto
  import InternService

  // ---------------------------------------------------------------------------------------
  // POST /v1/swift-codes

  /** The `error` of each rejection `addSwiftCode` answers with, in the order the checks run. */
  datatype AddError =
    | MissingRequiredFields  // 400
    | InvalidAddressLength   // 400 "Address must be between 3 and 500 characters"
    | InvalidCodeFormat      // 400
    | InvalidCharacters      // 400 "Invalid characters in SWIFT code"
    | DuplicateSwiftCode     // 409
    | InvalidCountryCode     // 400
    | CountryNameMismatch    // 400

  datatype AddOutcome =
    | BranchAdded        // 200 "Branch added. Linked to HQ if exists."
    | HeadquarterAdded   // 200 "Headquarter added. Linked orphan branches if found."
    | Rejected(error: AddError)
    | ServerError        // 500: a required field was null and normalising it threw

  /** The request fields after normalisation. */
  datatype Candidate = Candidate(
    swift: string,
    countryISO2: string,
    countryName: string,
    address: string,
    bankName: string)

  /** The address stored when the trimmed address is empty. */
  const NoAddressProvided := "No address provided"

  /**
   * The normalisation lines: code, ISO2 and name trimmed then upper-cased, address trimmed,
   * a null bank name read as empty. A null code, ISO2, name or address throws.
   */
  function Normalize(body: Request): (c: Option<Candidate>)
    ensures c.None? <==>
              body.swiftCode.None? || body.countryISO2.None? || body.countryName.None? || body.address.None?
    ensures c.Some? ==> && c.value.swift == TrimUpper(body.swiftCode.value)
                        && c.value.countryISO2 == TrimUpper(body.countryISO2.value)
                        && c.value.countryName == TrimUpper(body.countryName.value)
    ensures c.Some? ==> c.value.address == Trim(body.address.value)
    ensures c.Some? ==> c.value.bankName == if body.bankName.Some? then Trim(body.bankName.value) else []
  {
    if body.swiftCode.None? || body.countryISO2.None? || body.countryName.None? || body.address.None? then None
    else
      Some(Candidate(TrimUpper(body.swiftCode.value), TrimUpper(body.countryISO2.value),
                     TrimUpper(body.countryName.value), Trim(body.address.value),
                     if body.bankName.Some? then Trim(body.bankName.value) else []))
  }

  /**
   * What normalisation guarantees: every field has no blank at either end, code, ISO2 and
   * name are upper case, and a code, ISO2 or name empty after normalising was blank as sent.
   */
  lemma NormalizedFields(body: Request)
    requires Normalize(body).Some?
    ensures var c := Normalize(body).value;
            && NoBlankEnds(c.swift) && NoBlankEnds(c.countryISO2) && NoBlankEnds(c.countryName)
            && NoBlankEnds(c.address) && NoBlankEnds(c.bankName)
            && IsUpper(c.swift) && IsUpper(c.countryISO2) && IsUpper(c.countryName)
            && (c.swift == [] <==> IsBlank(body.swiftCode.value))
            && (c.countryISO2 == [] <==> IsBlank(body.countryISO2.value))
            && (c.countryName == [] <==> IsBlank(body.countryName.value))
  {
  }

  /** The address after defaulting: an empty one becomes "No address provided", any other is kept. */
  function WithDefaultAddress(address: string): (a: string)
    ensures address == [] ==> a == NoAddressProvided
    ensures address != [] ==> a == address
    ensures |a| > 0
  {
    if address == [] then NoAddressProvided else address
  }

  /**
   * An address that is blank once trimmed is stored as "No address provided", which passes
   * the 3 to 500 character check.
   */
  lemma BlankAddressAccepted(rows: Rows, body: Request)
    requires Normalize(body).Some? && IsBlank(body.address.value)
    ensures WithDefaultAddress(Normalize(body).value.address) == NoAddressProvided
    ensures !Fails(InvalidAddressLength, rows, Normalize(body).value)
  {
  }

  /** Whether the check reporting `kind` rejects the candidate, taken on its own. */
  predicate Fails(kind: AddError, rows: Rows, c: Candidate)
  {
    match kind
    case MissingRequiredFields => c.swift == [] || c.countryISO2 == [] || c.countryName == [] || c.bankName == []
    case InvalidAddressLength => !(3 <= |WithDefaultAddress(c.address)| <= 500)
    case InvalidCodeFormat => !(8 <= |c.swift| <= 11)
    case InvalidCharacters => !IsAlnumWord(c.swift)
    case DuplicateSwiftCode => c.swift in rows
    case InvalidCountryCode => !InternService.IsValidCountryCode(c.countryISO2)
    case CountryNameMismatch => c.countryName != InternService.GetCorrectCountryName(c.countryISO2)
  }

  /** Position of each check in the chain. */
  function Rank(kind: AddError): nat
  {
    match kind
    case MissingRequiredFields => 0
    case InvalidAddressLength => 1
    case InvalidCodeFormat => 2
    case InvalidCharacters => 3
    case DuplicateSwiftCode => 4
    case InvalidCountryCode => 5
    case CountryNameMismatch => 6
  }

  /**
   * The validation chain: only the first failing check is reported, and a candidate is
   * accepted exactly when no check fails.
   */
  function FirstFailure(rows: Rows, c: Candidate): (r: Option<AddError>)
    ensures r.None? <==> forall kind :: !Fails(kind, rows, c)
    ensures r.Some? ==> Fails(r.value, rows, c)
    ensures r.Some? ==> forall kind :: Rank(kind) < Rank(r.value) ==> !Fails(kind, rows, c)
  {
    if Fails(MissingRequiredFields, rows, c) then Some(MissingRequiredFields)
    else if Fails(InvalidAddressLength, rows, c) then Some(InvalidAddressLength)
    else if Fails(InvalidCodeFormat, rows, c) then Some(InvalidCodeFormat)
    else if Fails(InvalidCharacters, rows, c) then Some(InvalidCharacters)
    else if Fails(DuplicateSwiftCode, rows, c) then Some(DuplicateSwiftCode)
    else if Fails(InvalidCountryCode, rows, c) then Some(InvalidCountryCode)
    else if Fails(CountryNameMismatch, rows, c) then Some(CountryNameMismatch)
    else None
  }

  /** The row the setters make of an accepted candidate, before any link is set. */
  function NewRow(c: Candidate): Entry
  {
    Entry(c.swift, Some(c.bankName), Some(WithDefaultAddress(c.address)), c.countryISO2,
          InternService.GetCorrectCountryName(c.countryISO2), IsHeadquarterCode(c.swift), None)
  }

  /**
   * The store after an accepted candidate is saved. A branch is linked to `prefix + "XXX"`
   * when that row exists and saved either way; a headquarters is saved through the
   * service, whose orphan scan links the unlinked rows sharing its prefix (the controller's
   * own second pass then finds nothing left to link).
   */
  function Store(rows: Rows, c: Candidate): (r: Rows)
    requires c.swift !in rows && |c.swift| >= PrefixLength
    // the new row is added with every field as normalised; stored rows change at most their link
    ensures r.Keys == rows.Keys + {c.swift}
    ensures r[c.swift].(headquarter := None) == NewRow(c)
    ensures forall k :: k in rows ==> r[k].(headquarter := rows[k].headquarter) == rows[k]
  {
    var row := NewRow(c);
    if row.headquarterFlag then Saved(rows, row).value
    else
      var hq := ExpectedHeadquarter(c.swift);
      Saved(rows, if hq in rows then row.(headquarter := Some(rows[hq].swiftCode)) else row).value
  }

  /** `addSwiftCode` as a function of the store: the answer and the new rows. */
  function Add(rows: Rows, body: Request): (r: (AddOutcome, Rows))
    ensures r.0 == ServerError <==> Normalize(body).None?
    ensures r.0.Rejected? <==> Normalize(body).Some? && FirstFailure(rows, Normalize(body).value).Some?
    ensures r.0.Rejected? ==> r.0.error == FirstFailure(rows, Normalize(body).value).value
    ensures !r.0.BranchAdded? && !r.0.HeadquarterAdded? ==> r.1 == rows
    // an accepted insert adds exactly the new code, and the answer names its kind
    ensures r.0.BranchAdded? || r.0.HeadquarterAdded? ==>
              var c := Normalize(body).value;
              && c.swift !in rows && r.1.Keys == rows.Keys + {c.swift}
              && (r.0.HeadquarterAdded? <==> IsHeadquarterCode(c.swift))
  {
    match Normalize(body)
    case None => (ServerError, rows)
    case Some(c) =>
      match FirstFailure(rows, c)
      case Some(e) => (Rejected(e), rows)
      case None =>
        AcceptedCodeIsNew(rows, c);
        (if IsHeadquarterCode(c.swift) then HeadquarterAdded else BranchAdded, Store(rows, c))
  }

  /** The part of `AcceptedCandidate` the store update needs: the code is new and long enough. */
  lemma AcceptedCodeIsNew(rows: Rows, c: Candidate)
    requires FirstFailure(rows, c).None?
    ensures c.swift !in rows && 8 <= |c.swift| <= 11
  {
    assert !Fails(InvalidCodeFormat, rows, c) && !Fails(DuplicateSwiftCode, rows, c);
  }

  /**
   * The insert endpoint: normalise the body, run the validation chain, then save. A null
   * required field throws while normalising.
   */
  method AddSwiftCode(repo: Repo, body: Request) returns (outcome: AddOutcome)
    requires repo.Valid()
    modifies repo
    ensures repo.Valid()
    ensures (outcome, repo.rows) == Add(old(repo.rows), body)
    ensures old(Consistent(repo.rows)) ==> Consistent(repo.rows)
  {
    if Consistent(repo.rows) {
      AddPreservesConsistency(repo.rows, body);
    }
    if body.swiftCode.None? || body.countryISO2.None? || body.countryName.None? || body.address.None? {
      return ServerError;
    }
    var swift := TrimUpper(body.swiftCode.value);
    var countryISO2 := TrimUpper(body.countryISO2.value);
    var countryName := TrimUpper(body.countryName.value);
    var address := Trim(body.address.value);
    var bankName := if body.bankName.Some? then Trim(body.bankName.value) else "";
    var c := Candidate(swift, countryISO2, countryName, address, bankName);
    assert Normalize(body) == Some(c);

    var failure := ValidateCandidate(repo, c);
    if failure.Some? {
      return Rejected(failure.value);
    }
    outcome := SaveCandidate(repo, c);
  }

  /** The validation chain of `addSwiftCode`, run check by check against the store. */
  method ValidateCandidate(repo: Repo, c: Candidate) returns (failure: Option<AddError>)
    requires repo.Valid() && IsUpper(c.swift)
    ensures failure == FirstFailure(repo.rows, c)
  {
    UpperStable(c.swift);
    if c.swift == [] || c.countryISO2 == [] || c.countryName == [] || c.bankName == [] {
      return Some(MissingRequiredFields);
    }
    var address := c.address;
    if address == [] {
      address := NoAddressProvided;
    }
    if |address| < 3 || |address| > 500 {
      return Some(InvalidAddressLength);
    }
    if |c.swift| < 8 || |c.swift| > 11 {
      return Some(InvalidCodeFormat);
    }
    if !IsAlnumWord(c.swift) {
      return Some(InvalidCharacters);
    }
    var duplicate := InternService.ExistsBySwiftCode(repo, c.swift);
    if duplicate {
      return Some(DuplicateSwiftCode);
    }
    if !InternService.IsValidCountryCode(c.countryISO2) {
      return Some(InvalidCountryCode);
    }
    var correctCountryName := InternService.GetCorrectCountryName(c.countryISO2);
    if c.countryName != correctCountryName {
      return Some(CountryNameMismatch);
    }
    return None;
  }

  /**
   * The setters and the save of an accepted candidate. A branch is linked to its
   * headquarters when the service finds `prefix + "XXX"`. After a headquarters is saved the
   * controller walks the branches with its prefix to link those still unlinked; the
   * service's orphan scan has already linked every one of them, so that loop changes nothing.
   */
  method SaveCandidate(repo: Repo, c: Candidate) returns (outcome: AddOutcome)
    requires repo.Valid() && FirstFailure(repo.rows, c).None? && IsUpper(c.swift)
    modifies repo
    ensures repo.Valid()
    ensures c.swift !in old(repo.rows) && |c.swift| >= PrefixLength
    ensures repo.rows == Store(old(repo.rows), c)
    ensures outcome == if IsHeadquarterCode(c.swift) then HeadquarterAdded else BranchAdded
  {
    ghost var rows0 := repo.rows;
    AcceptedCandidate(rows0, c);
    var swift := c.swift;
    var address := if c.address == [] then NoAddressProvided else c.address;
    var correctCountryName := InternService.GetCorrectCountryName(c.countryISO2);
    var isHeadquarter := IsHeadquarterCode(swift);
    var swiftPrefix := swift[..PrefixLength];
    var expectedHQCode := swiftPrefix + "XXX";
    var swiftCode := new SwiftCode(swift, Some(c.bankName), Some(address), c.countryISO2, correctCountryName, isHeadquarter);
    assert swiftCode.Row() == NewRow(c);
    UpperStable(swift);

    if !isHeadquarter {
      assert expectedHQCode == ExpectedHeadquarter(swift);
      SaveBranch(repo, swiftCode, NewRow(c), expectedHQCode);
      return BranchAdded;
    }
    assert swiftPrefix == Prefix(swift);
    SaveHeadquarters(repo, swiftCode, c, swiftPrefix);
    return HeadquarterAdded;
  }

  /** The branch case: `row` is linked to `expectedHQCode` when the service finds it, then saved. */
  method SaveBranch(repo: Repo, swiftCode: SwiftCode, ghost row: Entry, expectedHQCode: string)
    requires repo.Valid() && row.swiftCode !in repo.rows && IsUpper(row.swiftCode) && !row.headquarterFlag
    requires |row.swiftCode| >= PrefixLength && expectedHQCode == ExpectedHeadquarter(row.swiftCode)
    requires swiftCode.Row() == row
    modifies repo, swiftCode
    ensures var linked := if expectedHQCode in old(repo.rows)
                          then row.(headquarter := Some(old(repo.rows)[expectedHQCode].swiftCode)) else row;
            Saved(old(repo.rows), linked).Success? && repo.rows == Saved(old(repo.rows), linked).value
  {
    ghost var rows0 := repo.rows;
    UpperStable(row.swiftCode);
    UpperStable(expectedHQCode);
    var hq := InternService.GetSwiftCodeDetails(repo, expectedHQCode);
    if hq.Some? {
      swiftCode.SetHeadquarter(Some(hq.value.swiftCode));
    }
    ghost var linked := swiftCode.Row();
    assert linked.(swiftCode := ToUpper(row.swiftCode)) == linked;
    assert linked.swiftCode !in rows0 && !linked.headquarterFlag;
    assert Saved(rows0, linked) == Success(rows0[linked.swiftCode := linked]);
    var thrown := InternService.SaveSwiftCode(repo, swiftCode);
  }

  /**
   * The headquarters case: saved through the service, then the controller's own pass over
   * the branches with its prefix, which finds none left unlinked.
   */
  method SaveHeadquarters(repo: Repo, swiftCode: SwiftCode, c: Candidate, swiftPrefix: string)
    requires repo.Valid() && c.swift !in repo.rows && IsUpper(c.swift)
    requires |c.swift| >= PrefixLength && IsHeadquarterCode(c.swift) && swiftPrefix == Prefix(c.swift)
    requires swiftCode.Row() == NewRow(c)
    modifies repo, swiftCode
    ensures repo.rows == Store(old(repo.rows), c)
  {
    ghost var rows0 := repo.rows;
    UpperStable(c.swift);
    assert swiftCode.Row().(swiftCode := ToUpper(c.swift)) == NewRow(c);
    var thrown := InternService.SaveSwiftCode(repo, swiftCode);
    assert thrown.None?;
    assert repo.rows == Saved(rows0, NewRow(c)).value;
    NoOrphanLeftAfterHeadquarters(rows0, c);
    var orphanBranches := InternService.FindBranchesByPrefix(repo, swiftPrefix);
    for i := 0 to |orphanBranches|
      invariant repo.rows == Store(rows0, c)
    {
      var branch := orphanBranches[i];
      assert branch.swiftCode in Codes(orphanBranches);
      if branch.headquarter.None? {
        assert false;
      }
    }
  }

  // ---------------------------------------------------------------------------------------
  // The registry invariant

  /** A stored code: 8 to 11 upper-case ASCII letters and digits. */
  ghost predicate WellFormedCode(code: string)
  {
    8 <= |code| <= 11 && IsAlnumWord(code) && IsUpper(code)
  }

  /**
   * What every insert and delete of this application keeps: rows keyed by their code, codes
   * well formed, flags derived from the codes, every link valid.
   */
  ghost predicate Consistent(rows: Rows)
  {
    Keyed(rows) && (forall k :: k in rows ==> WellFormedCode(k)) && FlagsDerived(rows) && LinksValid(rows)
  }

  /**
   * What passing the whole chain guarantees: a new code of 8 to 11 ASCII letters and digits,
   * a table ISO2 whose canonical name was given, a non-empty bank name and an address of 3
   * to 500 characters once defaulted.
   */
  lemma AcceptedCandidate(rows: Rows, c: Candidate)
    requires FirstFailure(rows, c).None?
    ensures c.swift !in rows && 8 <= |c.swift| <= 11 && IsAlnumWord(c.swift)
    ensures InternService.IsValidCountryCode(c.countryISO2)
    ensures c.countryName == InternService.GetCorrectCountryName(c.countryISO2) != InternService.UnknownCountry
    ensures c.bankName != [] && 3 <= |WithDefaultAddress(c.address)| <= 500
  {
    assert !Fails(InvalidCodeFormat, rows, c) && !Fails(DuplicateSwiftCode, rows, c);
    assert !Fails(InvalidCharacters, rows, c) && !Fails(InvalidAddressLength, rows, c);
    assert !Fails(InvalidCountryCode, rows, c) && !Fails(CountryNameMismatch, rows, c);
    assert !Fails(MissingRequiredFields, rows, c);
    InternService.UnknownIsNotACountry(c.countryISO2);
  }

  /** An insert that is rejected, or that throws while normalising, changes nothing. */
  lemma RejectedAddChangesNothing(rows: Rows, body: Request)
    requires !Add(rows, body).0.BranchAdded? && !Add(rows, body).0.HeadquarterAdded?
    ensures Add(rows, body).1 == rows
    ensures Add(rows, body).0 == ServerError <==> Normalize(body).None?
    ensures Add(rows, body).0.Rejected? ==>
              Fails(Add(rows, body).0.error, rows, Normalize(body).value) &&
              forall kind :: Rank(kind) < Rank(Add(rows, body).0.error) ==> !Fails(kind, rows, Normalize(body).value)
  {
  }

  /**
   * Saving an accepted branch adds exactly its row, with every field as normalised and the
   * canonical country name; it is linked to `prefix + "XXX"` when that row exists and is an
   * orphan otherwise; no other row changes.
   */
  lemma StoreBranch(rows: Rows, c: Candidate)
    requires Keyed(rows) && c.swift !in rows && |c.swift| >= PrefixLength && !IsHeadquarterCode(c.swift)
    ensures var r := Store(rows, c);
            var hq := ExpectedHeadquarter(c.swift);
            && r.Keys == rows.Keys + {c.swift}
            && r[c.swift] == NewRow(c).(headquarter := if hq in rows then Some(hq) else None)
            && forall k :: k in rows ==> r[k] == rows[k]
  {
  }

  /**
   * Saving an accepted headquarters adds its row unlinked and links exactly the unlinked
   * rows whose code starts with its prefix; rows already linked keep their link.
   */
  lemma StoreHeadquarters(rows: Rows, c: Candidate)
    requires c.swift !in rows && |c.swift| >= PrefixLength && IsHeadquarterCode(c.swift)
    ensures var r := Store(rows, c);
            && r.Keys == rows.Keys + {c.swift}
            && r[c.swift] == NewRow(c)
            && (forall k :: k in rows && rows[k].headquarter.Some? ==> r[k] == rows[k])
            && (forall k :: k in rows && rows[k].headquarter.None? ==>
                  r[k] == rows[k].(headquarter := if StartsWith(k, Prefix(c.swift)) then Some(c.swift) else None))
  {
  }

  /** After a headquarters is saved, no row sharing its prefix is left unlinked but the headquarters itself. */
  lemma NoOrphanLeftAfterHeadquarters(rows: Rows, c: Candidate)
    requires c.swift !in rows && |c.swift| >= PrefixLength && IsHeadquarterCode(c.swift)
    ensures var r := Store(rows, c);
            forall k :: k in r && k != c.swift && StartsWith(k, Prefix(c.swift)) ==> r[k].headquarter.Some?
  {
    StoreHeadquarters(rows, c);
  }

  /** An accepted insert keeps the registry consistent. */
  lemma StorePreservesConsistency(rows: Rows, c: Candidate)
    requires Consistent(rows) && FirstFailure(rows, c).None? && IsUpper(c.swift)
    ensures Consistent(Store(rows, c))
  {
    AcceptedCandidate(rows, c);
    var row := NewRow(c);
    if row.headquarterFlag {
      SavePreservesLinks(rows, row);
    } else {
      var hq := ExpectedHeadquarter(c.swift);
      var linked := if hq in rows then row.(headquarter := Some(rows[hq].swiftCode)) else row;
      if hq in rows {
        assert LinkOk(rows, c.swift, hq);
      }
      SavePreservesLinks(rows, linked);
    }
  }

  /** Every insert, accepted or not, keeps the registry consistent. */
  lemma AddPreservesConsistency(rows: Rows, body: Request)
    requires Consistent(rows)
    ensures Consistent(Add(rows, body).1)
  {
    if Add(rows, body).0.BranchAdded? || Add(rows, body).0.HeadquarterAdded? {
      StorePreservesConsistency(rows, Normalize(body).value);
    }
  }

  /** A branch saved before its eleven-character headquarters ends up linked to it. */
  lemma BranchThenHeadquartersConverge(rows: Rows, b: Candidate, h: Candidate)
    requires Consistent(rows) && IsUpper(b.swift)
    requires FirstFailure(rows, b).None? && !IsHeadquarterCode(b.swift)
    requires FirstFailure(Store(rows, b), h).None? && h.swift == ExpectedHeadquarter(b.swift)
    ensures Store(Store(rows, b), h)[b.swift].headquarter == Some(h.swift)
  {
    AcceptedCandidate(rows, b);
    var r1 := Store(rows, b);
    AcceptedCandidate(r1, h);
    StoreBranch(rows, b);
    // the headquarters was absent when the branch was saved, so the branch went in unlinked
    assert r1[b.swift].headquarter == None;
    StoreHeadquarters(r1, h);
  }

  /** A branch saved after its eleven-character headquarters is linked to it straight away. */
  lemma HeadquartersThenBranchConverge(rows: Rows, h: Candidate, b: Candidate)
    requires Consistent(rows) && IsUpper(h.swift)
    requires FirstFailure(rows, h).None? && |b.swift| >= PrefixLength && h.swift == ExpectedHeadquarter(b.swift)
    requires FirstFailure(Store(rows, h), b).None? && !IsHeadquarterCode(b.swift)
    ensures Store(Store(rows, h), b)[b.swift].headquarter == Some(h.swift)
  {
    AcceptedCandidate(rows, h);
    StorePreservesConsistency(rows, h);
    var r1 := Store(rows, h);
    AcceptedCandidate(r1, b);
    StoreHeadquarters(rows, h);
    StoreBranch(r1, b);
  }

  // ---------------------------------------------------------------------------------------
  // DELETE /v1/swift-codes/{swiftCode}

  datatype DeleteOutcome =
    | DeleteNotFound                        // 404 "SWIFT code not found"
    | HeadquarterDeleted(orphaned: nat)     // 200, reporting how many branches were linked
    | BranchDeleted                         // 200 "Branch deleted successfully."

  /** `deleteSwiftCode` as a function of the store: the path code is trimmed and upper-cased first. */
  function Delete(rows: Rows, path: string): (r: (DeleteOutcome, Rows))
    ensures var code := TrimUpper(path);
            && (r.0 == DeleteNotFound <==> code !in rows)
            && (r.0 == DeleteNotFound ==> r.1 == rows)
            && (code in rows ==> r.1.Keys == rows.Keys - {code})
            // the answer names the kind of row deleted
            && (code in rows ==> (r.0.HeadquarterDeleted? <==> rows[code].headquarterFlag))
            && (r.0 == BranchDeleted ==> forall k :: k in r.1 ==> r.1[k] == rows[k])
            // a headquarters delete reports how many rows linked to it; exactly those rows are orphaned
            && (r.0.HeadquarterDeleted? ==>
                  && r.0.orphaned == |LinkedTo(rows, code)|
                  && forall k :: k in r.1 ==>
                       r.1[k].headquarter != Some(code) && (r.1[k] != rows[k] <==> k in LinkedTo(rows, code)))
  {
    var code := TrimUpper(path);
    if code !in rows then (DeleteNotFound, rows)
    else if rows[code].headquarterFlag then (HeadquarterDeleted(|LinkedTo(rows, code)|), Deleted(rows, code))
    else (BranchDeleted, Deleted(rows, code))
  }

  /**
   * The delete endpoint. The service's "not deleted" answer, which would give a 500, cannot
   * occur: the code was just found.
   */
  method DeleteSwiftCode(repo: Repo, path: string) returns (outcome: DeleteOutcome)
    requires repo.Valid()
    modifies repo
    ensures repo.Valid()
    ensures (outcome, repo.rows) == Delete(old(repo.rows), path)
  {
    var swiftCode := TrimUpper(path);
    UpperStable(Trim(path));
    UpperStable(swiftCode);
    var optional := InternService.GetSwiftCodeDetails(repo, swiftCode);
    if optional.None? {
      return DeleteNotFound;
    }
    var isHQ := optional.value.headquarterFlag;
    var linkedBranches: seq<Entry> := [];
    if isHQ {
      linkedBranches := InternService.GetBranchesForHeadquarter(repo, swiftCode);
    }
    var deleted := InternService.DeleteSwiftCode(repo, swiftCode);
    assert deleted;
    if isHQ {
      outcome := HeadquarterDeleted(|linkedBranches|);
    } else {
      outcome := BranchDeleted;
    }
  }

  /** A delete keeps the registry consistent and leaves no row referencing the deleted code. */
  lemma DeletePreservesConsistency(rows: Rows, path: string)
    requires Consistent(rows)
    ensures Consistent(Delete(rows, path).1)
    ensures var code := TrimUpper(path);
            var r := Delete(rows, path).1;
            code !in r && forall k :: k in r ==> r[k].headquarter != Some(code)
  {
    var code := TrimUpper(path);
    DeletePreservesLinks(rows, code);
  }

  /**
   * Deleting a headquarters reports exactly the branches that referenced it, and those
   * branches survive as orphans.
   */
  lemma DeleteReportsOrphanedBranches(rows: Rows, path: string)
    requires Consistent(rows)
    requires Delete(rows, path).0.HeadquarterDeleted?
    ensures var code := TrimUpper(path);
            var r := Delete(rows, path).1;
            && Delete(rows, path).0.orphaned == |LinkedTo(rows, code)|
            && (forall k :: k in LinkedTo(rows, code) && k != code ==> k in r && r[k].headquarter.None?)
  {
    var code := TrimUpper(path);
    var r := Delete(rows, path).1;
    assert code in rows && rows[code].headquarterFlag && r == Unlink(rows, code) - {code};
    forall k | k in LinkedTo(rows, code) && k != code ensures k in r && r[k].headquarter.None? {
      assert Unlink(rows, code)[k] == rows[k].(headquarter := None);
    }
  }

  /**
   * An accepted insert undone by a delete of the same code gives back the registry it
   * started from: the branch row goes, or the headquarters' claimed orphans are orphaned
   * again.
   */
  lemma StoreThenDeleteRestores(rows: Rows, c: Candidate)
    requires Consistent(rows) && FirstFailure(rows, c).None? && IsUpper(c.swift)
    ensures Delete(Store(rows, c), c.swift).1 == rows
  {
    AcceptedCandidate(rows, c);
    TrimNoBlankEnds(c.swift);
    UpperStable(c.swift);
    assert TrimUpper(c.swift) == c.swift;
    var row := NewRow(c);
    if row.headquarterFlag {
      SaveThenDeleteRestores(rows, row);
    } else {
      var hq := ExpectedHeadquarter(c.swift);
      SaveThenDeleteRestores(rows, if hq in rows then row.(headquarter := Some(rows[hq].swiftCode)) else row);
    }
  }

  // ---------------------------------------------------------------------------------------
  // GET /v1/swift-codes/{swiftCode}

  datatype DetailOutcome =
    | InvalidFormat                                  // 400 "Invalid SWIFT code format"
    | DetailNotFound(providedSwiftCode: string)      // 404 "SWIFT code not found"
    | BranchDetails(branch: SwiftCodeDto)            // 200
    | HeadquarterDetails(hq: SwiftCodeWithBranchesDto) // 200

  /** `dto` shows the headquarters row `code` with every row linked to it, each once. */
  ghost predicate ShowsHeadquarters(dto: SwiftCodeWithBranchesDto, rows: Rows, code: string)
    requires code in rows
  {
    var e := rows[code];
    && dto.address == e.address && dto.bankName == e.bankName && dto.countryISO2 == e.countryISO2
    && dto.countryName == e.countryName && dto.isHeadquarter == e.headquarterFlag && dto.swiftCode == e.swiftCode
    && exists list :: Enumerates(list, rows, LinkedTo(rows, code)) && dto.branches == Dtos(list)
  }

  /**
   * The detail endpoint: the trimmed, upper-cased code must be 8 to 11 characters; a branch
   * is shown alone, a headquarters with the rows linked to it.
   */
  method GetSwiftCodeDetails(repo: Repo, path: string) returns (r: DetailOutcome)
    requires repo.Valid()
    ensures var code := TrimUpper(path);
            && (r.InvalidFormat? <==> !(8 <= |code| <= 11))
            && (r.DetailNotFound? <==> 8 <= |code| <= 11 && code !in repo.rows)
            && (r.DetailNotFound? ==> r.providedSwiftCode == code)
            && (r.BranchDetails? ==> code in repo.rows && r.branch == ToDto(repo.rows[code]))
            && (r.HeadquarterDetails? ==> code in repo.rows && ShowsHeadquarters(r.hq, repo.rows, code))
            && (code in repo.rows && 8 <= |code| <= 11 ==>
                  (r.HeadquarterDetails? <==> repo.rows[code].headquarterFlag))
  {
    var swiftCode := TrimUpper(path);
    UpperStable(Trim(path));
    UpperStable(swiftCode);
    if |swiftCode| < 8 || |swiftCode| > 11 {
      return InvalidFormat;
    }
    var swiftCodeOptional := InternService.GetSwiftCodeDetails(repo, swiftCode);
    if swiftCodeOptional.None? {
      return DetailNotFound(swiftCode);
    }
    var details := swiftCodeOptional.value;
    if details.headquarterFlag {
      var branchesList := InternService.GetBranchesForHeadquarter(repo, swiftCode);
      var branches: seq<SwiftCodeDto> := [];
      for i := 0 to |branchesList|
        invariant branches == Dtos(branchesList[..i])
      {
        branches := branches + [ToDto(branchesList[i])];
      }
      assert branchesList[..|branchesList|] == branchesList;
      r := HeadquarterDetails(SwiftCodeWithBranchesDto(details.address, details.bankName, details.countryISO2,
                                                       details.countryName, details.headquarterFlag,
                                                       details.swiftCode, branches));
      return;
    }
    r := BranchDetails(ToDto(details));
  }

  // ---------------------------------------------------------------------------------------
  // GET /v1/swift-codes/country/{countryISO2}

  datatype CountryOutcome =
    | InvalidCountry            // 400 "Invalid country code"
    | CountryNotFound           // 404
    | CountryCodes(countryISO2: string, countryName: string, swiftCodes: seq<Entry>)

  /**
   * The country endpoint: the code is upper-cased then trimmed and must be a table key; an
   * empty result is not found; otherwise the name comes from the first row listed.
   */
  method GetSwiftCodesByCountry(repo: Repo, path: string) returns (r: CountryOutcome)
    requires repo.Valid()
    ensures var iso := Trim(ToUpper(path));
            && (r.InvalidCountry? <==> !InternService.IsValidCountryCode(iso))
            && (r.CountryNotFound? <==> InternService.IsValidCountryCode(iso) && InCountry(repo.rows, iso) == {})
            && (r.CountryCodes? ==>
                  && r.countryISO2 == iso
                  && Enumerates(r.swiftCodes, repo.rows, InCountry(repo.rows, iso))
                  && |r.swiftCodes| > 0 && r.countryName == r.swiftCodes[0].countryName)
  {
    var countryISO2 := Trim(ToUpper(path));
    UpperStable(path);
    TrimKeepsUpper(ToUpper(path));
    UpperStable(countryISO2);
    var swiftCodes := InternService.GetSwiftCodesByCountry(repo, countryISO2);
    if !InternService.IsValidCountryCode(countryISO2) {
      return InvalidCountry;
    }
    if |swiftCodes| == 0 {
      return CountryNotFound;
    }
    r := CountryCodes(ToUpper(countryISO2), swiftCodes[0].countryName, swiftCodes);
  }
}
