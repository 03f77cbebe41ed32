/**
 * Two places where the orphan-tolerant application's linking rules disagree with each
 * other, each shown on a concrete pair of inserts the validation chain accepts, and a
 * corrected headquarters scan that removes both.
 *
 * 1. The service's orphan scan (`findByHeadquarterIsNullAndSwiftCodeStartingWith`) does not
 *    look at the headquarters flag, so an 8-character headquarters such as `ABCDEXXX` claims
 *    the headquarters `ABCDEXXXXXX`, whose code starts with `ABCDEXXX`.
 * 2. A branch looks for exactly `prefix + "XXX"`, while a headquarters claims every orphan
 *    that starts with its own first eight characters. The two agree for eleven-character
 *    headquarters only; with `ABCDEXXX` the branch `ABCDEXXXB1` ends up linked or not
 *    depending on which of the two was inserted first.
 */
module InternFindings {
  import opened Wrappers
  import opened Text
  import opened Entity
  import opened Repository
  import opened Linking
  import opened InternController

  /** A request for `code`, as normalisation leaves it, in Poland. */
  function PolishCandidate(code: string): Candidate
  {
    Candidate(code, "PL", "POLAND", "Warsaw", "Bank")
  }

  /** The stored headquarters row of `code`, unlinked. */
  function StoredHeadquarters(code: string): Entry
  {
    Entry(code, Some("Bank"), Some("Warsaw"), "PL", "POLAND", true, None)
  }

  lemma PolandIsCanonical()
    ensures InternService.IsValidCountryCode("PL") && InternService.GetCorrectCountryName("PL") == "POLAND"
  {
    InternService.ValidCountryCodeExamples();
    InternService.CountryNameExamples();
  }

  /** A well-formed code not yet stored passes the whole validation chain with the Polish fields. */
  lemma PolishAccepted(rows: Rows, code: string)
    requires code !in rows && 8 <= |code| <= 11 && IsAlnumWord(code)
    ensures FirstFailure(rows, PolishCandidate(code)).None?
  {
    PolandIsCanonical();
    var c := PolishCandidate(code);
    forall kind ensures !Fails(kind, rows, c) {
      assert |WithDefaultAddress(c.address)| == 6;
    }
  }

  // ---------------------------------------------------------------------------------------
  // Finding 1: a headquarters can be linked to another headquarters

  /** The store holding only the headquarters `ABCDEXXXXXX`. */
  function LongHeadquartersStore(): Rows
  {
    map["ABCDEXXXXXX" := StoredHeadquarters("ABCDEXXXXXX")]
  }

  lemma LongHeadquartersStoreIsConsistent()
    ensures Consistent(LongHeadquartersStore()) && HeadquartersUnlinked(LongHeadquartersStore())
  {
    assert IsAlnumWord("ABCDEXXXXXX") && IsUpper("ABCDEXXXXXX");
  }

  lemma ShortHeadquartersAccepted()
    ensures FirstFailure(LongHeadquartersStore(), PolishCandidate("ABCDEXXX")).None?
    ensures IsHeadquarterCode("ABCDEXXX")
  {
    assert IsAlnumWord("ABCDEXXX");
    PolishAccepted(LongHeadquartersStore(), "ABCDEXXX");
  }

  lemma ShortHeadquartersClaimsLongOne()
    ensures var r := Store(LongHeadquartersStore(), PolishCandidate("ABCDEXXX"));
            r["ABCDEXXXXXX"].headquarter == Some("ABCDEXXX") && r["ABCDEXXXXXX"].headquarterFlag
  {
    StoreHeadquarters(LongHeadquartersStore(), PolishCandidate("ABCDEXXX"));
    assert StartsWith("ABCDEXXXXXX", Prefix("ABCDEXXX"));
  }

  /**
   * With `ABCDEXXXXXX` stored, inserting `ABCDEXXX` passes every check and links the stored
   * headquarters under the new one: the store no longer has only unlinked headquarters.
   */
  lemma HeadquartersClaimedAsOrphan()
    ensures var rows := LongHeadquartersStore();
            var c := PolishCandidate("ABCDEXXX");
            && Consistent(rows) && HeadquartersUnlinked(rows)
            && FirstFailure(rows, c).None? && IsHeadquarterCode(c.swift)
            && Store(rows, c)["ABCDEXXXXXX"].headquarter == Some("ABCDEXXX")
            && !HeadquartersUnlinked(Store(rows, c))
  {
    LongHeadquartersStoreIsConsistent();
    ShortHeadquartersAccepted();
    ShortHeadquartersClaimsLongOne();
  }

  /** The orphans a headquarters should claim: unlinked branches whose own `prefix + "XXX"` is it. */
  function OwnOrphans(rows: Rows, hq: string): set<string>
  {
    set k | k in rows && rows[k].headquarter.None? && !rows[k].headquarterFlag &&
            |k| >= PrefixLength && ExpectedHeadquarter(k) == hq
  }

  /** `saveSwiftCode` with the corrected scan: only the headquarters' own orphan branches are claimed. */
  function FixedSaved(rows: Rows, row: Entry): (r: Result<Rows, SaveError>)
    ensures r == Failure(DuplicateCode) <==> row.swiftCode in rows
    ensures r.Success? ==> r.value.Keys == rows.Keys + {row.swiftCode} && r.value[row.swiftCode] == row
    // only unlinked branches whose own `prefix + "XXX"` is the new headquarters are claimed
    ensures r.Success? ==>
              forall k :: k in rows ==>
                r.value[k] == if row.headquarterFlag && k in OwnOrphans(rows, row.swiftCode)
                              then rows[k].(headquarter := Some(row.swiftCode)) else rows[k]
    ensures r.Success? ==> forall k :: k in rows && rows[k].headquarterFlag ==> r.value[k] == rows[k]
  {
    if row.swiftCode in rows then Failure(DuplicateCode)
    else if row.headquarterFlag && |row.swiftCode| < PrefixLength then Failure(PrefixOutOfRange)
    else if row.headquarterFlag then
      Success(Relink(rows, OwnOrphans(rows, row.swiftCode), Some(row.swiftCode))[row.swiftCode := row])
    else Success(rows[row.swiftCode := row])
  }

  /** With the corrected scan a headquarters insert never links a headquarters, and every link stays valid. */
  lemma FixedScanKeepsHeadquartersUnlinked(rows: Rows, row: Entry)
    requires HeadquartersUnlinked(rows) && LinksValid(rows)
    requires FixedSaved(rows, row).Success?
    requires row.headquarterFlag ==> row.headquarter.None?
    requires row.headquarter.Some? ==> LinkOk(rows, row.swiftCode, row.headquarter.value)
    ensures HeadquartersUnlinked(FixedSaved(rows, row).value)
    ensures LinksValid(FixedSaved(rows, row).value)
  {
    var r := FixedSaved(rows, row).value;
    forall k | k in r && r[k].headquarter.Some?
      ensures LinkOk(r, k, r[k].headquarter.value)
    {
      var h := r[k].headquarter.value;
      if k == row.swiftCode {
        assert LinkOk(rows, k, h);
      } else if rows[k].headquarter == Some(h) {
        assert LinkOk(rows, k, h);
      } else {
        assert k in OwnOrphans(rows, row.swiftCode) && h == row.swiftCode;
        assert Prefix(ExpectedHeadquarter(k)) == Prefix(k);
      }
    }
  }

  // ---------------------------------------------------------------------------------------
  // Finding 2: the link of a branch depends on the order of inserts

  lemma BranchThenShortHeadquarters()
    ensures var b := PolishCandidate("ABCDEXXXB1");
            var h := PolishCandidate("ABCDEXXX");
            && FirstFailure(map[], b).None? && FirstFailure(Store(map[], b), h).None?
            && Store(Store(map[], b), h)["ABCDEXXXB1"].headquarter == Some("ABCDEXXX")
  {
    var b := PolishCandidate("ABCDEXXXB1");
    var h := PolishCandidate("ABCDEXXX");
    assert IsAlnumWord(b.swift) && IsAlnumWord(h.swift);
    PolishAccepted(map[], b.swift);
    StoreBranch(map[], b);
    PolishAccepted(Store(map[], b), h.swift);
    StoreHeadquarters(Store(map[], b), h);
    assert StartsWith("ABCDEXXXB1", Prefix("ABCDEXXX"));
  }

  lemma ShortHeadquartersThenBranch()
    ensures var b := PolishCandidate("ABCDEXXXB1");
            var h := PolishCandidate("ABCDEXXX");
            && FirstFailure(map[], h).None? && FirstFailure(Store(map[], h), b).None?
            && Store(Store(map[], h), b)["ABCDEXXXB1"].headquarter == None
  {
    var b := PolishCandidate("ABCDEXXXB1");
    var h := PolishCandidate("ABCDEXXX");
    assert IsAlnumWord(b.swift) && IsAlnumWord(h.swift);
    PolishAccepted(map[], h.swift);
    StoreHeadquarters(map[], h);
    PolishAccepted(Store(map[], h), b.swift);
    StoreBranch(Store(map[], h), b);
    assert ExpectedHeadquarter("ABCDEXXXB1") == "ABCDEXXXXXX";
  }

  /**
   * Into an empty store, `ABCDEXXXB1` then `ABCDEXXX` leaves the branch linked, while
   * `ABCDEXXX` then `ABCDEXXXB1` leaves it an orphan; all four inserts pass every check.
   */
  lemma LinkDependsOnInsertOrder()
    ensures var b := PolishCandidate("ABCDEXXXB1");
            var h := PolishCandidate("ABCDEXXX");
            && FirstFailure(map[], b).None? && FirstFailure(Store(map[], b), h).None?
            && FirstFailure(map[], h).None? && FirstFailure(Store(map[], h), b).None?
            && Store(Store(map[], b), h)["ABCDEXXXB1"].headquarter == Some("ABCDEXXX")
            && Store(Store(map[], h), b)["ABCDEXXXB1"].headquarter == None
  {
    BranchThenShortHeadquarters();
    ShortHeadquartersThenBranch();
  }

  /** The insert of an accepted candidate with the corrected scan. */
  function FixedStore(rows: Rows, c: Candidate): (r: Rows)
    requires c.swift !in rows && |c.swift| >= PrefixLength
    ensures r.Keys == rows.Keys + {c.swift}
    ensures r[c.swift].(headquarter := None) == NewRow(c)
    // no stored headquarters is ever linked, and stored rows change at most their link
    ensures forall k :: k in rows && rows[k].headquarterFlag ==> r[k] == rows[k]
    ensures forall k :: k in rows ==> r[k].(headquarter := rows[k].headquarter) == rows[k]
  {
    var row := NewRow(c);
    if row.headquarterFlag then FixedSaved(rows, row).value
    else
      var hq := ExpectedHeadquarter(c.swift);
      FixedSaved(rows, if hq in rows then row.(headquarter := Some(rows[hq].swiftCode)) else row).value
  }

  /**
   * With the corrected scan a branch ends up linked to `prefix + "XXX"` exactly when that
   * headquarters exists, whichever of a branch and a headquarters is inserted first.
   */
  lemma FixedLinkingIsOrderIndependent(rows: Rows, b: Candidate, h: Candidate)
    requires Keyed(rows)
    requires b.swift !in rows && h.swift !in rows && b.swift != h.swift
    requires |b.swift| >= PrefixLength && |h.swift| >= PrefixLength
    requires !IsHeadquarterCode(b.swift) && IsHeadquarterCode(h.swift)
    ensures var e := ExpectedHeadquarter(b.swift);
            var linked := if e == h.swift || e in rows then Some(e) else None;
            && FixedStore(FixedStore(rows, b), h)[b.swift].headquarter == linked
            && FixedStore(FixedStore(rows, h), b)[b.swift].headquarter == linked
  {
    var e := ExpectedHeadquarter(b.swift);
    var r1 := FixedStore(rows, b);
    assert r1[b.swift].headquarter == if e in rows then Some(e) else None;
    if r1[b.swift].headquarter.None? && e == h.swift {
      assert b.swift in OwnOrphans(r1, h.swift);
    }
    var r2 := FixedStore(rows, h);
    assert e in r2 <==> e == h.swift || e in rows;
    assert e in r2 ==> r2[e].swiftCode == e;
  }
}
