/**
 * What `saveSwiftCode` and `deleteSwiftCode` do to the store, as functions of the old rows.
 * Both service classes of the repository share this logic line for line; each service
 * module proves its methods against these functions.
 */
module Linking {
  import opened Wrappers
  import opened Text
  import opened Entity
  import opened Repository

  /** Sets the `headquarter` column of the rows in `keys` to `target`; nothing else changes. */
  function Relink(rows: Rows, keys: set<string>, target: Option<string>): (r: Rows)
    ensures r.Keys == rows.Keys
    ensures forall k :: k in rows ==> r[k] == if k in keys then rows[k].(headquarter := target) else rows[k]
  {
    map k | k in rows :: if k in keys then rows[k].(headquarter := target) else rows[k]
  }

  /** One more row relinked, as the services' loops do it, row by row. */
  lemma RelinkStep(rows: Rows, keys: set<string>, k: string, target: Option<string>)
    requires k in rows
    ensures Relink(rows, keys, target)[k := rows[k].(headquarter := target)] == Relink(rows, keys + {k}, target)
  {
  }

  /** The orphan scan of a headquarters save: every row with no headquarter whose code starts with the prefix. */
  function ClaimOrphans(rows: Rows, hq: string): (r: Rows)
    requires |hq| >= PrefixLength
    ensures r.Keys == rows.Keys
    // an unlinked row starting with the prefix now names `hq`, whatever its flag; every other row is kept
    ensures forall k :: k in rows ==>
              r[k] == if rows[k].headquarter.None? && StartsWith(k, Prefix(hq))
                      then rows[k].(headquarter := Some(hq)) else rows[k]
  {
    Relink(rows, OrphansStartingWith(rows, Prefix(hq)), Some(hq))
  }

  /** The unlinking step of a headquarters delete: every row referencing `hq` loses its reference. */
  function Unlink(rows: Rows, hq: string): (r: Rows)
    ensures r.Keys == rows.Keys
    ensures forall k :: k in r ==> r[k].headquarter != Some(hq)
    // only the rows that referenced `hq` change, and they lose nothing but the reference
    ensures forall k :: k in rows ==>
              r[k] == if rows[k].headquarter == Some(hq) then rows[k].(headquarter := None) else rows[k]
  {
    Relink(rows, LinkedTo(rows, hq), None)
  }

  /** The exceptions `saveSwiftCode` can throw. */
  datatype SaveError =
    | DuplicateCode      // IllegalArgumentException "SWIFT code ... already exists."
    | PrefixOutOfRange   // StringIndexOutOfBoundsException from substring(0, 8)

  /**
   * `saveSwiftCode(row)` once the code has been upper-cased: a duplicate throws and saves
   * nothing; a headquarters first claims the orphans that start with its prefix; then the
   * row itself is saved.
   */
  function Saved(rows: Rows, row: Entry): (r: Result<Rows, SaveError>)
    ensures r == Failure(DuplicateCode) <==> row.swiftCode in rows
    ensures r == Failure(PrefixOutOfRange) <==>
              row.swiftCode !in rows && row.headquarterFlag && |row.swiftCode| < PrefixLength
    ensures r.Success? ==> r.value.Keys == rows.Keys + {row.swiftCode} && r.value[row.swiftCode] == row
    // a branch save writes that one row and no other
    ensures r.Success? && !row.headquarterFlag ==> forall k :: k in rows ==> r.value[k] == rows[k]
    // a headquarters save links exactly the unlinked rows sharing its prefix; linked rows keep their link
    ensures r.Success? && row.headquarterFlag ==>
              forall k :: k in rows ==>
                r.value[k] == if rows[k].headquarter.None? && StartsWith(k, Prefix(row.swiftCode))
                              then rows[k].(headquarter := Some(row.swiftCode))
                              else rows[k]
  {
    if row.swiftCode in rows then Failure(DuplicateCode)
    else if row.headquarterFlag && |row.swiftCode| < PrefixLength then Failure(PrefixOutOfRange)
    else if row.headquarterFlag then Success(ClaimOrphans(rows, row.swiftCode)[row.swiftCode := row])
    else Success(rows[row.swiftCode := row])
  }

  /**
   * `deleteSwiftCode(code)` on a present code: a headquarters first orphans the rows that
   * reference it, then the row is removed. An absent code changes nothing.
   */
  function Deleted(rows: Rows, code: string): (r: Rows)
    ensures code !in rows ==> r == rows
    ensures code in rows ==> r.Keys == rows.Keys - {code}
    ensures code in rows && rows[code].headquarterFlag ==> forall k :: k in r ==> r[k].headquarter != Some(code)
    // branches are orphaned, never deleted; every other field is kept
    ensures forall k :: k in r ==> r[k].(headquarter := rows[k].headquarter) == rows[k]
    // only the links to a deleted headquarters are cleared: every other row survives unchanged
    ensures code in rows ==>
              forall k :: k in r ==>
                r[k] == if rows[code].headquarterFlag && rows[k].headquarter == Some(code)
                        then rows[k].(headquarter := None) else rows[k]
  {
    if code !in rows then rows
    else if rows[code].headquarterFlag then Unlink(rows, code) - {code}
    else rows - {code}
  }

  // ---------------------------------------------------------------------------------------
  // Store invariants

  /** A link names a present headquarters whose code shares the first eight characters. */
  ghost predicate LinkOk(rows: Rows, code: string, hq: string)
  {
    hq in rows && rows[hq].headquarterFlag &&
    |code| >= PrefixLength && |hq| >= PrefixLength && Prefix(hq) == Prefix(code)
  }

  /** Every link in the store is valid: no dangling reference, no link to a branch, no prefix mismatch. */
  ghost predicate LinksValid(rows: Rows)
  {
    forall k :: k in rows && rows[k].headquarter.Some? ==> LinkOk(rows, k, rows[k].headquarter.value)
  }

  /** Every row's flag is the one derived from its code. */
  ghost predicate FlagsDerived(rows: Rows)
  {
    forall k :: k in rows ==> rows[k].headquarterFlag == IsHeadquarterCode(k)
  }

  /** No headquarters row holds a link (the data model's intent; the orphan scan can break it). */
  ghost predicate HeadquartersUnlinked(rows: Rows)
  {
    forall k :: k in rows && rows[k].headquarterFlag ==> rows[k].headquarter.None?
  }

  /** Saving a fresh row whose own link (if any) is valid keeps every link in the store valid. */
  lemma SavePreservesLinks(rows: Rows, row: Entry)
    requires LinksValid(rows)
    requires Saved(rows, row).Success?
    requires row.headquarter.Some? ==> LinkOk(rows, row.swiftCode, row.headquarter.value)
    ensures LinksValid(Saved(rows, row).value)
    ensures (FlagsDerived(rows) && row.headquarterFlag == IsHeadquarterCode(row.swiftCode)) ==>
              FlagsDerived(Saved(rows, row).value)
  {
    var r := Saved(rows, row).value;
    forall k | k in r && r[k].headquarter.Some?
      ensures LinkOk(r, k, r[k].headquarter.value)
    {
      var h := r[k].headquarter.value;
      if k == row.swiftCode {
        assert LinkOk(rows, k, h);
      } else if rows[k].headquarter == Some(h) {
        assert LinkOk(rows, k, h);
        assert r[h].headquarterFlag == rows[h].headquarterFlag;
      } else {
        // claimed by the orphan scan
        assert row.headquarterFlag && h == row.swiftCode && StartsWith(k, Prefix(h));
        assert Prefix(k) == Prefix(h);
      }
    }
  }

  /** Deleting any code keeps every link valid: a headquarters' dependants are orphaned first. */
  lemma DeletePreservesLinks(rows: Rows, code: string)
    requires LinksValid(rows)
    ensures LinksValid(Deleted(rows, code))
    ensures FlagsDerived(rows) ==> FlagsDerived(Deleted(rows, code))
    ensures forall k :: k in Deleted(rows, code) ==> Deleted(rows, code)[k].headquarter != Some(code)
  {
    var r := Deleted(rows, code);
    forall k | k in r && r[k].headquarter.Some?
      ensures LinkOk(r, k, r[k].headquarter.value)
    {
      var h := r[k].headquarter.value;
      assert rows[k].headquarter == Some(h);
      assert LinkOk(rows, k, h);
    }
  }

  /**
   * Deleting a row just saved gives back the store it was saved into: a branch row simply
   * goes, and the orphans a headquarters claimed are orphaned again (no row can have
   * referenced the new code before, since every link names a stored row).
   */
  lemma SaveThenDeleteRestores(rows: Rows, row: Entry)
    requires LinksValid(rows) && Saved(rows, row).Success?
    ensures Deleted(Saved(rows, row).value, row.swiftCode) == rows
  {
    var r1 := Saved(rows, row).value;
    var r2 := Deleted(r1, row.swiftCode);
    if row.headquarterFlag {
      assert r2 == Unlink(r1, row.swiftCode) - {row.swiftCode};
      forall k | k in rows
        ensures r2[k] == rows[k]
      {
        if rows[k].headquarter.Some? {
          assert LinkOk(rows, k, rows[k].headquarter.value);
          assert k !in LinkedTo(r1, row.swiftCode);
        }
      }
      assert r2.Keys == rows.Keys;
    } else {
      assert r1 - {row.swiftCode} == rows;
    }
  }
}
