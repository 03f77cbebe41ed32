/**
 * `CSVParserService.parseAndStoreSwiftData` of the strict application's test tree: a
 * two-pass import of parsed CSV records. Pass 1 saves each record whose trimmed code is not
 * yet stored and remembers the headquarters of the batch by prefix; pass 2 walks the whole
 * store and links every branch whose prefix names one of them. Any exception ends the
 * import where it stands (the outer catch only logs it).
 */
module AtakiImporter {
  import opened Wrappers
  import opened Text
  import opened Entity
  import opened Repository

  /** One CSV record: the columns the importer reads. */
  datatype CsvRecord = CsvRecord(
    swiftCode: string,
    name: string,
    address: string,
    countryISO2: string,
    countryName: string)

  /** The address cleaning: trimmed, stripped of every character outside 0x20-0x7E, trimmed again. */
  function CleanAddress(raw: string): (a: string)
    ensures forall i :: 0 <= i < |a| ==> IsPrintable(a[i])
    ensures NoBlankEnds(a)
    // every printable non-blank character of the raw address is kept, as often as it occurs
    ensures forall c :: IsPrintable(c) && !IsTrimmable(c) ==> multiset(a)[c] == multiset(raw)[c]
  {
    TrimKeepsPrintable(StripNonPrintable(Trim(raw)));
    CleaningKeepsText(raw);
    Trim(StripNonPrintable(Trim(raw)))
  }

  /** The three cleaning steps together drop only blanks and non-printable characters. */
  lemma CleaningKeepsText(raw: string)
    ensures var a := Trim(StripNonPrintable(Trim(raw)));
            forall c :: IsPrintable(c) && !IsTrimmable(c) ==> multiset(a)[c] == multiset(raw)[c]
  {
    var t := Trim(raw);
    var p := StripNonPrintable(t);
    TrimKeepsNonBlank(raw);
    TrimKeepsNonBlank(p);
    forall c | IsPrintable(c) && !IsTrimmable(c)
      ensures multiset(Trim(p))[c] == multiset(raw)[c]
    {
      calc {
        multiset(Trim(p))[c];
        multiset(p)[c];   // the second trim drops only blanks
        multiset(t)[c];   // c is printable
        multiset(raw)[c]; // the first trim drops only blanks
      }
    }
  }

  /** The entity a record becomes: the code trimmed only, ISO2 and name trimmed and upper-cased, no headquarter. */
  function ImportedRow(r: CsvRecord): Entry
  {
    var swiftCode := Trim(r.swiftCode);
    Entry(swiftCode, Some(Trim(r.name)), Some(CleanAddress(r.address)), ToUpper(Trim(r.countryISO2)),
          ToUpper(Trim(r.countryName)), IsHeadquarterCode(swiftCode), None)
  }

  /** The entities of the records, one for one and in file order. */
  function Imported(records: seq<CsvRecord>): (entries: seq<Entry>)
    ensures |entries| == |records|
    ensures forall i :: 0 <= i < |records| ==> entries[i] == ImportedRow(records[i])
  {
    seq(|records|, i requires 0 <= i < |records| => ImportedRow(records[i]))
  }

  /** The state after pass 1: the store, the batch headquarters by prefix, whether an exception ended it. */
  datatype Loaded = Loaded(rows: Rows, headquarters: map<string, string>, aborted: bool)

  /**
   * Pass 1 over the remaining entities: a stored code is skipped (a code repeated in the
   * file included, since its first record was saved); a headquarters goes into the map under
   * its prefix, replacing an earlier one, and a headquarters code shorter than the prefix
   * throws before it is saved.
   */
  function Load(rows: Rows, entries: seq<Entry>, hqs: map<string, string>): (l: Loaded)
    // pass 1 keeps every stored row and every batch headquarters met so far
    ensures rows.Keys <= l.rows.Keys && hqs.Keys <= l.headquarters.Keys
    decreases |entries|
  {
    if entries == [] then Loaded(rows, hqs, false)
    else
      var e := entries[0];
      if e.swiftCode in rows then Load(rows, entries[1..], hqs)
      else if e.headquarterFlag && |e.swiftCode| < PrefixLength then Loaded(rows, hqs, true)
      else Load(rows[e.swiftCode := e], entries[1..],
                if e.headquarterFlag then hqs[Prefix(e.swiftCode) := e.swiftCode] else hqs)
  }

  /** A row pass 2 links: not a headquarters, and its prefix names a batch headquarters. */
  predicate Linkable(e: Entry, hqs: map<string, string>)
  {
    !e.headquarterFlag && |e.swiftCode| >= PrefixLength && Prefix(e.swiftCode) in hqs
  }

  /**
   * Pass 2 over the remaining rows of the `findAll` list: each non-headquarters row is
   * linked to the batch headquarters of its prefix, if any, and saved; a non-headquarters
   * code shorter than the prefix throws.
   */
  function LinkPass(rows: Rows, list: seq<Entry>, hqs: map<string, string>): (r: (Rows, bool))
    // pass 2 adds no row but those of the list
    ensures rows.Keys <= r.0.Keys <= rows.Keys + Codes(list)
    decreases |list|
  {
    if list == [] then (rows, false)
    else
      var branch := list[0];
      CodesCons(list);
      if branch.headquarterFlag then LinkPass(rows, list[1..], hqs)
      else if |branch.swiftCode| < PrefixLength then (rows, true)
      else if Prefix(branch.swiftCode) in hqs then
        LinkPass(rows[branch.swiftCode := branch.(headquarter := Some(hqs[Prefix(branch.swiftCode)]))], list[1..], hqs)
      else LinkPass(rows, list[1..], hqs)
  }

  /** The rows of `keys` that pass 2 links, linked; every other row as it was. */
  function Linked(rows: Rows, keys: set<string>, hqs: map<string, string>): (r: Rows)
    ensures r.Keys == rows.Keys
  {
    map k | k in rows ::
      if k in keys && Linkable(rows[k], hqs) then rows[k].(headquarter := Some(hqs[Prefix(rows[k].swiftCode)]))
      else rows[k]
  }

  /**
   * The import: pass 1 over the records in file order, then pass 2 over the list `findAll`
   * returns, in the order it came; `NoShortBranchMeansOrderFree` shows that order matters
   * only when pass 2 throws.
   */
  method ParseAndStoreSwiftData(repo: Repo, records: seq<CsvRecord>) returns (aborted: bool)
    requires repo.Valid()
    modifies repo
    ensures repo.Valid()
    ensures var l := Load(old(repo.rows), Imported(records), map[]);
            if l.aborted then aborted && repo.rows == l.rows
            else exists list :: Enumerates(list, l.rows, l.rows.Keys) &&
                                (repo.rows, aborted) == LinkPass(l.rows, list, l.headquarters)
  {
    var headquartersMap;
    aborted, headquartersMap := StoreRecords(repo, records);
    if aborted {
      return;
    }
    var all := repo.FindAll();
    aborted := LinkBranches(repo, all, headquartersMap);
  }

  /** Pass 1: each record not yet stored is saved, and each headquarters filed under its prefix. */
  method StoreRecords(repo: Repo, records: seq<CsvRecord>) returns (aborted: bool, headquartersMap: map<string, string>)
    requires repo.Valid()
    modifies repo
    ensures repo.Valid()
    ensures Load(old(repo.rows), Imported(records), map[]) == Loaded(repo.rows, headquartersMap, aborted)
  {
    ghost var entries := Imported(records);
    ghost var target := Load(repo.rows, entries, map[]);
    headquartersMap := map[];
    var i := 0;
    while i < |records|
      invariant 0 <= i <= |records| && repo.Valid()
      invariant target == Load(repo.rows, entries[i..], headquartersMap)
    {
      ghost var rows1, hqs1 := repo.rows, headquartersMap;
      aborted, headquartersMap := StoreRecord(repo, records[i], entries[i], headquartersMap);
      LoadStep(rows1, entries[i..], hqs1, repo.rows, headquartersMap, aborted);
      assert entries[i..][1..] == entries[i + 1..];
      if aborted {
        return;
      }
      i := i + 1;
    }
    aborted := false;
  }

  /** One record of pass 1, as `StoreRecord` performs it, advances `Load` by one entity. */
  lemma LoadStep(rows: Rows, entries: seq<Entry>, hqs: map<string, string>,
                 rows1: Rows, hqs1: map<string, string>, aborted: bool)
    requires entries != []
    requires var e := entries[0];
             if e.swiftCode in rows then !aborted && rows1 == rows && hqs1 == hqs
             else if e.headquarterFlag && |e.swiftCode| < PrefixLength then aborted && rows1 == rows && hqs1 == hqs
             else
               && !aborted && rows1 == rows[e.swiftCode := e]
               && hqs1 == if e.headquarterFlag then hqs[Prefix(e.swiftCode) := e.swiftCode] else hqs
    ensures aborted ==> Load(rows, entries, hqs) == Loaded(rows1, hqs1, true)
    ensures !aborted ==> Load(rows, entries, hqs) == Load(rows1, entries[1..], hqs1)
  {
  }

  /** One record of pass 1: skipped when its trimmed code is stored, otherwise saved (and filed when a headquarters). */
  method StoreRecord(repo: Repo, record: CsvRecord, ghost e: Entry, hqs: map<string, string>)
    returns (aborted: bool, headquartersMap: map<string, string>)
    requires repo.Valid() && e == ImportedRow(record)
    modifies repo
    ensures repo.Valid()
    ensures if e.swiftCode in old(repo.rows) then !aborted && repo.rows == old(repo.rows) && headquartersMap == hqs
            else if e.headquarterFlag && |e.swiftCode| < PrefixLength then
              aborted && repo.rows == old(repo.rows) && headquartersMap == hqs
            else
              && !aborted && repo.rows == old(repo.rows)[e.swiftCode := e]
              && headquartersMap == if e.headquarterFlag then hqs[Prefix(e.swiftCode) := e.swiftCode] else hqs
  {
    headquartersMap := hqs;
    var swiftCode := Trim(record.swiftCode);
    var duplicate := repo.ExistsById(swiftCode);
    if duplicate {
      return false, headquartersMap;
    }
    var bankName := Trim(record.name);
    var address := CleanAddress(record.address);
    var countryISO2 := ToUpper(Trim(record.countryISO2));
    var countryName := ToUpper(Trim(record.countryName));
    var isHeadquarter := EndsWith(swiftCode, "XXX");
    var swiftEntry := new SwiftCode(swiftCode, Some(bankName), Some(address), countryISO2, countryName, isHeadquarter);
    assert swiftEntry.Row() == ImportedRow(record);
    if isHeadquarter {
      if |swiftCode| < PrefixLength {
        return true, headquartersMap;
      }
      headquartersMap := headquartersMap[swiftCode[..PrefixLength] := swiftCode];
    }
    repo.Save(swiftEntry.Row());
    aborted := false;
  }

  /** Pass 2: each non-headquarters row of `all` whose prefix is mapped is linked and saved. */
  method LinkBranches(repo: Repo, all: seq<Entry>, headquartersMap: map<string, string>) returns (aborted: bool)
    requires repo.Valid()
    modifies repo
    ensures repo.Valid()
    ensures (repo.rows, aborted) == LinkPass(old(repo.rows), all, headquartersMap)
  {
    ghost var rows0 := repo.rows;
    var j := 0;
    while j < |all|
      invariant 0 <= j <= |all| && repo.Valid()
      invariant LinkPass(rows0, all, headquartersMap) == LinkPass(repo.rows, all[j..], headquartersMap)
    {
      assert all[j..][1..] == all[j + 1..];
      var branch := all[j];
      if !branch.headquarterFlag {
        if |branch.swiftCode| < PrefixLength {
          return true;
        }
        var prefix := branch.swiftCode[..PrefixLength];
        if prefix in headquartersMap {
          repo.Save(branch.(headquarter := Some(headquartersMap[prefix])));
        }
      }
      j := j + 1;
    }
    aborted := false;
  }

  // ---------------------------------------------------------------------------------------
  // Pass 1

  /** Every headquarters in the map is a stored headquarters row filed under its own prefix. */
  ghost predicate MapValid(rows: Rows, hqs: map<string, string>)
  {
    forall p :: p in hqs ==>
      hqs[p] in rows && rows[hqs[p]].headquarterFlag && |hqs[p]| >= PrefixLength && Prefix(hqs[p]) == p
  }

  /** Pass 1 never overwrites a stored row: a code already present is skipped. */
  lemma {:induction false} LoadKeepsStoredRows(rows: Rows, entries: seq<Entry>, hqs: map<string, string>)
    ensures var l := Load(rows, entries, hqs);
            forall k :: k in rows ==> k in l.rows && l.rows[k] == rows[k]
    decreases |entries|
  {
    if entries != [] {
      var e := entries[0];
      if e.swiftCode in rows {
        LoadKeepsStoredRows(rows, entries[1..], hqs);
      } else if !(e.headquarterFlag && |e.swiftCode| < PrefixLength) {
        LoadKeepsStoredRows(rows[e.swiftCode := e], entries[1..],
                            if e.headquarterFlag then hqs[Prefix(e.swiftCode) := e.swiftCode] else hqs);
      }
    }
  }

  /** Unless pass 1 throws, every entity's code is stored afterwards: saved then, or stored before. */
  lemma {:induction false} LoadStoresEveryRecord(rows: Rows, entries: seq<Entry>, hqs: map<string, string>)
    ensures var l := Load(rows, entries, hqs);
            !l.aborted ==> forall i :: 0 <= i < |entries| ==> entries[i].swiftCode in l.rows
    decreases |entries|
  {
    if entries != [] {
      var e := entries[0];
      var tail := entries[1..];
      if e.swiftCode in rows {
        LoadStoresEveryRecord(rows, tail, hqs);
        assert forall i :: 1 <= i < |entries| ==> entries[i] == tail[i - 1];
      } else if !(e.headquarterFlag && |e.swiftCode| < PrefixLength) {
        var rows1 := rows[e.swiftCode := e];
        var hqs1 := if e.headquarterFlag then hqs[Prefix(e.swiftCode) := e.swiftCode] else hqs;
        LoadStoresEveryRecord(rows1, tail, hqs1);
        assert forall i :: 1 <= i < |entries| ==> entries[i] == tail[i - 1];
      }
    }
  }

  /**
   * Each row pass 1 adds is the first entity of the batch with that code; later ones with
   * the same code are skipped.
   */
  lemma {:induction false} LoadAddsFirstRecords(rows: Rows, entries: seq<Entry>, hqs: map<string, string>)
    ensures var l := Load(rows, entries, hqs);
            forall k :: k in l.rows && k !in rows ==>
              exists i :: 0 <= i < |entries| && l.rows[k] == entries[i] &&
                          forall j :: 0 <= j < i ==> entries[j].swiftCode != k
    decreases |entries|
  {
    if entries != [] {
      var e := entries[0];
      var tail := entries[1..];
      if e.swiftCode in rows {
        LoadAddsFirstRecords(rows, tail, hqs);
        LoadKeepsStoredRows(rows, tail, hqs);
        FirstInTail(rows, entries, Load(rows, tail, hqs).rows, rows);
      } else if !(e.headquarterFlag && |e.swiftCode| < PrefixLength) {
        var rows1 := rows[e.swiftCode := e];
        var hqs1 := if e.headquarterFlag then hqs[Prefix(e.swiftCode) := e.swiftCode] else hqs;
        LoadAddsFirstRecords(rows1, tail, hqs1);
        LoadKeepsStoredRows(rows1, tail, hqs1);
        FirstInTail(rows, entries, Load(rows1, tail, hqs1).rows, rows1);
      }
    }
  }

  /** A row that is first in the tail of the entities, and whose code is not the head's, is first in all of them. */
  lemma FirstInTail(rows: Rows, entries: seq<Entry>, result: Rows, rows1: Rows)
    requires entries != []
    requires rows1 == rows || rows1 == rows[entries[0].swiftCode := entries[0]]
    requires entries[0].swiftCode in rows1
    requires forall k :: k in rows1 ==> k in result && result[k] == rows1[k]
    requires forall k :: k in result && k !in rows1 ==>
               exists i :: 0 <= i < |entries[1..]| && result[k] == entries[1..][i] &&
                           forall j :: 0 <= j < i ==> entries[1..][j].swiftCode != k
    ensures forall k :: k in result && k !in rows ==>
              exists i :: 0 <= i < |entries| && result[k] == entries[i] &&
                          forall j :: 0 <= j < i ==> entries[j].swiftCode != k
  {
    forall k | k in result && k !in rows
      ensures exists i :: 0 <= i < |entries| && result[k] == entries[i] &&
                          forall j :: 0 <= j < i ==> entries[j].swiftCode != k
    {
      if k in rows1 {
        assert k == entries[0].swiftCode && result[k] == entries[0];
      } else {
        var i :| 0 <= i < |entries[1..]| && result[k] == entries[1..][i] &&
                 forall j :: 0 <= j < i ==> entries[1..][j].swiftCode != k;
        forall j | 0 <= j < i + 1 ensures entries[j].swiftCode != k {
          if j > 0 {
            assert entries[j] == entries[1..][j - 1];
          }
        }
        assert result[k] == entries[i + 1];
      }
    }
  }

  /**
   * Pass 1 keeps the map valid and the store keyed, adds no link, and files every
   * headquarters it adds: each has a full prefix, and some batch headquarters is mapped
   * under it.
   */
  lemma {:induction false} LoadFilesHeadquarters(rows: Rows, entries: seq<Entry>, hqs: map<string, string>)
    requires Keyed(rows) && MapValid(rows, hqs)
    requires forall i :: 0 <= i < |entries| ==> entries[i].headquarter.None?
    ensures var l := Load(rows, entries, hqs);
            && Keyed(l.rows) && MapValid(l.rows, l.headquarters) && hqs.Keys <= l.headquarters.Keys
            && (forall k :: k in l.rows && k !in rows ==> l.rows[k].headquarter.None?)
            && (forall k :: k in l.rows && k !in rows && l.rows[k].headquarterFlag ==>
                  |k| >= PrefixLength && Prefix(k) in l.headquarters)
    decreases |entries|
  {
    if entries != [] {
      var e := entries[0];
      var tail := entries[1..];
      assert forall i :: 0 <= i < |tail| ==> tail[i] == entries[i + 1];
      if e.swiftCode in rows {
        LoadFilesHeadquarters(rows, tail, hqs);
      } else if !(e.headquarterFlag && |e.swiftCode| < PrefixLength) {
        var rows1 := rows[e.swiftCode := e];
        var hqs1 := if e.headquarterFlag then hqs[Prefix(e.swiftCode) := e.swiftCode] else hqs;
        assert MapValid(rows1, hqs1);
        LoadFilesHeadquarters(rows1, tail, hqs1);
        LoadKeepsStoredRows(rows1, tail, hqs1);
      }
    }
  }

  /** Of two batch headquarters with one prefix, the later is the one branches are linked to. */
  lemma LaterHeadquartersReplacesEarlier(rows: Rows, early: Entry, late: Entry)
    requires early.swiftCode !in rows && late.swiftCode !in rows && early.swiftCode != late.swiftCode
    requires early.headquarterFlag && late.headquarterFlag
    requires |early.swiftCode| >= PrefixLength && |late.swiftCode| >= PrefixLength
    requires Prefix(early.swiftCode) == Prefix(late.swiftCode)
    ensures Load(rows, [early, late], map[]).headquarters == map[Prefix(late.swiftCode) := late.swiftCode]
  {
    var p := Prefix(late.swiftCode);
    var rows1 := rows[early.swiftCode := early];
    assert [early, late][1..] == [late];
    assert Load(rows, [early, late], map[]) == Load(rows1, [late], map[p := early.swiftCode]);
    assert [late][1..] == [];
    assert late.swiftCode !in rows1;
    assert Load(rows1, [late], map[p := early.swiftCode]).headquarters == map[p := early.swiftCode][p := late.swiftCode];
    assert map[p := early.swiftCode][p := late.swiftCode] == map[p := late.swiftCode];
  }

  // ---------------------------------------------------------------------------------------
  // Pass 2

  /** `list` holds current rows of `rows`, each code once. */
  ghost predicate Snapshot(rows: Rows, list: seq<Entry>)
  {
    (forall i :: 0 <= i < |list| ==> list[i].swiftCode in rows && rows[list[i].swiftCode] == list[i]) &&
    (forall i, j :: 0 <= i < j < |list| ==> list[i].swiftCode != list[j].swiftCode)
  }

  /** No non-headquarters row of `list` has a code shorter than the prefix. */
  ghost predicate NoShortBranch(list: seq<Entry>)
  {
    forall i :: 0 <= i < |list| && !list[i].headquarterFlag ==> |list[i].swiftCode| >= PrefixLength
  }

  /** The first row of a snapshot, and the snapshot after it. */
  lemma SnapshotCons(rows: Rows, list: seq<Entry>)
    requires list != [] && Snapshot(rows, list)
    ensures Codes(list) == {list[0].swiftCode} + Codes(list[1..])
    ensures list[0].swiftCode !in Codes(list[1..])
    ensures NoShortBranch(list) ==> NoShortBranch(list[1..])
  {
    var tail := list[1..];
    assert list == [list[0]] + tail;
    CodesAppend([list[0]], list[0]);
    forall c | c in Codes(list) ensures c in {list[0].swiftCode} + Codes(tail) {
      var i :| 0 <= i < |list| && list[i].swiftCode == c;
      if i > 0 {
        assert tail[i - 1] == list[i];
      }
    }
    forall c | c in Codes(tail) ensures c in Codes(list) {
      var i :| 0 <= i < |tail| && tail[i].swiftCode == c;
      assert list[i + 1] == tail[i];
    }
    forall i | 0 <= i < |tail| ensures tail[i].swiftCode != list[0].swiftCode {
      assert tail[i] == list[i + 1];
    }
  }

  /** Linking the first row of a snapshot leaves the rest of it a snapshot of the new store. */
  lemma SnapshotAfterFirst(rows: Rows, list: seq<Entry>, rows1: Rows)
    requires list != [] && Snapshot(rows, list) && list[0].swiftCode !in Codes(list[1..])
    requires rows1.Keys == rows.Keys
    requires forall k :: k in rows && k != list[0].swiftCode ==> rows1[k] == rows[k]
    ensures Snapshot(rows1, list[1..])
  {
    var tail := list[1..];
    forall i | 0 <= i < |tail| ensures tail[i].swiftCode in rows1 && rows1[tail[i].swiftCode] == tail[i] {
      assert tail[i] == list[i + 1];
      assert tail[i].swiftCode in Codes(tail);
    }
    forall i, j | 0 <= i < j < |tail| ensures tail[i].swiftCode != tail[j].swiftCode {
      assert tail[i] == list[i + 1] && tail[j] == list[j + 1];
    }
  }

  /**
   * When no branch code in the list is short, pass 2 completes and links exactly the
   * linkable rows of the list, whatever the order of the list.
   */
  lemma {:induction false} LinkPassClosedForm(rows: Rows, list: seq<Entry>, hqs: map<string, string>)
    requires Keyed(rows) && Snapshot(rows, list) && NoShortBranch(list)
    ensures LinkPass(rows, list, hqs) == (Linked(rows, Codes(list), hqs), false)
    decreases |list|
  {
    if list == [] {
      assert Codes(list) == {};
      assert Linked(rows, {}, hqs) == rows;
    } else {
      var b := list[0];
      var tail := list[1..];
      SnapshotCons(rows, list);
      var rows1 := if Linkable(b, hqs) then rows[b.swiftCode := b.(headquarter := Some(hqs[Prefix(b.swiftCode)]))]
                   else rows;
      SnapshotAfterFirst(rows, list, rows1);
      assert LinkPass(rows, list, hqs) == LinkPass(rows1, tail, hqs);
      LinkPassClosedForm(rows1, tail, hqs);
      LinkedAfterFirst(rows, b, Codes(tail), hqs, rows1);
    }
  }

  /** Linking the first listed row, then the rest, is linking all of them. */
  lemma LinkedAfterFirst(rows: Rows, b: Entry, rest: set<string>, hqs: map<string, string>, rows1: Rows)
    requires Keyed(rows) && b.swiftCode in rows && rows[b.swiftCode] == b && b.swiftCode !in rest
    requires rows1 == if Linkable(b, hqs) then rows[b.swiftCode := b.(headquarter := Some(hqs[Prefix(b.swiftCode)]))]
                      else rows
    ensures Linked(rows1, rest, hqs) == Linked(rows, {b.swiftCode} + rest, hqs)
  {
    var left := Linked(rows1, rest, hqs);
    var right := Linked(rows, {b.swiftCode} + rest, hqs);
    forall k | k in rows ensures left[k] == right[k] {
      if k != b.swiftCode {
        assert rows1[k] == rows[k];
      }
    }
  }

  /** A short branch code anywhere in the list makes pass 2 throw. */
  lemma {:induction false} ShortBranchAborts(rows: Rows, list: seq<Entry>, hqs: map<string, string>)
    requires !NoShortBranch(list)
    ensures LinkPass(rows, list, hqs).1
    decreases |list|
  {
    var b := list[0];
    if b.headquarterFlag || |b.swiftCode| >= PrefixLength {
      assert !NoShortBranch(list[1..]) by {
        var i :| 0 <= i < |list| && !list[i].headquarterFlag && |list[i].swiftCode| < PrefixLength;
        assert list[1..][i - 1] == list[i];
      }
      var rows1 := if !b.headquarterFlag && Prefix(b.swiftCode) in hqs
                   then rows[b.swiftCode := b.(headquarter := Some(hqs[Prefix(b.swiftCode)]))] else rows;
      ShortBranchAborts(rows1, list[1..], hqs);
    }
  }

  /** Every row pass 2 links names a stored headquarters of its own prefix. */
  lemma LinksNameBatchHeadquarters(rows: Rows, keys: set<string>, hqs: map<string, string>)
    requires Keyed(rows) && MapValid(rows, hqs)
    ensures var r := Linked(rows, keys, hqs);
            forall k :: k in keys && k in r && Linkable(r[k], hqs) ==>
              var hq := hqs[Prefix(k)];
              && r[k].headquarter == Some(hq)
              && hq in r && r[hq].headquarterFlag && |hq| >= PrefixLength && Prefix(hq) == Prefix(k)
  {
    var r := Linked(rows, keys, hqs);
    forall k | k in keys && k in r && Linkable(r[k], hqs)
      ensures r[k].headquarter == Some(hqs[Prefix(k)])
      ensures hqs[Prefix(k)] in r && r[hqs[Prefix(k)]].headquarterFlag && Prefix(hqs[Prefix(k)]) == Prefix(k)
    {
      assert Linkable(rows[k], hqs) && rows[k].swiftCode == k;
      var hq := hqs[Prefix(k)];
      assert rows[hq].headquarterFlag && r[hq].headquarterFlag == rows[hq].headquarterFlag;
    }
  }

  /** Pass 2 over a complete `findAll` list of a store pass 1 left keyed, with a valid map. */
  lemma LinkPassAfterLoad(rows: Rows, loaded: Rows, hqs: map<string, string>, list: seq<Entry>)
    requires Keyed(loaded) && MapValid(loaded, hqs)
    requires forall k :: k in rows ==> k in loaded && loaded[k] == rows[k]
    requires Enumerates(list, loaded, loaded.Keys) && NoShortBranch(list)
    ensures var r := LinkPass(loaded, list, hqs).0;
            && !LinkPass(loaded, list, hqs).1
            && r == Linked(loaded, loaded.Keys, hqs) && Keyed(r)
            && (forall k :: k in rows ==> k in r && r[k].(headquarter := rows[k].headquarter) == rows[k])
            && (forall k :: k in r && Linkable(r[k], hqs) ==>
                  var hq := hqs[Prefix(k)];
                  && r[k].headquarter == Some(hq)
                  && hq in r && r[hq].headquarterFlag && |hq| >= PrefixLength && Prefix(hq) == Prefix(k))
  {
    assert Snapshot(loaded, list);
    LinkPassClosedForm(loaded, list, hqs);
    LinkedKeepsRows(rows, loaded, hqs);
    LinksNameBatchHeadquarters(loaded, loaded.Keys, hqs);
  }

  /** Linking keeps every row under its own code and changes no row but its link. */
  lemma LinkedKeepsRows(rows: Rows, loaded: Rows, hqs: map<string, string>)
    requires Keyed(loaded)
    requires forall k :: k in rows ==> k in loaded && loaded[k] == rows[k]
    ensures var r := Linked(loaded, loaded.Keys, hqs);
            && Keyed(r)
            && forall k :: k in rows ==> k in r && r[k].(headquarter := rows[k].headquarter) == rows[k]
  {
    var r := Linked(loaded, loaded.Keys, hqs);
    forall k | k in rows ensures k in r && r[k].(headquarter := rows[k].headquarter) == rows[k] {
      assert loaded[k] == rows[k];
    }
  }

  /** `NoShortBranchMeansOrderFree` over the entities pass 1 receives, which carry no link. */
  lemma LinkedAfterLoad(rows: Rows, entries: seq<Entry>, list: seq<Entry>)
    requires Keyed(rows) && forall i :: 0 <= i < |entries| ==> entries[i].headquarter.None?
    requires var l := Load(rows, entries, map[]);
             !l.aborted && Enumerates(list, l.rows, l.rows.Keys) && NoShortBranch(list)
    ensures var l := Load(rows, entries, map[]);
            var r := LinkPass(l.rows, list, l.headquarters).0;
            && !LinkPass(l.rows, list, l.headquarters).1
            && r == Linked(l.rows, l.rows.Keys, l.headquarters) && Keyed(r)
            && (forall k :: k in rows ==> k in r && r[k].(headquarter := rows[k].headquarter) == rows[k])
            && (forall k :: k in r && Linkable(r[k], l.headquarters) ==>
                  var hq := l.headquarters[Prefix(k)];
                  && r[k].headquarter == Some(hq)
                  && hq in r && r[hq].headquarterFlag && |hq| >= PrefixLength && Prefix(hq) == Prefix(k))
  {
    var l := Load(rows, entries, map[]);
    LoadFilesHeadquarters(rows, entries, map[]);
    LoadKeepsStoredRows(rows, entries, map[]);
    LinkPassAfterLoad(rows, l.rows, l.headquarters, list);
  }

  /**
   * The whole import, when pass 1 completes and the store holds no short branch code:
   * pass 2 completes, its result does not depend on the order of `findAll`, every branch
   * whose prefix names a batch headquarters is linked to it, every other row keeps its
   * link, and every link made names a stored headquarters with the same prefix.
   */
  lemma NoShortBranchMeansOrderFree(rows: Rows, records: seq<CsvRecord>, list: seq<Entry>)
    requires Keyed(rows)
    requires var l := Load(rows, Imported(records), map[]);
             !l.aborted && Enumerates(list, l.rows, l.rows.Keys) && NoShortBranch(list)
    ensures var l := Load(rows, Imported(records), map[]);
            var r := LinkPass(l.rows, list, l.headquarters).0;
            && !LinkPass(l.rows, list, l.headquarters).1
            && r == Linked(l.rows, l.rows.Keys, l.headquarters) && Keyed(r)
            && (forall k :: k in rows ==> k in r && r[k].(headquarter := rows[k].headquarter) == rows[k])
            && (forall k :: k in r && Linkable(r[k], l.headquarters) ==>
                  var hq := l.headquarters[Prefix(k)];
                  && r[k].headquarter == Some(hq)
                  && hq in r && r[hq].headquarterFlag && |hq| >= PrefixLength && Prefix(hq) == Prefix(k))
  {
    ImportedCarryNoLink(records);
    LinkedAfterLoad(rows, Imported(records), list);
  }

  /** The entities made from CSV records carry no headquarters link. */
  lemma ImportedCarryNoLink(records: seq<CsvRecord>)
    ensures forall i :: 0 <= i < |Imported(records)| ==> Imported(records)[i].headquarter.None?
  {
  }
}
