/**
 * The Spring Data repository over `swift_codes`: a finite map from primary key to row.
 * Each derived query method is a filter over that map; its result list comes back in an
 * order the database chooses, which the model leaves arbitrary.
 */
module Repository {
  import opened Wrappers
  import opened Text
  import opened Entity

  type Rows = map<string, Entry>

  /** The primary key is the row's own `swiftCode`, so no code is stored twice. */
  ghost predicate Keyed(rows: Rows)
  {
    forall k :: k in rows ==> rows[k].swiftCode == k
  }

  /** `findByHeadquarterIsNullAndSwiftCodeStartingWith(prefix)`. */
  function OrphansStartingWith(rows: Rows, prefix: string): set<string>
  {
    set k | k in rows && rows[k].headquarter.None? && StartsWith(k, prefix)
  }

  /** `findBySwiftCodeStartingWithAndHeadquarterFlagFalse(prefix)`. */
  function BranchesStartingWith(rows: Rows, prefix: string): set<string>
  {
    set k | k in rows && !rows[k].headquarterFlag && StartsWith(k, prefix)
  }

  /** `findByHeadquarter(hq)` and `findByHeadquarter_SwiftCode(code)`: the rows whose join column is `hq`. */
  function LinkedTo(rows: Rows, hq: string): set<string>
  {
    set k | k in rows && rows[k].headquarter == Some(hq)
  }

  /** `findByCountryISO2IgnoreCase(iso2)`. */
  function InCountry(rows: Rows, iso2: string): set<string>
  {
    set k | k in rows && ToUpper(rows[k].countryISO2) == ToUpper(iso2)
  }

  /** The codes listed in `list`. */
  function Codes(list: seq<Entry>): set<string>
  {
    set i | 0 <= i < |list| :: list[i].swiftCode
  }

  /** `list` lists the rows with the codes in `keys`, each exactly once, in some order. */
  ghost predicate Enumerates(list: seq<Entry>, rows: Rows, keys: set<string>)
  {
    Codes(list) == keys && |list| == |keys| &&
    (forall i :: 0 <= i < |list| ==> list[i].swiftCode in rows && list[i] == rows[list[i].swiftCode]) &&
    (forall i, j :: 0 <= i < j < |list| ==> list[i].swiftCode != list[j].swiftCode)
  }

  lemma CodesAppend(list: seq<Entry>, e: Entry)
    ensures Codes(list + [e]) == Codes(list) + {e.swiftCode}
  {
    var l := list + [e];
    assert forall i :: 0 <= i < |list| ==> l[i] == list[i];
    assert l[|list|] == e;
  }

  /** Appending one more row keeps an enumeration duplicate-free and complete. */
  lemma EnumeratesAppend(list: seq<Entry>, rows: Rows, done: set<string>, k: string)
    requires Keyed(rows) && Enumerates(list, rows, done) && k in rows && k !in done
    ensures Enumerates(list + [rows[k]], rows, done + {k})
  {
    CodesAppend(list, rows[k]);
    var l := list + [rows[k]];
    forall i, j | 0 <= i < j < |l| ensures l[i].swiftCode != l[j].swiftCode {
      if j == |list| {
        assert l[i].swiftCode in Codes(list);
      }
    }
  }

  /** One step of reading the rows of `keys` one by one: the row `k` moves from `rest` to `list`. */
  lemma SelectStep(list: seq<Entry>, rows: Rows, keys: set<string>, rest: set<string>, k: string)
    requires Keyed(rows) && keys <= rows.Keys && rest <= keys && k in rest
    requires Enumerates(list, rows, keys - rest)
    ensures Enumerates(list + [rows[k]], rows, keys - (rest - {k}))
  {
    EnumeratesAppend(list, rows, keys - rest, k);
    assert (keys - rest) + {k} == keys - (rest - {k});
  }

  /** The codes of a list are its first code and the codes of the rest. */
  lemma CodesCons(list: seq<Entry>)
    requires list != []
    ensures Codes(list) == {list[0].swiftCode} + Codes(list[1..])
  {
    var tail := list[1..];
    forall c | c in Codes(list) ensures c in {list[0].swiftCode} + Codes(tail) {
      var i :| 0 <= i < |list| && list[i].swiftCode == c;
      if i > 0 {
        assert tail[i - 1] == list[i];
      }
    }
    forall c | c in Codes(tail) ensures c in Codes(list) {
      var i :| 0 <= i < |tail| && tail[i].swiftCode == c;
      assert list[i + 1] == tail[i];
    }
  }

  lemma CodesPrefix(list: seq<Entry>, i: nat)
    requires i < |list|
    ensures Codes(list[..i + 1]) == Codes(list[..i]) + {list[i].swiftCode}
  {
    assert list[..i + 1] == list[..i] + [list[i]];
    CodesAppend(list[..i], list[i]);
  }

  class Repo {
    var rows: Rows

    ghost predicate Valid()
      reads this
    {
      Keyed(rows)
    }

    constructor ()
      ensures Valid() && rows == map[]
    {
      rows := map[];
    }

    /** `findById(code)`. */
    method FindById(code: string) returns (r: Option<Entry>)
      requires Valid()
      ensures r.Some? <==> code in rows
      ensures r.Some? ==> r.value == rows[code] && r.value.swiftCode == code
    {
      r := if code in rows then Some(rows[code]) else None;
    }

    /** `existsBySwiftCode(code)` and `existsById(code)`. */
    method ExistsById(code: string) returns (b: bool)
      ensures b <==> code in rows
    {
      b := code in rows;
    }

    /** `save(row)`: an upsert keyed by the row's code. */
    method Save(row: Entry)
      requires Valid()
      modifies this
      ensures Valid()
      ensures rows == old(rows)[row.swiftCode := row]
    {
      rows := rows[row.swiftCode := row];
    }

    /** `deleteById(code)`. */
    method DeleteById(code: string)
      requires Valid()
      modifies this
      ensures Valid()
      ensures rows == old(rows) - {code}
    {
      rows := rows - {code};
    }

    /** Reads the rows with the codes in `keys`, in an order of the store's choosing. */
    method Select(keys: set<string>) returns (list: seq<Entry>)
      requires Valid() && keys <= rows.Keys
      ensures Enumerates(list, rows, keys)
    {
      list := [];
      var rest := keys;
      while rest != {}
        invariant rest <= keys
        invariant Enumerates(list, rows, keys - rest)
        decreases rest
      {
        var k :| k in rest;
        SelectStep(list, rows, keys, rest, k);
        list := list + [rows[k]];
        rest := rest - {k};
      }
    }

    /** `findAll()`. */
    method FindAll() returns (list: seq<Entry>)
      requires Valid()
      ensures Enumerates(list, rows, rows.Keys)
    {
      list := Select(rows.Keys);
    }

    method FindByHeadquarterIsNullAndSwiftCodeStartingWith(prefix: string) returns (list: seq<Entry>)
      requires Valid()
      ensures Enumerates(list, rows, OrphansStartingWith(rows, prefix))
    {
      list := Select(OrphansStartingWith(rows, prefix));
    }

    method FindBySwiftCodeStartingWithAndHeadquarterFlagFalse(prefix: string) returns (list: seq<Entry>)
      requires Valid()
      ensures Enumerates(list, rows, BranchesStartingWith(rows, prefix))
    {
      list := Select(BranchesStartingWith(rows, prefix));
    }

    method FindByHeadquarter(hq: string) returns (list: seq<Entry>)
      requires Valid()
      ensures Enumerates(list, rows, LinkedTo(rows, hq))
    {
      list := Select(LinkedTo(rows, hq));
    }

    method FindByCountryISO2IgnoreCase(iso2: string) returns (list: seq<Entry>)
      requires Valid()
      ensures Enumerates(list, rows, InCountry(rows, iso2))
    {
      list := Select(InCountry(rows, iso2));
    }
  }
}
