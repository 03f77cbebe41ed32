/** The few `java.lang.String` operations the registry relies on, restricted to ASCII. */
module Text {

  /** `String.trim` strips every character whose code is at most U+0020 from both ends. */
  predicate IsTrimmable(c: char) { c <= ' ' }

  /** Number of trimmable characters at the start of `s`. */
  function Lead(s: string): (n: nat)
    ensures n <= |s|
    ensures forall i :: 0 <= i < n ==> IsTrimmable(s[i])
    ensures n < |s| ==> !IsTrimmable(s[n])
  {
    if s != [] && IsTrimmable(s[0]) then 1 + Lead(s[1..]) else 0
  }

  /** Number of trimmable characters at the end of `s`. */
  function Trail(s: string): (n: nat)
    ensures n <= |s|
    ensures forall i :: |s| - n <= i < |s| ==> IsTrimmable(s[i])
    ensures n < |s| ==> !IsTrimmable(s[|s| - 1 - n])
  {
    if s != [] && IsTrimmable(s[|s| - 1]) then 1 + Trail(s[..|s| - 1]) else 0
  }

  /** No blank at either end. */
  predicate NoBlankEnds(s: string)
  {
    s != [] ==> !IsTrimmable(s[0]) && !IsTrimmable(s[|s| - 1])
  }

  /**
   * `s.trim()`: a run of consecutive characters of `s` with no blank at either end, such
   * that everything before and after it in `s` is blank.
   */
  function Trim(s: string): (r: string)
    ensures |r| <= |s|
    ensures NoBlankEnds(r)
    ensures r == [] <==> forall i :: 0 <= i < |s| ==> IsTrimmable(s[i])
    ensures exists i :: 0 <= i <= |s| - |r| && r == s[i..][..|r|] &&
                        (forall j :: 0 <= j < i ==> IsTrimmable(s[j])) &&
                        (forall j :: i + |r| <= j < |s| ==> IsTrimmable(s[j]))
  {
    if Lead(s) == |s| then
      assert s[0..][..0] == [];
      []
    else
      var r := s[Lead(s)..|s| - Trail(s)];
      assert r == s[Lead(s)..][..|r|];
      r
  }

  /** Trimming removes only blanks: every other character keeps its number of occurrences. */
  lemma TrimKeepsNonBlank(s: string)
    ensures forall c :: !IsTrimmable(c) ==> multiset(Trim(s))[c] == multiset(s)[c]
  {
    if Lead(s) == |s| {
      forall c | !IsTrimmable(c)
        ensures multiset(s)[c] == 0
      {
        NoneOutsideBlanks(s, c);
      }
    } else {
      var i, j := Lead(s), |s| - Trail(s);
      assert s == s[..i] + s[i..j] + s[j..];
      assert multiset(s) == multiset(s[..i]) + multiset(s[i..j]) + multiset(s[j..]);
      forall c | !IsTrimmable(c)
        ensures multiset(Trim(s))[c] == multiset(s)[c]
      {
        NoneOutsideBlanks(s[..i], c);
        NoneOutsideBlanks(s[j..], c);
      }
    }
  }

  /** Trimming printable text leaves printable text. */
  lemma TrimKeepsPrintable(s: string)
    requires forall i :: 0 <= i < |s| ==> IsPrintable(s[i])
    ensures forall i :: 0 <= i < |Trim(s)| ==> IsPrintable(Trim(s)[i])
  {
    if Lead(s) < |s| {
      var r := Trim(s);
      assert r == s[Lead(s)..|s| - Trail(s)];
      forall i | 0 <= i < |r| ensures IsPrintable(r[i]) {
        assert r[i] == s[Lead(s) + i];
      }
    }
  }

  /** Blank text holds no non-blank character. */
  lemma NoneOutsideBlanks(t: string, c: char)
    requires forall j :: 0 <= j < |t| ==> IsTrimmable(t[j])
    requires !IsTrimmable(c)
    ensures multiset(t)[c] == 0
  {
    assert c !in t;
  }

  /** Text with no blank at either end is its own trim. */
  lemma TrimNoBlankEnds(s: string)
    requires NoBlankEnds(s)
    ensures Trim(s) == s
  {
    if s != [] {
      assert Lead(s) == 0 && Trail(s) == 0;
      assert s[0..|s|] == s;
    }
  }

  /** `s.trim().isEmpty()`. */
  predicate IsBlank(s: string) { Trim(s) == [] }

  function ToUpperChar(c: char): char
  {
    if 'a' <= c <= 'z' then (c as int - 32) as char else c
  }

  /** `a.equalsIgnoreCase(b)` on ASCII. */
  predicate EqualIgnoringCase(a: string, b: string)
  {
    ToUpper(a) == ToUpper(b)
  }

  /** `s.toUpperCase()` on ASCII: lower-case letters become upper-case, everything else is kept. */
  function ToUpper(s: string): (r: string)
    ensures |r| == |s|
    ensures forall i :: 0 <= i < |s| ==> r[i] == ToUpperChar(s[i])
  {
    if s == [] then [] else [ToUpperChar(s[0])] + ToUpper(s[1..])
  }

  predicate StartsWith(s: string, prefix: string)
  {
    |prefix| <= |s| && s[..|prefix|] == prefix
  }

  predicate EndsWith(s: string, suffix: string)
  {
    |suffix| <= |s| && s[|s| - |suffix|..] == suffix
  }

  predicate IsAsciiAlnum(c: char)
  {
    'A' <= c <= 'Z' || 'a' <= c <= 'z' || '0' <= c <= '9'
  }

  /** `s.matches("^[A-Za-z0-9]+$")`. */
  predicate IsAlnumWord(s: string)
  {
    |s| > 0 && forall i :: 0 <= i < |s| ==> IsAsciiAlnum(s[i])
  }

  predicate IsPrintable(c: char) { ' ' <= c <= '~' }

  /** `s.replaceAll("[^\\x20-\\x7E]", "")`: keeps printable ASCII, in order. */
  function StripNonPrintable(s: string): (r: string)
    ensures |r| <= |s|
    ensures forall i :: 0 <= i < |r| ==> IsPrintable(r[i])
    // every printable character is kept as often as it occurs, every other one is dropped
    ensures forall c :: multiset(r)[c] == if IsPrintable(c) then multiset(s)[c] else 0
  {
    if s == [] then []
    else
      assert s == [s[0]] + s[1..];
      if IsPrintable(s[0]) then [s[0]] + StripNonPrintable(s[1..])
      else StripNonPrintable(s[1..])
  }

  /** Text that is already printable ASCII passes through `StripNonPrintable` unchanged. */
  lemma {:induction false} StripKeepsPrintable(s: string)
    requires forall i :: 0 <= i < |s| ==> IsPrintable(s[i])
    ensures StripNonPrintable(s) == s
  {
    if s != [] {
      StripKeepsPrintable(s[1..]);
    }
  }

  /** No lower-case ASCII letter occurs in `s`. */
  predicate IsUpper(s: string)
  {
    forall i :: 0 <= i < |s| ==> !('a' <= s[i] <= 'z')
  }

  /** Upper-casing leaves no lower-case letter, and changes nothing in text that has none. */
  lemma UpperStable(s: string)
    ensures IsUpper(ToUpper(s))
    ensures IsUpper(s) ==> ToUpper(s) == s
  {
  }

  /** `s.trim().toUpperCase()`: the trimmed text, upper-cased. */
  function TrimUpper(s: string): (r: string)
    ensures IsUpper(r) && NoBlankEnds(r) && |r| <= |s|
    ensures EqualIgnoringCase(r, Trim(s))
    ensures r == [] <==> IsBlank(s)
  {
    UpperStable(Trim(s));
    UpperIdempotent(Trim(s));
    ToUpper(Trim(s))
  }

  lemma UpperIdempotent(s: string)
    ensures ToUpper(ToUpper(s)) == ToUpper(s)
  {
    UpperStable(ToUpper(s));
  }

  /** Normalising twice is normalising once, and normalised text is its own normal form. */
  lemma TrimUpperIdempotent(s: string)
    ensures TrimUpper(TrimUpper(s)) == TrimUpper(s)
    ensures IsUpper(s) && NoBlankEnds(s) ==> TrimUpper(s) == s
  {
    TrimNoBlankEnds(TrimUpper(s));
    UpperStable(TrimUpper(s));
    if IsUpper(s) && NoBlankEnds(s) {
      TrimNoBlankEnds(s);
      UpperStable(s);
    }
  }

  /** Trimming upper-case text leaves it upper-case. */
  lemma TrimKeepsUpper(s: string)
    requires IsUpper(s)
    ensures IsUpper(Trim(s))
  {
  }

  /** Upper-casing keeps the letters-and-digits shape of a word. */
  lemma ToUpperKeepsAlnum(s: string)
    ensures IsAlnumWord(ToUpper(s)) <==> IsAlnumWord(s)
  {
  }
}
