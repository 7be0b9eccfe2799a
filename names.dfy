/** Column-label normalisation as `standardize_columns` writes it:
    `col.strip().lower().replace(" ", "_")`, Python's string methods in that order. */
module Names {

  /** Python's `str.isspace()` for one character: the ASCII controls tab to carriage
      return, the separators 0x1C-0x1F, space, and the Unicode spaces and line separators. */
  predicate IsSpace(c: char) {
    var k := c as int;
    || k == 0x20 || 0x09 <= k <= 0x0D || 0x1C <= k <= 0x1F || k == 0x85 || k == 0xA0
    || k == 0x1680 || 0x2000 <= k <= 0x200A || k == 0x2028 || k == 0x2029
    || k == 0x202F || k == 0x205F || k == 0x3000
  }

  /** An upper-case letter that `str.lower()` maps one-to-one, 32 code points down:
      A-Z and the Latin-1 capitals other than the multiplication sign. */
  predicate IsUpper(c: char) {
    var k := c as int;
    0x41 <= k <= 0x5A || (0xC0 <= k <= 0xDE && k != 0xD7)
  }

  function LowerChar(c: char): (d: char)
    ensures !IsUpper(d)
    ensures IsSpace(d) <==> IsSpace(c)
    ensures !IsUpper(c) ==> d == c
  {
    if IsUpper(c) then (c as int + 32) as char else c
  }

  /** The length of the longest all-whitespace prefix. */
  function LeadingSpaces(s: string): (n: nat)
    ensures n <= |s|
    ensures forall k :: 0 <= k < n ==> IsSpace(s[k])
    ensures n == |s| || !IsSpace(s[n])
  {
    if s != [] && IsSpace(s[0]) then
      var m := LeadingSpaces(s[1..]);
      assert forall k :: 1 <= k < 1 + m ==> s[k] == s[1..][k - 1];
      1 + m
    else 0
  }

  /** The length of the longest all-whitespace suffix. */
  function TrailingSpaces(s: string): (n: nat)
    ensures n <= |s|
    ensures forall k :: |s| - n <= k < |s| ==> IsSpace(s[k])
    ensures n == |s| || !IsSpace(s[|s| - n - 1])
  {
    if s != [] && IsSpace(s[|s| - 1]) then 1 + TrailingSpaces(s[..|s| - 1]) else 0
  }

  /** `str.strip()`: leading whitespace dropped, then trailing whitespace. */
  function Strip(s: string): (r: string)
    ensures |r| <= |s|
    ensures r == [] || (!IsSpace(r[0]) && !IsSpace(r[|r| - 1]))
  {
    var t := s[LeadingSpaces(s)..];
    var r := t[..|t| - TrailingSpaces(t)];
    assert r != [] ==> r[0] == s[LeadingSpaces(s)];
    r
  }

  /** What `str.strip()` returns is the slice `s[i..j]` between an all-whitespace prefix
      and an all-whitespace suffix, and it neither starts nor ends with whitespace: both
      runs are as long as they can be. */
  lemma StripSlice(s: string)
    ensures var i := LeadingSpaces(s);
            var j := i + |Strip(s)|;
            && j <= |s| && Strip(s) == s[i..j]
            && (forall k :: j <= k < |s| ==> IsSpace(s[k]))
            && (Strip(s) == [] || (!IsSpace(Strip(s)[0]) && !IsSpace(Strip(s)[|Strip(s)| - 1])))
  {
    var i := LeadingSpaces(s);
    var t := s[i..];
    var e := TrailingSpaces(t);
    var j := |s| - e;
    assert Strip(s) == t[..|t| - e];
    assert t[..|t| - e] == s[i..j];
    forall k | j <= k < |s|
      ensures IsSpace(s[k])
    {
      assert s[k] == t[k - i];
    }
  }

  /** `str.lower()`, one character at a time. */
  function Lower(s: string): (r: string)
    ensures |r| == |s| && forall k :: 0 <= k < |s| ==> r[k] == LowerChar(s[k])
  {
    seq(|s|, k requires 0 <= k < |s| => LowerChar(s[k]))
  }

  /** `str.replace(" ", "_")`. */
  function ReplaceSpaces(s: string): (r: string)
    ensures |r| == |s| && forall k :: 0 <= k < |s| ==> r[k] == if s[k] == ' ' then '_' else s[k]
  {
    seq(|s|, k requires 0 <= k < |s| => if s[k] == ' ' then '_' else s[k])
  }

  /** A normalised label: no space character, no upper-case letter, and no whitespace
      at either end. */
  predicate IsNormalized(name: string) {
    && (forall k :: 0 <= k < |name| ==> name[k] != ' ' && !IsUpper(name[k]))
    && (name == [] || (!IsSpace(name[0]) && !IsSpace(name[|name| - 1])))
  }

  /** The label `standardize_columns` gives to one column: never longer than the
      original, and normalised. */
  function Normalize(name: string): (r: string)
    ensures |r| <= |name|
    ensures IsNormalized(r)
  {
    StripSlice(name);
    ReplaceSpaces(Lower(Strip(name)))
  }

  /** A normalised label is left as it is by every step of the normalisation. */
  lemma NormalizedIsFixed(name: string)
    requires IsNormalized(name)
    ensures Normalize(name) == name
  {
    assert LeadingSpaces(name) == 0;
    assert TrailingSpaces(name) == 0;
    assert Strip(name) == name;
    assert Lower(name) == name;
    assert ReplaceSpaces(name) == name;
  }

  /** `standardize_columns` is idempotent on each label. */
  lemma NormalizeIdempotent(name: string)
    ensures Normalize(Normalize(name)) == Normalize(name)
  {
    NormalizedIsFixed(Normalize(name));
  }

  /** The list comprehension over `df.columns`. */
  function NormalizeNames(columns: seq<string>): (r: seq<string>)
    ensures |r| == |columns|
    ensures forall k :: 0 <= k < |columns| ==> r[k] == Normalize(columns[k])
  {
    seq(|columns|, k requires 0 <= k < |columns| => Normalize(columns[k]))
  }

  /** Normalising a whole header keeps the number and order of columns, leaves every
      label normalised, and a second pass changes nothing. */
  lemma NormalizeNamesSpec(columns: seq<string>)
    ensures |NormalizeNames(columns)| == |columns|
    ensures forall k :: 0 <= k < |columns| ==> IsNormalized(NormalizeNames(columns)[k])
    ensures NormalizeNames(NormalizeNames(columns)) == NormalizeNames(columns)
  {
    var once := NormalizeNames(columns);
    forall k | 0 <= k < |columns|
      ensures NormalizeNames(once)[k] == once[k]
    {
      NormalizeIdempotent(columns[k]);
    }
  }
}
