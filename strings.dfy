/**
 * The pieces of java.lang.String and java.lang.Integer that the core relies on:
 * ASCII case mapping, literal search, `split` (with Java's removal of trailing
 * empty strings), `replace`, `String.join`, decimal printing and `parseInt`.
 */
module Strings {
  import opened Wrappers

  // ---------------------------------------------------------------------------
  // Case mapping (ASCII letters only)
  // ---------------------------------------------------------------------------

  function LowerChar(c: char): char {
    if 'A' <= c <= 'Z' then (c as int + 32) as char else c
  }

  function UpperChar(c: char): char {
    if 'a' <= c <= 'z' then (c as int - 32) as char else c
  }

  /** `String.toLowerCase()` restricted to ASCII letters. */
  function ToLower(s: string): (r: string)
    ensures |r| == |s|
    ensures forall i :: 0 <= i < |s| ==> r[i] == LowerChar(s[i])
  {
    if s == [] then [] else [LowerChar(s[0])] + ToLower(s[1..])
  }

  /** `String.toUpperCase()` restricted to ASCII letters. */
  function ToUpper(s: string): (r: string)
    ensures |r| == |s|
    ensures forall i :: 0 <= i < |s| ==> r[i] == UpperChar(s[i])
  {
    if s == [] then [] else [UpperChar(s[0])] + ToUpper(s[1..])
  }

  /** `String.equalsIgnoreCase` on ASCII text. */
  predicate EqualsIgnoreCase(a: string, b: string) {
    ToLower(a) == ToLower(b)
  }

  lemma UpperIdempotent(s: string)
    ensures ToUpper(ToUpper(s)) == ToUpper(s)
  {
    assert forall i :: 0 <= i < |s| ==> UpperChar(UpperChar(s[i])) == UpperChar(s[i]);
  }

  /** Replace every occurrence of one character by another (`String.replace(char, char)`). */
  function MapChar(s: string, from: char, to: char): (r: string)
    ensures |r| == |s|
    ensures forall i :: 0 <= i < |s| ==> r[i] == (if s[i] == from then to else s[i])
  {
    if s == [] then [] else [if s[0] == from then to else s[0]] + MapChar(s[1..], from, to)
  }

  /** `name.toUpperCase().replace(" ", "_")`, the form enum constant names are written in. */
  function Normalize(name: string): (r: string)
    ensures |r| == |name|
    ensures forall i :: 0 <= i < |r| ==> r[i] != ' ' && !('a' <= r[i] <= 'z')
  {
    MapChar(ToUpper(name), ' ', '_')
  }

  /** Normalising twice is normalising once. */
  lemma NormalizeIdempotent(s: string)
    ensures Normalize(Normalize(s)) == Normalize(s)
  {
    var n := Normalize(s);
    assert forall i :: 0 <= i < |n| ==> UpperChar(n[i]) == n[i];
    assert ToUpper(n) == n;
  }

  /** Without spaces, normalising changes only the case of letters. */
  lemma NormalizeIgnoringCase(s: string)
    requires ' ' !in s
    ensures EqualsIgnoreCase(Normalize(s), s)
  {
    var n := Normalize(s);
    forall i | 0 <= i < |s|
      ensures LowerChar(n[i]) == LowerChar(s[i])
    {
      assert s[i] in s;
      UpperLower(s[i]);
    }
    assert ToLower(n) == ToLower(s);
  }

  /** Upper-casing a character other than a space neither makes a space nor changes its lower case. */
  lemma UpperLower(c: char)
    requires c != ' '
    ensures UpperChar(c) != ' ' && LowerChar(UpperChar(c)) == LowerChar(c)
  {
  }

  /** Text made of upper-case letters and underscores only. */
  predicate Normal(s: string) {
    forall i :: 0 <= i < |s| ==> 'A' <= s[i] <= 'Z' || s[i] == '_'
  }

  /** Normal text is its own normal form. */
  lemma NormalizeNormal(s: string)
    requires Normal(s)
    ensures Normalize(s) == s
  {
    assert ToUpper(s) == s;
  }

  /** `s` repeated: `new String(new char[n]).replace('\0', c)`. */
  function Repeat(c: char, n: nat): (r: string)
    ensures |r| == n
    ensures forall i :: 0 <= i < n ==> r[i] == c
  {
    if n == 0 then [] else [c] + Repeat(c, n - 1)
  }

  // ---------------------------------------------------------------------------
  // Literal search
  // ---------------------------------------------------------------------------

  /** `d` occurs in `s` starting at index `i`. */
  predicate MatchAt(s: string, d: string, i: nat) {
    i + |d| <= |s| && s[i..i + |d|] == d
  }

  /** The least index `j >= i` at which `d` occurs in `s`, or -1 if there is none. */
  function IndexFrom(s: string, d: string, i: nat): (r: int)
    requires |d| > 0
    ensures r == -1 || (i <= r && MatchAt(s, d, r))
    ensures forall j :: i <= j && (r == -1 || j < r) ==> !MatchAt(s, d, j)
    decreases |s| - i
  {
    if i + |d| > |s| then -1
    else if MatchAt(s, d, i) then i
    else IndexFrom(s, d, i + 1)
  }

  /** `String.contains` for a non-empty needle. */
  predicate Contains(s: string, d: string)
    requires |d| > 0
  {
    IndexFrom(s, d, 0) >= 0
  }

  lemma ContainsIff(s: string, d: string)
    requires |d| > 0
    ensures Contains(s, d) <==> exists j :: MatchAt(s, d, j)
  {
    if exists j :: MatchAt(s, d, j) {
      var j :| MatchAt(s, d, j);
      assert IndexFrom(s, d, 0) != -1;
    }
  }

  predicate StartsWith(s: string, p: string) {
    |p| <= |s| && s[..|p|] == p
  }

  predicate EndsWith(s: string, p: string) {
    |p| <= |s| && s[|s| - |p|..] == p
  }

  /** No occurrence of `d` in `s` starts before index `n`. */
  predicate NoMatchBefore(s: string, d: string, n: nat) {
    forall j :: 0 <= j < n ==> !MatchAt(s, d, j)
  }

  /** A string lacking the delimiter's first character cannot contain the delimiter. */
  lemma FirstCharAbsent(p: string, d: string)
    requires |d| > 0 && d[0] !in p
    ensures NoMatchBefore(p + d, d, |p|)
    ensures IndexFrom(p, d, 0) == -1
  {
    forall j: nat | j < |p| ensures !MatchAt(p + d, d, j) {
      assert (p + d)[j..j + |d|][0] == p[j];
      assert p[j] in p;
    }
    forall j: nat | j + |d| <= |p| ensures !MatchAt(p, d, j) {
      assert p[j..j + |d|][0] == p[j];
      assert p[j] in p;
    }
  }

  /** Likewise for a delimiter whose second character differs from its first. */
  lemma SecondCharAbsent(p: string, d: string)
    requires |d| > 1 && d[0] != d[1] && d[1] !in p
    ensures NoMatchBefore(p + d, d, |p|)
    ensures IndexFrom(p, d, 0) == -1
  {
    forall j: nat | j < |p| ensures !MatchAt(p + d, d, j) {
      assert (p + d)[j..j + |d|][1] == (p + d)[j + 1];
      if j + 1 < |p| {
        assert (p + d)[j + 1] == p[j + 1];
        assert p[j + 1] in p;
      } else {
        assert (p + d)[j + 1] == d[0];
      }
    }
    forall j: nat | j + |d| <= |p| ensures !MatchAt(p, d, j) {
      assert p[j..j + |d|][1] == p[j + 1];
      assert p[j + 1] in p;
    }
  }

  // ---------------------------------------------------------------------------
  // split, join and replace
  // ---------------------------------------------------------------------------

  /** The pieces between the leftmost non-overlapping occurrences of `d`. */
  function RawSplit(s: string, d: string): (r: seq<string>)
    requires |d| > 0
    ensures |r| >= 1
    decreases |s|
  {
    var i := IndexFrom(s, d, 0);
    if i < 0 then [s] else [s[..i]] + RawSplit(s[i + |d|..], d)
  }

  function DropTrailingEmpty(parts: seq<string>): (r: seq<string>)
    ensures |r| <= |parts| && r == parts[..|r|]
    ensures r == [] || r[|r| - 1] != ""
    ensures forall k :: |r| <= k < |parts| ==> parts[k] == ""
  {
    if parts == [] then []
    else if parts[|parts| - 1] == "" then DropTrailingEmpty(parts[..|parts| - 1])
    else parts
  }

  /**
   * `s.split(d)` for a literal delimiter: the whole string when `d` does not
   * occur, otherwise the pieces with trailing empty strings removed.
   */
  function JavaSplit(s: string, d: string): seq<string>
    requires |d| > 0
  {
    if IndexFrom(s, d, 0) < 0 then [s] else DropTrailingEmpty(RawSplit(s, d))
  }

  /** `String.join(d, parts)`. */
  function Join(d: string, parts: seq<string>): string {
    if parts == [] then ""
    else if |parts| == 1 then parts[0]
    else parts[0] + d + Join(d, parts[1..])
  }

  /** `s.replace(t, r)` for a non-empty target: leftmost, non-overlapping. */
  function Replace(s: string, t: string, r: string): string
    requires |t| > 0
  {
    Join(r, RawSplit(s, t))
  }

  /** Replacing a target whose first character the string lacks changes nothing. */
  lemma ReplaceAbsent(s: string, t: string, x: string)
    requires |t| > 0 && t[0] !in s
    ensures Replace(s, t, x) == s
  {
    FirstCharAbsent(s, t);
  }

  /** Joining the pieces with the delimiter gives back the original string. */
  lemma {:induction false} JoinRawSplit(s: string, d: string)
    requires |d| > 0
    ensures Join(d, RawSplit(s, d)) == s
    decreases |s|
  {
    var i := IndexFrom(s, d, 0);
    if i >= 0 {
      var rest := s[i + |d|..];
      JoinRawSplit(rest, d);
      JoinStep(s, d, i, RawSplit(rest, d));
    }
  }

  /** The step of `JoinRawSplit`: the text before an occurrence joined in front of the pieces after it. */
  lemma JoinStep(s: string, d: string, i: nat, pieces: seq<string>)
    requires MatchAt(s, d, i) && |pieces| >= 1 && Join(d, pieces) == s[i + |d|..]
    ensures Join(d, [s[..i]] + pieces) == s
  {
    JoinCons(d, s[..i], pieces);
    SplitAround(s, d, i);
  }

  /** Joining a piece in front of at least one other puts the delimiter between them. */
  lemma JoinCons(d: string, first: string, rest: seq<string>)
    requires |rest| >= 1
    ensures Join(d, [first] + rest) == first + d + Join(d, rest)
  {
    assert ([first] + rest)[1..] == rest;
  }

  /** A string is the text before an occurrence, the occurrence, and the text after it. */
  lemma SplitAround(s: string, d: string, i: nat)
    requires MatchAt(s, d, i)
    ensures s == s[..i] + d + s[i + |d|..]
  {
    assert s == s[..i] + s[i..i + |d|] + s[i + |d|..];
  }

  /** The last piece is empty only if the string ends with the delimiter or is empty. */
  lemma {:induction false} RawSplitLastPiece(s: string, d: string)
    requires |d| > 0
    ensures var r := RawSplit(s, d); r[|r| - 1] == "" ==> s == "" || EndsWith(s, d)
    decreases |s|
  {
    var i := IndexFrom(s, d, 0);
    if i >= 0 {
      var rest := s[i + |d|..];
      RawSplitLastPiece(rest, d);
      var r := RawSplit(s, d);
      assert r == [s[..i]] + RawSplit(rest, d);
      if r[|r| - 1] == "" {
        if rest == "" {
          assert s[|s| - |d|..] == s[i..i + |d|];
        } else {
          assert s[|s| - |d|..] == rest[|rest| - |d|..];
        }
      }
    }
  }

  /** `String.join(d, s.split(d)) == s` when `s` does not end with the delimiter. */
  lemma JoinJavaSplit(s: string, d: string)
    requires |d| > 0 && !EndsWith(s, d)
    ensures Join(d, JavaSplit(s, d)) == s
  {
    JoinRawSplit(s, d);
    RawSplitLastPiece(s, d);
  }

  /**
   * Splitting a joined sequence gives back its parts, provided no part
   * produces a premature match of the delimiter.
   */
  lemma {:induction false} RawSplitJoin(parts: seq<string>, d: string)
    requires |d| > 0 && |parts| > 0
    requires forall k :: 0 <= k < |parts| - 1 ==> NoMatchBefore(parts[k] + d, d, |parts[k]|)
    requires IndexFrom(parts[|parts| - 1], d, 0) == -1
    ensures RawSplit(Join(d, parts), d) == parts
    decreases |parts|
  {
    if |parts| > 1 {
      var p := parts[0];
      var rest := Join(d, parts[1..]);
      var s := Join(d, parts);
      assert s == (p + d) + rest;
      assert NoMatchBefore(p + d, d, |p|);
      forall j | 0 <= j < |p| ensures !MatchAt(s, d, j) {
        assert !MatchAt(p + d, d, j);
        assert s[j..j + |d|] == (p + d)[j..j + |d|];
      }
      assert MatchAt(s, d, |p|) by {
        assert s[|p|..|p| + |d|] == d;
      }
      var i := IndexFrom(s, d, 0);
      assert i == |p|;
      assert s[..i] == p;
      assert s[i + |d|..] == rest;
      RawSplitJoin(parts[1..], d);
    }
  }

  /** The Java split of a join of at least two parts whose last part is non-empty. */
  lemma JavaSplitJoin(parts: seq<string>, d: string)
    requires |d| > 0 && |parts| > 1 && parts[|parts| - 1] != ""
    requires forall k :: 0 <= k < |parts| - 1 ==> NoMatchBefore(parts[k] + d, d, |parts[k]|)
    requires IndexFrom(parts[|parts| - 1], d, 0) == -1
    ensures JavaSplit(Join(d, parts), d) == parts
  {
    RawSplitJoin(parts, d);
    var s := Join(d, parts);
    assert s == parts[0] + d + Join(d, parts[1..]);
    assert MatchAt(s, d, |parts[0]|) by {
      assert s[|parts[0]|..|parts[0]| + |d|] == d;
    }
  }

  // ---------------------------------------------------------------------------
  // Splitting on a set of single characters (a regex character alternation)
  // ---------------------------------------------------------------------------

  /** The least index `j >= i` holding a separator, or -1. */
  function SepFrom(s: string, seps: set<char>, i: nat): (r: int)
    ensures r == -1 || (i <= r < |s| && s[r] in seps)
    ensures forall j :: i <= j < |s| && (r == -1 || j < r) ==> s[j] !in seps
    decreases |s| - i
  {
    if i >= |s| then -1
    else if s[i] in seps then i
    else SepFrom(s, seps, i + 1)
  }

  function RawSplitAny(s: string, seps: set<char>): (r: seq<string>)
    ensures |r| >= 1
    decreases |s|
  {
    var i := SepFrom(s, seps, 0);
    if i < 0 then [s] else [s[..i]] + RawSplitAny(s[i + 1..], seps)
  }

  /** `s.split("(a|b|...)")` where every alternative is a single character. */
  function JavaSplitAny(s: string, seps: set<char>): seq<string> {
    if SepFrom(s, seps, 0) < 0 then [s] else DropTrailingEmpty(RawSplitAny(s, seps))
  }

  predicate NoSep(p: string, seps: set<char>) {
    forall i :: 0 <= i < |p| ==> p[i] !in seps
  }

  /** No piece of the split holds a separator. */
  lemma {:induction false} RawSplitAnyPiece(s: string, seps: set<char>, k: nat)
    requires k < |RawSplitAny(s, seps)|
    ensures NoSep(RawSplitAny(s, seps)[k], seps)
    decreases |s|
  {
    var i := SepFrom(s, seps, 0);
    if i >= 0 {
      var r := RawSplitAny(s, seps);
      assert r == [s[..i]] + RawSplitAny(s[i + 1..], seps);
      if k > 0 {
        RawSplitAnyPiece(s[i + 1..], seps, k - 1);
      }
    }
  }

  // ---------------------------------------------------------------------------
  // trim
  // ---------------------------------------------------------------------------

  /** `s` without its leading characters at or below the space. */
  function TrimStart(s: string): (r: string)
    ensures |r| <= |s| && r == s[|s| - |r|..]
    ensures r == [] || r[0] > ' '
    ensures forall i :: 0 <= i < |s| - |r| ==> s[i] <= ' '
  {
    if s != [] && s[0] <= ' ' then TrimStart(s[1..]) else s
  }

  /** `s` without its trailing characters at or below the space. */
  function TrimEnd(s: string): (r: string)
    ensures |r| <= |s| && r == s[..|r|]
    ensures r == [] || r[|r| - 1] > ' '
    ensures forall i :: |r| <= i < |s| ==> s[i] <= ' '
  {
    if s != [] && s[|s| - 1] <= ' ' then TrimEnd(s[..|s| - 1]) else s
  }

  /** `String.trim`: both ends cut at the first character above the space. */
  function Trim(s: string): (r: string)
    ensures r == [] || (r[0] > ' ' && r[|r| - 1] > ' ')
    ensures forall c :: c in r ==> c in s
  {
    var t := TrimStart(s);
    var r := TrimEnd(t);
    assert r == [] || r[0] == t[0];
    SliceChars(s, |s| - |t|, |s|);
    SliceChars(t, 0, |r|);
    r
  }

  /** A slice holds no character its sequence does not. */
  lemma SliceChars(s: string, lo: int, hi: int)
    requires 0 <= lo <= hi <= |s|
    ensures forall c :: c in s[lo..hi] ==> c in s
  {
    forall c | c in s[lo..hi] ensures c in s {
      var j :| 0 <= j < hi - lo && s[lo..hi][j] == c;
      assert s[lo + j] == c;
    }
  }

  // ---------------------------------------------------------------------------
  // Decimal integers
  // ---------------------------------------------------------------------------

  const INT_MIN: int := -0x8000_0000
  const INT_MAX: int := 0x7fff_ffff

  predicate IsDigit(c: char) { '0' <= c <= '9' }

  predicate AllDigits(s: string) { forall i :: 0 <= i < |s| ==> IsDigit(s[i]) }

  function DigitChar(d: nat): char
    requires d < 10
  {
    ('0' as int + d) as char
  }

  /** The decimal form of a natural number, without leading zeros. */
  function NatToString(n: nat): (r: string)
    ensures |r| > 0 && AllDigits(r)
    decreases n
  {
    if n < 10 then [DigitChar(n)] else NatToString(n / 10) + [DigitChar(n % 10)]
  }

  /** `String.valueOf(int)`. */
  function IntToString(n: int): (r: string)
    ensures |r| > 0
    ensures forall c :: c in r ==> IsDigit(c) || c == '-'
  {
    if n < 0 then "-" + NatToString(-n) else NatToString(n)
  }

  function DigitsValue(s: string): nat
    requires AllDigits(s)
  {
    if s == [] then 0 else DigitsValue(s[..|s| - 1]) * 10 + (s[|s| - 1] as int - '0' as int)
  }

  /** `Integer.parseInt`: an optional sign, then decimal digits, within 32 bits. */
  function ParseInt(s: string): Option<int> {
    if s == [] then None
    else
      var body := if s[0] == '-' || s[0] == '+' then s[1..] else s;
      if body == [] || !AllDigits(body) then None
      else
        var v: int := if s[0] == '-' then -(DigitsValue(body) as int) else DigitsValue(body);
        if INT_MIN <= v <= INT_MAX then Some(v) else None
  }

  lemma {:induction false} NatToStringValue(n: nat)
    ensures DigitsValue(NatToString(n)) == n
    decreases n
  {
    if n >= 10 {
      NatToStringValue(n / 10);
      var s := NatToString(n);
      assert s[..|s| - 1] == NatToString(n / 10);
    }
  }

  /** Printing a 32-bit integer and parsing it back gives the same integer. */
  lemma ParseIntToString(n: int)
    requires INT_MIN <= n <= INT_MAX
    ensures ParseInt(IntToString(n)) == Some(n)
  {
    var t := NatToString(if n < 0 then -n else n);
    NatToStringValue(if n < 0 then -n else n);
    assert IsDigit(t[0]);
    if n < 0 {
      ParseSigned(t);
      assert IntToString(n) == "-" + t;
    } else {
      ParseUnsigned(t);
    }
  }

  /** Digits behind a minus sign are read as the negated value, when in range. */
  lemma ParseSigned(t: string)
    requires t != [] && AllDigits(t) && DigitsValue(t) <= -INT_MIN
    ensures ParseInt("-" + t) == Some(-(DigitsValue(t) as int))
  {
    assert ("-" + t)[1..] == t;
  }

  /** Digits alone are read as their value, when in range. */
  lemma ParseUnsigned(t: string)
    requires t != [] && AllDigits(t) && DigitsValue(t) <= INT_MAX
    ensures ParseInt(t) == Some(DigitsValue(t) as int)
  {
    assert IsDigit(t[0]);
  }
}
