/** Character and string helpers shared by the models: the C library string
    functions the sources call (strncasecmp, strtok, std::string ordering)
    and Python's str.strip / str.join, stated over seq<char>. */
module Text {

  datatype Option<T> = None | Some(value: T)

  /** A value, or the error a Python exception or C error return carries. */
  datatype Result<T, E> = Success(value: T) | Failure(error: E)

  /** An unsigned char. */
  type byte = x: int | 0 <= x < 256

  /** The hex digit of a nibble, in lower case (printf's %x) or upper case
      (%X, and Python's percent-escapes). */
  function HexDigit(n: int, upper: bool): (c: char)
    requires 0 <= n < 16
    ensures ('0' <= c <= '9') <==> n < 10
    ensures n >= 10 ==> if upper then 'A' <= c <= 'F' else 'a' <= c <= 'f'
  {
    if n < 10 then ('0' as int + n) as char
    else if upper then ('A' as int + n - 10) as char
    else ('a' as int + n - 10) as char
  }

  /** ASCII lower-casing, as tolower() in the C locale. */
  function LowerAscii(c: char): (r: char)
    ensures 'A' <= c <= 'Z' ==> r as int == c as int + 32
    ensures !('A' <= c <= 'Z') ==> r == c
  {
    if 'A' <= c <= 'Z' then (c as int + 32) as char else c
  }

  /** strncasecmp(s, p, |p|) == 0: s begins with p, ignoring ASCII case.
      A shorter s fails at its terminating NUL. */
  predicate StartsWithIgnoreCase(s: string, p: string)
    decreases |p|
  {
    p == [] || (s != [] && LowerAscii(s[0]) == LowerAscii(p[0]) && StartsWithIgnoreCase(s[1..], p[1..]))
  }

  /** The prefix test compares the first |p| characters pairwise. */
  lemma {:induction false} StartsWithIgnoreCaseAt(s: string, p: string)
    ensures StartsWithIgnoreCase(s, p) <==> |p| <= |s| && forall i :: 0 <= i < |p| ==> LowerAscii(s[i]) == LowerAscii(p[i])
    decreases |p|
  {
    if p != [] && s != [] {
      StartsWithIgnoreCaseAt(s[1..], p[1..]);
      if LowerAscii(s[0]) == LowerAscii(p[0]) && |p| <= |s| && forall i :: 0 <= i < |p| ==> LowerAscii(s[i]) == LowerAscii(p[i]) {
        forall i | 0 <= i < |p| - 1
          ensures LowerAscii(s[1..][i]) == LowerAscii(p[1..][i])
        {
          assert LowerAscii(s[i + 1]) == LowerAscii(p[i + 1]);
        }
      }
    }
  }

  /** Python's " ".join(parts) and the C++ "a" + sep + "b" accumulation. */
  function Join(sep: string, parts: seq<string>): (r: string)
    ensures parts == [] ==> r == ""
    ensures |parts| == 1 ==> r == parts[0]
  {
    if |parts| == 0 then ""
    else if |parts| == 1 then parts[0]
    else Join(sep, parts[..|parts| - 1]) + sep + parts[|parts| - 1]
  }

  /** strrchr(s, c): the index of the last c in s. */
  function LastIndexOf(s: string, c: char): (r: Option<nat>)
    ensures r.Some? ==> r.value < |s| && s[r.value] == c
                        && forall j :: r.value < j < |s| ==> s[j] != c
    ensures r.None? ==> forall j :: 0 <= j < |s| ==> s[j] != c
    decreases |s|
  {
    if s == [] then None
    else if s[|s| - 1] == c then Some(|s| - 1)
    else LastIndexOf(s[..|s| - 1], c)
  }

  /** The pieces of s between occurrences of c (one piece when there
      is none). */
  function SplitOn(s: string, c: char): (r: seq<string>)
    ensures |r| >= 1
    decreases |s|
  {
    var i := LastIndexOf(s, c);
    if i.None? then [s] else SplitOn(s[..i.value], c) + [s[i.value + 1..]]
  }

  lemma {:induction false} SplitOnAppend(a: string, c: char, b: string)
    ensures SplitOn(a + [c] + b, c) == SplitOn(a, c) + SplitOn(b, c)
    decreases |b|
  {
    var i := LastIndexOf(b, c);
    if i.None? {
      SplitOnAppendPiece(a, c, b);
    } else {
      var j := i.value;
      SplitOnAppendSplit(a, c, b, j);
      SplitOnAppend(a, c, b[..j]);
    }
  }

  lemma SplitOnAppendPiece(a: string, c: char, b: string)
    requires LastIndexOf(b, c).None?
    ensures SplitOn(a + [c] + b, c) == SplitOn(a, c) + SplitOn(b, c)
  {
    var s := a + [c] + b;
    LastIndexOfUnique(s, c, |a|);
    assert s[..|a|] == a && s[|a| + 1..] == b;
  }

  lemma SplitOnAppendSplit(a: string, c: char, b: string, j: nat)
    requires LastIndexOf(b, c) == Some(j)
    ensures SplitOn(a + [c] + b, c) == SplitOn(a + [c] + b[..j], c) + [b[j + 1..]]
    ensures SplitOn(b, c) == SplitOn(b[..j], c) + [b[j + 1..]]
  {
    var s := a + [c] + b;
    LastIndexOfUnique(s, c, |a| + 1 + j);
    assert s[..|a| + 1 + j] == a + [c] + b[..j];
    assert s[|a| + 1 + j + 1..] == b[j + 1..];
  }

  lemma LastIndexOfUnique(s: string, c: char, k: nat)
    requires k < |s| && s[k] == c && forall j :: k < j < |s| ==> s[j] != c
    ensures LastIndexOf(s, c) == Some(k)
  {
    var r := LastIndexOf(s, c);
    if r.None? || r.value != k {
      assert false;
    }
  }

  /** Splitting a join on a separator that occurs in no part gives the
      parts back. */
  lemma {:induction false} SplitOnJoin(c: char, parts: seq<string>)
    requires parts != []
    requires forall i, j :: 0 <= i < |parts| && 0 <= j < |parts[i]| ==> parts[i][j] != c
    ensures SplitOn(Join([c], parts), c) == parts
    decreases |parts|
  {
    if |parts| == 1 {
      assert LastIndexOf(parts[0], c).None?;
    } else {
      var init := parts[..|parts| - 1];
      var last := parts[|parts| - 1];
      SplitOnJoin(c, init);
      SplitOnAppend(Join([c], init), c, last);
      assert LastIndexOf(last, c).None?;
      assert init + [last] == parts;
    }
  }

  /** The characters Python's str.isspace() accepts. */
  predicate IsSpace(c: char)
  {
    var n := c as int;
    n == 0x20 || (0x09 <= n <= 0x0D) || (0x1C <= n <= 0x1F) || n == 0x85 || n == 0xA0
    || n == 0x1680 || (0x2000 <= n <= 0x200A) || n == 0x2028 || n == 0x2029
    || n == 0x202F || n == 0x205F || n == 0x3000
  }

  function TrimLeft(s: string): (r: string)
    ensures |r| <= |s| && r == s[|s| - |r|..]
    ensures r != [] ==> !IsSpace(r[0])
    ensures forall i :: 0 <= i < |s| - |r| ==> IsSpace(s[i])
  {
    if s != [] && IsSpace(s[0]) then TrimLeft(s[1..]) else s
  }

  function TrimRight(s: string): (r: string)
    ensures |r| <= |s| && r == s[..|r|]
    ensures r != [] ==> !IsSpace(r[|r| - 1])
    ensures forall i :: |r| <= i < |s| ==> IsSpace(s[i])
  {
    if s != [] && IsSpace(s[|s| - 1]) then TrimRight(s[..|s| - 1]) else s
  }

  /** Python's str.strip() with no argument. */
  function Strip(s: string): string
  {
    TrimRight(TrimLeft(s))
  }

  /** strip() leaves nothing exactly when every character is whitespace,
      and otherwise leaves no whitespace at either end. */
  lemma StripEmptyIffAllSpace(s: string)
    ensures Strip(s) == [] <==> forall i :: 0 <= i < |s| ==> IsSpace(s[i])
    ensures Strip(s) != [] ==> !IsSpace(Strip(s)[0]) && !IsSpace(Strip(s)[|Strip(s)| - 1])
  {
    var l := TrimLeft(s);
    if Strip(s) != [] {
      var r := TrimRight(l);
      assert r == l[..|r|];
      assert r[0] == l[0];
    }
  }

  /** The index of the first character of s at or after i that is not in delims. */
  function SkipDelims(s: string, i: nat, delims: set<char>): (j: nat)
    requires i <= |s|
    decreases |s| - i
    ensures i <= j <= |s|
    ensures forall k :: i <= k < j ==> s[k] in delims
    ensures j < |s| ==> s[j] !in delims
  {
    if i < |s| && s[i] in delims then SkipDelims(s, i + 1, delims) else i
  }

  /** The index of the first character of s at or after i that is in delims. */
  function TokenEnd(s: string, i: nat, delims: set<char>): (j: nat)
    requires i <= |s|
    decreases |s| - i
    ensures i <= j <= |s|
    ensures forall k :: i <= k < j ==> s[k] !in delims
    ensures j < |s| ==> s[j] in delims
  {
    if i < |s| && s[i] !in delims then TokenEnd(s, i + 1, delims) else i
  }

  /** One call of strtok on the string s whose saved position is pos: the token
      it returns (None for NULL) and the saved position for the next call.
      The delimiter that ends a token is consumed. */
  function StrTok(s: string, pos: nat, delims: set<char>): (r: (Option<string>, nat))
    requires pos <= |s|
    ensures pos <= r.1 <= |s|
    ensures r.0.Some? ==> r.0.value != [] && pos < r.1
  {
    var start := SkipDelims(s, pos, delims);
    if start == |s| then (None, |s|)
    else
      var end := TokenEnd(s, start, delims);
      (Some(s[start..end]), if end < |s| then end + 1 else end)
  }

  /** strtok returns NULL exactly when only delimiters remain, and a token
      never holds a delimiter. */
  lemma StrTokTokens(s: string, pos: nat, delims: set<char>)
    requires pos <= |s|
    ensures var r := StrTok(s, pos, delims);
      && (r.0.None? <==> forall k :: pos <= k < |s| ==> s[k] in delims)
      && (r.0.Some? ==> forall k :: 0 <= k < |r.0.value| ==> r.0.value[k] !in delims)
  {
    var start := SkipDelims(s, pos, delims);
    if start < |s| {
      var end := TokenEnd(s, start, delims);
      assert forall k :: 0 <= k < end - start ==> s[start..end][k] == s[start + k];
    }
  }

  /** std::string operator<: lexicographic order on characters. */
  predicate LexLess(a: string, b: string)
    decreases |a|
  {
    if a == [] then b != []
    else if b == [] then false
    else if a[0] != b[0] then a[0] < b[0]
    else LexLess(a[1..], b[1..])
  }

  lemma {:induction false} LexLessIrreflexive(a: string)
    ensures !LexLess(a, a)
  {
    if a != [] { LexLessIrreflexive(a[1..]); }
  }

  lemma {:induction false} LexLessTransitive(a: string, b: string, c: string)
    requires LexLess(a, b) && LexLess(b, c)
    ensures LexLess(a, c)
    decreases |a|
  {
    if a != [] && b != [] && c != [] && a[0] == b[0] && b[0] == c[0] {
      LexLessTransitive(a[1..], b[1..], c[1..]);
    }
  }

  /** Exactly one of a < b, a == b, b < a holds. */
  lemma {:induction false} LexLessTrichotomy(a: string, b: string)
    ensures LexLess(a, b) || a == b || LexLess(b, a)
    ensures !(LexLess(a, b) && LexLess(b, a))
    decreases |a|
  {
    if a != [] && b != [] && a[0] == b[0] {
      LexLessTrichotomy(a[1..], b[1..]);
      if a[1..] == b[1..] {
        assert a == [a[0]] + a[1..] && b == [b[0]] + b[1..];
      }
    }
  }

  /** std::string::find(sub) != npos. */
  predicate ContainsSubstring(s: string, sub: string)
    decreases |s|
  {
    sub <= s || (s != [] && ContainsSubstring(s[1..], sub))
  }
  /** The successive tokens strtok returns for s from the saved position
      pos until it returns NULL. */
  function TokensFrom(s: string, pos: nat, delims: set<char>): (ts: seq<string>)
    requires pos <= |s|
    decreases |s| - pos
    ensures forall k :: 0 <= k < |ts| ==> ts[k] != []
  {
    var (t, next) := StrTok(s, pos, delims);
    if t.None? then [] else [t.value] + TokensFrom(s, next, delims)
  }

  function DigitChar(d: int): (c: char)
    requires 0 <= d < 10
    ensures '0' <= c <= '9'
  {
    ('0' as int + d) as char
  }

  /** printf("%lu", n) for a non-negative n. */
  function DecimalString(n: nat): (s: string)
    ensures s != [] && forall k :: 0 <= k < |s| ==> '0' <= s[k] <= '9'
  {
    if n < 10 then [DigitChar(n)] else DecimalString(n / 10) + [DigitChar(n % 10)]
  }

  /** The value of a string of decimal digits (the inverse of DecimalString). */
  function ParseDecimal(s: string): nat
  {
    if s == [] then 0
    else
      var d := s[|s| - 1] as int - '0' as int;
      ParseDecimal(s[..|s| - 1]) * 10 + (if 0 <= d < 10 then d else 0)
  }

  lemma {:induction false} DecimalRoundTrip(n: nat)
    ensures ParseDecimal(DecimalString(n)) == n
  {
    if n >= 10 {
      DecimalRoundTrip(n / 10);
      var s := DecimalString(n);
      assert s[..|s| - 1] == DecimalString(n / 10);
    }
  }
}
