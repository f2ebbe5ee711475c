/** The parts of the .NET string API that the core relies on, with the semantics of their
    ordinal (culture-independent) overloads: searching, splitting, joining, trimming,
    replacing, ASCII case mapping, and integer formatting and parsing. */
module Text {
  import opened Wrappers

  // ---------------------------------------------------------------------------------------
  // Searching
  // ---------------------------------------------------------------------------------------

  /** `p` occurs in `s` starting at position `k`. */
  predicate OccursAt(s: string, p: string, k: nat) {
    k + |p| <= |s| && s[k..k + |p|] == p
  }

  /** The first occurrence of `p` in `s` at or after position `k`. */
  function IndexOfFrom(s: string, p: string, k: nat): (r: Option<nat>)
    requires k <= |s|
    ensures r.Some? ==> k <= r.value && OccursAt(s, p, r.value)
    ensures r.Some? ==> forall j :: k <= j < r.value ==> !OccursAt(s, p, j)
    ensures r.None? ==> forall j :: k <= j ==> !OccursAt(s, p, j)
    decreases |s| - k
  {
    if k + |p| > |s| then None
    else if s[k..k + |p|] == p then Some(k)
    else IndexOfFrom(s, p, k + 1)
  }

  /** String.IndexOf(string), ordinal: the first position where `p` occurs in `s`. */
  function IndexOf(s: string, p: string): Option<nat> {
    IndexOfFrom(s, p, 0)
  }

  /** String.Contains(string), ordinal. */
  predicate Contains(s: string, p: string) {
    IndexOf(s, p).Some?
  }

  lemma {:induction false} ContainsIff(s: string, p: string)
    ensures Contains(s, p) <==> exists k :: OccursAt(s, p, k)
  {
    if exists k :: OccursAt(s, p, k) {
      var k :| OccursAt(s, p, k);
      assert IndexOf(s, p).Some?;
    }
  }

  /** An occurrence with none before it is the one IndexOf finds. */
  lemma {:induction false} IndexOfIs(s: string, p: string, k: nat)
    requires OccursAt(s, p, k)
    requires forall j: nat :: j < k ==> !OccursAt(s, p, j)
    ensures IndexOf(s, p) == Some(k)
  {
  }

  /** String.StartsWith(string), compared character by character (see EndsWith). */
  predicate StartsWith(s: string, p: string) {
    |p| <= |s| && s[..|p|] == p
  }

  /** String.EndsWith(string), compared character by character. .NET compares with the
      current culture, which for the ASCII file names and extensions compared here agrees with
      a comparison character by character; characters the culture ignores are not modelled. */
  predicate EndsWith(s: string, p: string) {
    |p| <= |s| && s[|s| - |p|..] == p
  }

  /** The position of the first `c` in `s`. */
  function FirstIndexOfChar(s: string, c: char): (r: nat)
    requires c in s
    ensures r < |s| && s[r] == c && forall i :: 0 <= i < r ==> s[i] != c
  {
    if s[0] == c then 0 else FirstIndexOfChar(s[1..], c) + 1
  }

  /** A string without the character `c` contains nothing that contains `c`. */
  lemma {:induction false} NoOccurrenceWithout(s: string, p: string, c: char)
    requires c in p && c !in s
    ensures forall j :: !OccursAt(s, p, j)
  {
    var t := FirstIndexOfChar(p, c);
    forall j: nat ensures !OccursAt(s, p, j) {
      if j + |p| <= |s| {
        assert s[j..j + |p|][t] == s[j + t] != c;
      }
    }
  }

  /** When `c` occurs in the separator but not in `x`, the first occurrence of the separator
      in `x + sep + rest` is the one placed right after `x`. */
  lemma {:induction false} IndexOfAfterFree(x: string, sep: string, rest: string, c: char)
    requires c in sep && c !in x
    ensures IndexOf(x + sep + rest, sep) == Some(|x|)
  {
    var s := x + sep + rest;
    assert s[|x|..|x| + |sep|] == sep;
    assert OccursAt(s, sep, |x|);
    var t := FirstIndexOfChar(sep, c);
    forall j: nat | j < |x| ensures !OccursAt(s, sep, j) {
      assert s[j + t] != c by {
        if j + t < |x| {
          assert s[j + t] == x[j + t];
        } else {
          assert s[j + t] == sep[j + t - |x|];
        }
      }
      assert j + |sep| <= |s| ==> s[j..j + |sep|][t] == s[j + t];
    }
    IndexOfIs(s, sep, |x|);
  }

  // ---------------------------------------------------------------------------------------
  // Splitting and joining
  // ---------------------------------------------------------------------------------------

  /** String.Split(string) and String.Split(char) with no options: the pieces between the
      non-overlapping occurrences of `sep`, found from left to right; empty pieces are kept. */
  function Split(s: string, sep: string): (parts: seq<string>)
    requires |sep| > 0
    ensures |parts| >= 1
    decreases |s|
  {
    match IndexOf(s, sep)
    case None => [s]
    case Some(k) => [s[..k]] + Split(s[k + |sep|..], sep)
  }

  /** String.Join(string, IEnumerable<string>). */
  function Join(parts: seq<string>, sep: string): string {
    if |parts| == 0 then ""
    else if |parts| == 1 then parts[0]
    else parts[0] + sep + Join(parts[1..], sep)
  }

  /** String.Split(' ', StringSplitOptions.RemoveEmptyEntries). */
  function Tokens(s: string): (r: seq<string>)
    ensures forall i :: 0 <= i < |r| ==> r[i] != ""
  {
    NonEmpty(Split(s, " "))
  }

  /** The non-empty strings of `xs`, in order. */
  function NonEmpty(xs: seq<string>): (r: seq<string>)
    ensures forall i :: 0 <= i < |r| ==> r[i] != ""
    ensures (forall i :: 0 <= i < |xs| ==> xs[i] != "") ==> r == xs
  {
    if xs == [] then []
    else (if xs[0] == "" then [] else [xs[0]]) + NonEmpty(xs[1..])
  }

  /** Dropping the empty strings of a sequence with one more element at its end. */
  lemma {:induction false} NonEmptySnoc(xs: seq<string>, x: string)
    ensures NonEmpty(xs + [x]) == NonEmpty(xs) + (if x == "" then [] else [x])
    decreases |xs|
  {
    if xs == [] {
      assert [x][1..] == [];
    } else {
      assert (xs + [x])[1..] == xs[1..] + [x];
      NonEmptySnoc(xs[1..], x);
    }
  }

  /** Every piece that Split returns is free of the separator. */
  lemma {:induction false} SplitPiecesFree(s: string, sep: string)
    requires |sep| > 0
    ensures forall i :: 0 <= i < |Split(s, sep)| ==> !Contains(Split(s, sep)[i], sep)
    decreases |s|
  {
    match IndexOf(s, sep)
    case None =>
      assert Split(s, sep) == [s];
    case Some(k) =>
      var rest := s[k + |sep|..];
      SplitPiecesFree(rest, sep);
      forall j: nat ensures !OccursAt(s[..k], sep, j) {
        if j + |sep| <= k {
          assert !OccursAt(s, sep, j);
          assert s[..k][j..j + |sep|] == s[j..j + |sep|];
        }
      }
      ContainsIff(s[..k], sep);
      assert Split(s, sep) == [s[..k]] + Split(rest, sep);
  }

  /** Joining the pieces back with the separator gives the original string. */
  lemma {:induction false} JoinSplit(s: string, sep: string)
    requires |sep| > 0
    ensures Join(Split(s, sep), sep) == s
    decreases |s|
  {
    var idx := IndexOf(s, sep);
    if idx.Some? {
      var k := idx.value;
      var pre, rest := s[..k], s[k + |sep|..];
      JoinSplit(rest, sep);
      SplitSome(s, sep, k);
      JoinCons(pre, Split(rest, sep), sep);
      SliceAround(s, k, sep);
    } else {
      assert Split(s, sep) == [s];
    }
  }

  /** One step of Split when the separator is found at `k`. */
  lemma {:induction false} SplitSome(s: string, sep: string, k: nat)
    requires |sep| > 0 && IndexOf(s, sep) == Some(k)
    ensures k + |sep| <= |s|
    ensures Split(s, sep) == [s[..k]] + Split(s[k + |sep|..], sep)
  {
  }

  /** A string is the part before an occurrence, the occurrence and the part after it. */
  lemma {:induction false} SliceAround(s: string, k: nat, p: string)
    requires OccursAt(s, p, k)
    ensures s == s[..k] + p + s[k + |p|..]
  {
    assert s[k..k + |p|] == p;
  }

  lemma {:induction false} JoinCons(x: string, ys: seq<string>, sep: string)
    requires |ys| >= 1
    ensures Join([x] + ys, sep) == x + sep + Join(ys, sep)
  {
    assert ([x] + ys)[1..] == ys;
  }

  /** Splitting a joined list gives the list back, when some character of the separator
      occurs in none of the parts. */
  lemma {:induction false} SplitJoin(parts: seq<string>, sep: string, c: char)
    requires |parts| >= 1 && c in sep
    requires forall i :: 0 <= i < |parts| ==> c !in parts[i]
    ensures Split(Join(parts, sep), sep) == parts
    decreases |parts|
  {
    if |parts| == 1 {
      NoOccurrenceWithout(parts[0], sep, c);
      assert IndexOf(parts[0], sep).None?;
    } else {
      var rest := Join(parts[1..], sep);
      SplitJoin(parts[1..], sep, c);
      SplitCons(parts[0], sep, rest, c);
      assert parts == [parts[0]] + parts[1..];
    }
  }

  /** Splitting after a first piece that cannot hold the separator. */
  lemma {:induction false} SplitCons(x: string, sep: string, rest: string, c: char)
    requires c in sep && c !in x
    ensures Split(x + sep + rest, sep) == [x] + Split(rest, sep)
  {
    var s := x + sep + rest;
    IndexOfAfterFree(x, sep, rest, c);
    SplitSome(s, sep, |x|);
    assert s[..|x|] == x;
    assert s[|x| + |sep|..] == rest;
  }

  /** Appending a part to a joined list. */
  lemma {:induction false} JoinSnoc(parts: seq<string>, x: string, sep: string)
    ensures Join(parts + [x], sep) == if parts == [] then x else Join(parts, sep) + sep + x
    decreases |parts|
  {
    if |parts| >= 2 {
      JoinSnoc(parts[1..], x, sep);
      assert (parts + [x])[1..] == parts[1..] + [x];
    } else if |parts| == 1 {
      assert (parts + [x])[1..] == [x];
    }
  }

  /** The tokens of space-joined words are the words, when every word is non-empty and
      holds no space. */
  lemma {:induction false} TokensOfJoin(words: seq<string>)
    requires |words| >= 1
    requires forall i :: 0 <= i < |words| ==> words[i] != "" && ' ' !in words[i]
    ensures Tokens(Join(words, " ")) == words
  {
    SplitJoin(words, " ", ' ');
  }

  // ---------------------------------------------------------------------------------------
  // Replacing
  // ---------------------------------------------------------------------------------------

  /** String.Replace(string, string), ordinal: every non-overlapping occurrence of `p`, found
      from left to right, is replaced by `r`. */
  function ReplaceAll(s: string, p: string, r: string): string
    requires |p| > 0
    decreases |s|
  {
    match IndexOf(s, p)
    case None => s
    case Some(k) => s[..k] + r + ReplaceAll(s[k + |p|..], p, r)
  }

  /** A string without the pattern is left as it is. A replacement as long as the pattern
      keeps the length; a shorter one never lengthens the string, and shortens it whenever
      the pattern occurs. */
  lemma {:induction false} ReplaceLength(s: string, p: string, r: string)
    requires |p| > 0
    ensures !Contains(s, p) ==> ReplaceAll(s, p, r) == s
    ensures |r| == |p| ==> |ReplaceAll(s, p, r)| == |s|
    ensures |r| < |p| ==> |ReplaceAll(s, p, r)| <= |s|
    ensures |r| < |p| && Contains(s, p) ==> |ReplaceAll(s, p, r)| < |s|
    decreases |s|
  {
    match IndexOf(s, p)
    case None =>
    case Some(k) =>
      ReplaceLength(s[k + |p|..], p, r);
  }

  /** Replacing a single character by a string without it leaves none of it behind. */
  lemma {:induction false} ReplaceCharGone(s: string, c: char, r: string)
    requires c !in r
    ensures c !in ReplaceAll(s, [c], r)
    decreases |s|
  {
    match IndexOf(s, [c])
    case None =>
      if c in s {
        var i :| 0 <= i < |s| && s[i] == c;
        assert s[i..i + 1] == [c];
        assert OccursAt(s, [c], i);
      }
    case Some(k) =>
      var pre, rest := s[..k], ReplaceAll(s[k + 1..], [c], r);
      ReplaceCharGone(s[k + 1..], c, r);
      assert c !in pre by {
        forall i | 0 <= i < k ensures pre[i] != c {
          if s[i] == c { assert s[i..i + 1] == [c]; assert OccursAt(s, [c], i); }
        }
      }
      assert ReplaceAll(s, [c], r) == pre + r + rest;
  }

  /** Replacing a pattern by a string without `c` never introduces `c`. */
  lemma {:induction false} ReplaceKeepsAbsent(s: string, p: string, r: string, c: char)
    requires |p| > 0 && c !in s && c !in r
    ensures c !in ReplaceAll(s, p, r)
    decreases |s|
  {
    var idx := IndexOf(s, p);
    if idx.Some? {
      var k := idx.value;
      var pre, rest := s[..k], s[k + |p|..];
      ReplaceSome(s, p, r, k);
      assert c !in pre by {
        forall i | 0 <= i < |pre| ensures pre[i] != c { assert pre[i] == s[i]; }
      }
      assert c !in rest by {
        forall i | 0 <= i < |rest| ensures rest[i] != c { assert rest[i] == s[k + |p| + i]; }
      }
      ReplaceKeepsAbsent(rest, p, r, c);
      var tail := ReplaceAll(rest, p, r);
      assert ReplaceAll(s, p, r) == pre + r + tail;
      assert c !in pre + r + tail;
    } else {
      assert ReplaceAll(s, p, r) == s;
    }
  }

  /** Removing `p` from `x + p + y`, when the first character of `p` does not occur in `x`:
      the first occurrence is the one right after `x`. */
  lemma {:induction false} RemoveAfterFree(x: string, p: string, y: string)
    requires |p| > 0 && p[0] !in x
    ensures ReplaceAll(x + p + y, p, "") == x + ReplaceAll(y, p, "")
  {
    var s := x + p + y;
    IndexOfAfterFree(x, p, y, p[0]);
    ReplaceSome(s, p, "", |x|);
    assert s[..|x|] == x;
    assert s[|x| + |p|..] == y;
    assert x + "" == x;
  }

  /** One step of ReplaceAll when the pattern is found at `k`. */
  lemma {:induction false} ReplaceSome(s: string, p: string, r: string, k: nat)
    requires |p| > 0 && IndexOf(s, p) == Some(k)
    ensures k + |p| <= |s|
    ensures ReplaceAll(s, p, r) == s[..k] + r + ReplaceAll(s[k + |p|..], p, r)
  {
  }

  /** The first occurrence of `p` in `s` is still the first one once `s` is extended. */
  lemma {:induction false} IndexOfExtend(s: string, t: string, p: string, k: nat)
    requires IndexOf(s, p) == Some(k)
    ensures IndexOf(s + t, p) == Some(k)
  {
    var st := s + t;
    assert st[k..k + |p|] == s[k..k + |p|];
    forall j: nat | j < k ensures !OccursAt(st, p, j) {
      assert !OccursAt(s, p, j);
      assert st[j..j + |p|] == s[j..j + |p|];
    }
    IndexOfIs(st, p, k);
  }

  /** Removing `p` from `x + p + y`, when the first occurrence of `p` in `x + p` is the one at
      its end. */
  lemma {:induction false} RemoveFirstAtEnd(x: string, p: string, y: string)
    requires |p| > 0 && IndexOf(x + p, p) == Some(|x|)
    ensures ReplaceAll(x + p + y, p, "") == x + ReplaceAll(y, p, "")
  {
    var s := x + p + y;
    IndexOfExtend(x + p, y, p, |x|);
    ReplaceSome(s, p, "", |x|);
    assert s[..|x|] == x;
    assert s[|x| + |p|..] == y;
    assert x + "" == x;
  }

  /** `s` with every `c` dropped. */
  function Without(s: string, c: char): (r: string)
    ensures c !in r
  {
    if s == [] then [] else (if s[0] == c then [] else [s[0]]) + Without(s[1..], c)
  }

  lemma {:induction false} WithoutAppend(a: string, b: string, c: char)
    ensures Without(a + b, c) == Without(a, c) + Without(b, c)
    decreases |a|
  {
    if a != [] {
      assert (a + b)[1..] == a[1..] + b;
      WithoutAppend(a[1..], b, c);
    } else {
      assert a + b == b;
    }
  }

  lemma {:induction false} WithoutAbsent(s: string, c: char)
    requires c !in s
    ensures Without(s, c) == s
    decreases |s|
  {
    if s != [] { WithoutAbsent(s[1..], c); }
  }

  /** String.Replace(string, string) with a one-character pattern and an empty replacement
      drops every occurrence of that character. */
  lemma {:induction false} ReplaceCharIsWithout(s: string, c: char)
    ensures ReplaceAll(s, [c], "") == Without(s, c)
    decreases |s|
  {
    match IndexOf(s, [c])
    case None =>
      assert c !in s by {
        if c in s {
          var i :| 0 <= i < |s| && s[i] == c;
          assert s[i..i + 1] == [c];
          assert OccursAt(s, [c], i);
        }
      }
      WithoutAbsent(s, c);
    case Some(k) =>
      var pre, rest := s[..k], s[k + 1..];
      assert c !in pre by {
        forall i | 0 <= i < k ensures s[i] != c {
          if s[i] == c { assert s[i..i + 1] == [c]; assert OccursAt(s, [c], i); }
        }
      }
      ReplaceCharIsWithout(rest, c);
      assert s == pre + [c] + rest by { SliceAround(s, k, [c]); }
      WithoutAppend(pre + [c], rest, c);
      WithoutAppend(pre, [c], c);
      WithoutAbsent(pre, c);
      assert Without([c], c) == [];
      assert pre + "" == pre;
  }

  // ---------------------------------------------------------------------------------------
  // Trimming
  // ---------------------------------------------------------------------------------------

  /** Char.IsWhiteSpace: the Unicode separators Zs, Zl, Zp and the controls U+0009-U+000D,
      U+0085. */
  predicate IsWhiteSpace(c: char) {
    c == ' ' || ('\t' <= c <= '\r') || c == '\U{0085}' || c == '\U{00A0}' || c == '\U{1680}'
    || ('\U{2000}' <= c <= '\U{200A}') || c == '\U{2028}' || c == '\U{2029}'
    || c == '\U{202F}' || c == '\U{205F}' || c == '\U{3000}'
  }

  function TrimStart(s: string): (r: string)
    ensures r == [] || !IsWhiteSpace(r[0])
    ensures |r| <= |s|
  {
    if s != [] && IsWhiteSpace(s[0]) then TrimStart(s[1..]) else s
  }

  function TrimEnd(s: string): (r: string)
    ensures r == [] || !IsWhiteSpace(r[|r| - 1])
    ensures |r| <= |s| && forall i :: 0 <= i < |r| ==> r[i] == s[i]
  {
    if s != [] && IsWhiteSpace(s[|s| - 1]) then TrimEnd(s[..|s| - 1]) else s
  }

  /** String.Trim(): white space removed from both ends. */
  function Trim(s: string): (r: string)
    ensures r == [] || (!IsWhiteSpace(r[0]) && !IsWhiteSpace(r[|r| - 1]))
  {
    var t := TrimStart(s);
    var r := TrimEnd(t);
    assert r != [] ==> r[0] == t[0];
    r
  }

  /** A string without white space at either end is its own trim. */
  lemma {:induction false} TrimNoEdges(s: string)
    requires s == [] || (!IsWhiteSpace(s[0]) && !IsWhiteSpace(s[|s| - 1]))
    ensures Trim(s) == s
  {
  }

  lemma {:induction false} TrimStartAppend(s: string, w: string)
    requires exists i :: 0 <= i < |s| && !IsWhiteSpace(s[i])
    ensures TrimStart(s + w) == TrimStart(s) + w
    decreases |s|
  {
    if IsWhiteSpace(s[0]) {
      assert (s + w)[1..] == s[1..] + w;
      var i :| 0 <= i < |s| && !IsWhiteSpace(s[i]);
      assert s[1..][i - 1] == s[i];
      TrimStartAppend(s[1..], w);
    }
  }

  lemma {:induction false} TrimEndSpace(s: string)
    ensures TrimEnd(s + " ") == TrimEnd(s)
  {
    assert (s + " ")[..|s|] == s;
  }

  lemma {:induction false} TrimStartAllWhite(s: string)
    requires forall i :: 0 <= i < |s| ==> IsWhiteSpace(s[i])
    ensures TrimStart(s) == []
    decreases |s|
  {
    if s != [] { TrimStartAllWhite(s[1..]); }
  }

  /** A trailing space does not change the trimmed string. */
  lemma {:induction false} TrimAppendSpace(s: string)
    ensures Trim(s + " ") == Trim(s)
  {
    if exists i :: 0 <= i < |s| && !IsWhiteSpace(s[i]) {
      TrimStartAppend(s, " ");
      TrimEndSpace(TrimStart(s));
    } else {
      TrimStartAllWhite(s);
      TrimStartAllWhite(s + " ");
    }
  }

  // ---------------------------------------------------------------------------------------
  // Case mapping (ASCII letters only)
  // ---------------------------------------------------------------------------------------

  function LowerChar(c: char): char {
    if 'A' <= c <= 'Z' then (c as int + 32) as char else c
  }

  function UpperChar(c: char): char {
    if 'a' <= c <= 'z' then (c as int - 32) as char else c
  }

  /** String.ToLower(). */
  function ToLower(s: string): (r: string)
    ensures |r| == |s| && forall i :: 0 <= i < |s| ==> r[i] == LowerChar(s[i])
  {
    seq(|s|, i requires 0 <= i < |s| => LowerChar(s[i]))
  }

  /** String.ToUpper(). */
  function ToUpper(s: string): (r: string)
    ensures |r| == |s| && forall i :: 0 <= i < |s| ==> r[i] == UpperChar(s[i])
  {
    seq(|s|, i requires 0 <= i < |s| => UpperChar(s[i]))
  }

  /** An upper-case letter occurs in the upper-cased string exactly when it, or its
      lower-case form, occurs in the original. */
  lemma {:induction false} InToUpper(s: string, c: char)
    requires 'A' <= c <= 'Z'
    ensures c in ToUpper(s) <==> c in s || LowerChar(c) in s
  {
    var u := ToUpper(s);
    if c in u {
      var i :| 0 <= i < |u| && u[i] == c;
      assert s[i] == c || s[i] == LowerChar(c);
    }
    if c in s {
      var i :| 0 <= i < |s| && s[i] == c;
      assert u[i] == c;
    }
    if LowerChar(c) in s {
      var i :| 0 <= i < |s| && s[i] == LowerChar(c);
      assert u[i] == c;
    }
  }

  // ---------------------------------------------------------------------------------------
  // Integers
  // ---------------------------------------------------------------------------------------

  const Int32Max: int := 0x7FFF_FFFF
  const Int32Min: int := -0x8000_0000

  predicate IsDigit(c: char) {
    '0' <= c <= '9'
  }

  function DigitChar(d: nat): char
    requires d < 10
  {
    (('0' as int) + d) as char
  }

  /** Int32.ToString() of a non-negative value, as used when batch names are formed. */
  function NatToString(n: nat): (r: string)
    ensures |r| >= 1 && forall i :: 0 <= i < |r| ==> IsDigit(r[i])
    decreases n
  {
    if n < 10 then [DigitChar(n)] else NatToString(n / 10) + [DigitChar(n % 10)]
  }

  /** The value of a string of decimal digits. */
  function DigitsValue(ds: string): nat
    requires forall i :: 0 <= i < |ds| ==> IsDigit(ds[i])
  {
    if ds == [] then 0
    else
      assert IsDigit(ds[|ds| - 1]);
      DigitsValue(ds[..|ds| - 1]) * 10 + (ds[|ds| - 1] as int - '0' as int)
  }

  /** Int32.TryParse(string, out int) on a string that has already been trimmed: an optional
      sign followed by one or more ASCII digits, within the 32-bit range. */
  function TryParseInt(s: string): (r: Option<int>)
    ensures r.Some? ==> Int32Min <= r.value <= Int32Max
    ensures r.Some? ==> |s| >= 1 && IsDigit(s[|s| - 1])
    ensures r.Some? && r.value < 0 ==> s[0] == '-'
    ensures (forall i :: 0 <= i < |s| ==> IsDigit(s[i])) && |s| >= 1 && DigitsValue(s) <= Int32Max
            ==> r == Some(DigitsValue(s))
  {
    var negative := |s| > 0 && s[0] == '-';
    var digits := if |s| > 0 && (s[0] == '-' || s[0] == '+') then s[1..] else s;
    if digits == [] || exists i :: 0 <= i < |digits| && !IsDigit(digits[i]) then None
    else
      var v: int := if negative then -(DigitsValue(digits) as int) else DigitsValue(digits);
      if Int32Min <= v <= Int32Max then Some(v) else None
  }

  /** Formatting a number in decimal and parsing it back gives the number. */
  lemma {:induction false} DigitsValueOfNatToString(n: nat)
    ensures DigitsValue(NatToString(n)) == n
    decreases n
  {
    if n >= 10 {
      DigitsValueOfNatToString(n / 10);
      var s := NatToString(n);
      assert s[..|s| - 1] == NatToString(n / 10);
    }
  }

  lemma {:induction false} ParseNatToString(n: nat)
    requires n <= Int32Max
    ensures TryParseInt(NatToString(n)) == Some(n)
  {
    DigitsValueOfNatToString(n);
  }
}
