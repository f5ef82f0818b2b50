/** String operations of the JavaScript runtime that the extension relies on:
    `includes`, `replace` with a string pattern, `trim`, ASCII case folding for
    a case-insensitive regular expression, and `String(n)` on integers.
    Whitespace is the ASCII subset of JavaScript's `\s`. */
module Text {
  import opened Wrappers

  /** Space, tab, line feed, vertical tab, form feed, carriage return. */
  predicate IsSpace(c: char) {
    c == ' ' || c == '\t' || c == '\n' || c == '\r' || c == '\U{B}' || c == '\U{C}'
  }

  predicate AllSpace(s: string) {
    forall i :: 0 <= i < |s| ==> IsSpace(s[i])
  }

  predicate NoSpace(s: string) {
    forall i :: 0 <= i < |s| ==> !IsSpace(s[i])
  }

  /** `p` occurs in `s` starting at index `i`. */
  predicate OccursAt(s: string, p: string, i: nat) {
    i + |p| <= |s| && s[i..i + |p|] == p
  }

  /** JavaScript `s.includes(p)`. */
  predicate Contains(s: string, p: string) {
    exists i: nat | i <= |s| :: OccursAt(s, p, i)
  }

  /** JavaScript `s.indexOf(p)`, with `None` for -1: the first index at which `p` occurs. */
  function IndexOf(s: string, p: string): (r: Option<nat>)
    ensures r.Some? ==> OccursAt(s, p, r.value)
    ensures r.Some? ==> forall j: nat :: j < r.value ==> !OccursAt(s, p, j)
    ensures r.None? <==> !Contains(s, p)
    decreases |s|
  {
    if |p| <= |s| && s[..|p|] == p then
      assert OccursAt(s, p, 0);
      Some(0)
    else if s == [] then
      None
    else
      var rest := IndexOf(s[1..], p);
      IndexOfStep(s, p);
      match rest
      case Some(k) => Some(k + 1)
      case None => None
  }

  /** Slicing a slice is slicing the original. */
  lemma SliceOfSlice(s: string, a: nat, b: nat, c: nat, d: nat)
    requires a <= b <= |s| && c <= d <= b - a
    ensures s[a..b][c..d] == s[a + c..a + d]
  {
    assert forall k :: 0 <= k < d - c ==> s[a..b][c..d][k] == s[a + c..a + d][k];
  }

  /** An occurrence at `j + 1` in `s` is an occurrence at `j` in `s[1..]`. */
  lemma ShiftOccurrence(s: string, p: string)
    requires s != []
    ensures forall j: nat :: OccursAt(s, p, j + 1) <==> OccursAt(s[1..], p, j)
  {
    forall j: nat
      ensures OccursAt(s, p, j + 1) <==> OccursAt(s[1..], p, j)
    {
      if j + 1 + |p| <= |s| {
        assert s[1..] == s[1..|s|];
        SliceOfSlice(s, 1, |s|, j, j + |p|);
      }
    }
  }

  /** Occurrences in `s` are the one at 0, if any, and those of `s[1..]` shifted by one. */
  lemma IndexOfStep(s: string, p: string)
    requires s != []
    ensures forall j: nat :: OccursAt(s, p, j) <==>
      (j == 0 && |p| <= |s| && s[..|p|] == p) || (j > 0 && OccursAt(s[1..], p, j - 1))
  {
    ShiftOccurrence(s, p);
    forall j: nat | j > 0
      ensures OccursAt(s, p, j) <==> OccursAt(s[1..], p, j - 1)
    {
      assert OccursAt(s, p, (j - 1) + 1) <==> OccursAt(s[1..], p, j - 1);
    }
  }

  /** A substring of a substring is a substring. */
  lemma ContainsTransitive(s: string, m: string, p: string)
    requires Contains(s, m) && Contains(m, p)
    ensures Contains(s, p)
  {
    var i: nat :| i <= |s| && OccursAt(s, m, i);
    var j: nat :| j <= |m| && OccursAt(m, p, j);
    SliceOfSlice(s, i, i + |m|, j, j + |p|);
    assert OccursAt(s, p, i + j);
  }

  /** Each piece of a concatenation is contained in it. */
  lemma ContainsPieces(a: string, b: string, c: string)
    ensures Contains(a + b + c, a) && Contains(a + b + c, b) && Contains(a + b + c, c)
  {
    var s := a + b + c;
    assert OccursAt(s, a, 0) by { assert s[..|a|] == a; }
    assert OccursAt(s, b, |a|) by { assert s[|a|..|a| + |b|] == b; }
    assert OccursAt(s, c, |a| + |b|) by { assert s[|a| + |b|..] == c; }
  }

  /** A string contains itself. */
  lemma ContainsSelf(s: string)
    ensures Contains(s, s)
  {
    assert OccursAt(s, s, 0);
  }

  /** JavaScript `s.replace(p, r)` with a string pattern: only the first
      occurrence is replaced. */
  function ReplaceFirst(s: string, p: string, r: string): (t: string)
    ensures !Contains(s, p) ==> t == s
    ensures Contains(s, p) ==>
      exists i: nat :: OccursAt(s, p, i) && (forall j: nat :: j < i ==> !OccursAt(s, p, j)) &&
        t == s[..i] + r + s[i + |p|..]
  {
    match IndexOf(s, p)
    case None => s
    case Some(i) => s[..i] + r + s[i + |p|..]
  }

  /** ASCII lower-casing of one character. */
  function Lower(c: char): char {
    if 'A' <= c <= 'Z' then (c as int + 32) as char else c
  }

  function ToLower(s: string): (r: string)
    ensures |r| == |s| && forall i :: 0 <= i < |s| ==> r[i] == Lower(s[i])
  {
    seq(|s|, i requires 0 <= i < |s| => Lower(s[i]))
  }

  /** A string that contains a lower-case word still contains it after case folding. */
  lemma ContainsLowerWord(s: string, w: string)
    requires Contains(s, w) && ToLower(w) == w
    ensures Contains(ToLower(s), w)
  {
    var i: nat :| i <= |s| && OccursAt(s, w, i);
    var t := ToLower(s);
    forall k | 0 <= k < |w|
      ensures t[i + k] == w[k]
    {
      assert s[i + k] == w[k];
      assert ToLower(w)[k] == Lower(w[k]);
    }
    assert t[i..i + |w|] == w;
    assert OccursAt(t, w, i);
  }

  /** Case folding commutes with slicing. */
  lemma LowerSlice(s: string, i: nat, j: nat)
    requires i <= j <= |s|
    ensures ToLower(s)[i..j] == ToLower(s[i..j])
  {
    forall k | 0 <= k < j - i
      ensures ToLower(s)[i..j][k] == ToLower(s[i..j])[k]
    {
      assert ToLower(s)[i..j][k] == Lower(s[i + k]);
      assert s[i..j][k] == s[i + k];
    }
  }

  /** The window of `s` at `i` folds to `w`. */
  predicate FoldsAt(s: string, w: string, i: nat) {
    i + |w| <= |s| && ToLower(s[i..i + |w|]) == w
  }

  /** A case-insensitive search, `/w/i.test(s)`: the case-folded `s` contains
      `w` exactly when some window of `s` folds to `w`. */
  lemma CaseInsensitiveContains(s: string, w: string)
    ensures Contains(ToLower(s), w) <==> exists i: nat :: FoldsAt(s, w, i)
  {
    var t := ToLower(s);
    if Contains(t, w) {
      var i: nat :| i <= |t| && OccursAt(t, w, i);
      LowerSlice(s, i, i + |w|);
      assert FoldsAt(s, w, i);
    }
    if exists i: nat :: FoldsAt(s, w, i) {
      var i: nat :| FoldsAt(s, w, i);
      LowerSlice(s, i, i + |w|);
      assert OccursAt(t, w, i);
    }
  }

  /** Any ASCII-case spelling of `w` in `s` passes the case-insensitive search for `w`. */
  lemma CaseVariantContained(s: string, v: string, w: string)
    requires Contains(s, v) && ToLower(v) == w
    ensures Contains(ToLower(s), w)
  {
    var i: nat :| i <= |s| && OccursAt(s, v, i);
    CaseInsensitiveContains(s, w);
    assert s[i..i + |v|] == v;
    assert FoldsAt(s, w, i);
  }

  /** JavaScript `trimStart()`. */
  function TrimStart(s: string): (r: string)
    ensures |r| <= |s|
  {
    if s != [] && IsSpace(s[0]) then TrimStart(s[1..]) else s
  }

  /** JavaScript `trimEnd()`. */
  function TrimEnd(s: string): (r: string)
    ensures |r| <= |s|
  {
    if s != [] && IsSpace(s[|s| - 1]) then TrimEnd(s[..|s| - 1]) else s
  }

  /** `trimStart()` drops a leading run of whitespace and stops at the first
      other character. */
  lemma {:induction false} TrimStartFacts(s: string)
    ensures var r := TrimStart(s);
      |r| <= |s| && r == s[|s| - |r|..] && AllSpace(s[..|s| - |r|]) && (r == [] || !IsSpace(r[0]))
    decreases |s|
  {
    if s != [] && IsSpace(s[0]) {
      var r := TrimStart(s[1..]);
      TrimStartFacts(s[1..]);
      var n := |s| - |r|;
      assert s[1..][|s| - 1 - |r|..] == s[n..];
      var t := s[..n];
      assert t[1..] == s[1..][..n - 1];
      assert AllSpace(t[..1]) by { assert t[..1] == [s[0]]; }
      AllSpaceSplit(t, 1);
    }
  }

  /** `trimEnd()` drops a trailing run of whitespace and stops at the last
      other character. */
  lemma {:induction false} TrimEndFacts(s: string)
    ensures var r := TrimEnd(s);
      |r| <= |s| && r == s[..|r|] && AllSpace(s[|r|..]) && (r == [] || !IsSpace(r[|r| - 1]))
    decreases |s|
  {
    if s != [] && IsSpace(s[|s| - 1]) {
      var r := TrimEnd(s[..|s| - 1]);
      TrimEndFacts(s[..|s| - 1]);
      assert s[..|s| - 1][..|r|] == s[..|r|];
      var t := s[|r|..];
      assert t[..|t| - 1] == s[..|s| - 1][|r|..];
      assert AllSpace(t[|t| - 1..]) by { assert t[|t| - 1..] == [s[|s| - 1]]; }
      AllSpaceSplit(t, |t| - 1);
    }
  }

  /** JavaScript `trim()`: `s` with its leading and trailing whitespace removed. */
  function Trim(s: string): (r: string)
    ensures r == [] <==> AllSpace(s)
    ensures r != [] ==> !IsSpace(r[0]) && !IsSpace(r[|r| - 1])
  {
    TrimParts(s);
    TrimEnd(TrimStart(s))
  }

  /** What `trim()` removes is whitespace only: the result is a slice of `s`
      with nothing but whitespace on either side. */
  lemma TrimSlice(s: string)
    ensures exists i: nat :: OccursAt(s, Trim(s), i) && AllSpace(s[..i]) && AllSpace(s[i + |Trim(s)|..])
  {
    TrimParts(s);
    TrimStartFacts(s);
    var i := |s| - |TrimStart(s)|;
    assert OccursAt(s, Trim(s), i);
  }

  lemma AllSpaceSplit(s: string, i: nat)
    requires i <= |s|
    ensures AllSpace(s) <==> AllSpace(s[..i]) && AllSpace(s[i..])
  {
    if AllSpace(s[..i]) && AllSpace(s[i..]) {
      forall k | 0 <= k < |s|
        ensures IsSpace(s[k])
      {
        if k < i {
          assert s[k] == s[..i][k];
        } else {
          assert s[k] == s[i..][k - i];
        }
      }
    }
  }

  lemma TrimParts(s: string)
    ensures var r := TrimEnd(TrimStart(s));
      (r == [] <==> AllSpace(s)) &&
      (r != [] ==> !IsSpace(r[0]) && !IsSpace(r[|r| - 1])) &&
      OccursAt(s, r, |s| - |TrimStart(s)|) &&
      AllSpace(s[..|s| - |TrimStart(s)|]) && AllSpace(s[|s| - |TrimStart(s)| + |r|..])
  {
    TrimPartsSlice(s);
    TrimPartsEnds(s);
    TrimPartsEmpty(s);
  }

  /** The trimmed string sits in `s` after the leading whitespace, with only
      whitespace after it. */
  lemma TrimPartsSlice(s: string)
    ensures var a := TrimStart(s); var r := TrimEnd(a); var i := |s| - |a|;
      OccursAt(s, r, i) && AllSpace(s[..i]) && AllSpace(s[i + |r|..])
  {
    var a := TrimStart(s);
    var r := TrimEnd(a);
    TrimStartFacts(s);
    TrimEndFacts(a);
    var i := |s| - |a|;
    SliceOfSlice(s, i, |s|, 0, |r|);
    SliceOfSlice(s, i, |s|, |r|, |a|);
  }

  lemma TrimPartsEnds(s: string)
    ensures var r := TrimEnd(TrimStart(s)); r != [] ==> !IsSpace(r[0]) && !IsSpace(r[|r| - 1])
  {
    var a := TrimStart(s);
    var r := TrimEnd(a);
    TrimStartFacts(s);
    TrimEndFacts(a);
    if r != [] {
      assert r[0] == a[0];
    }
  }

  lemma TrimPartsEmpty(s: string)
    ensures TrimEnd(TrimStart(s)) == [] <==> AllSpace(s)
  {
    var a := TrimStart(s);
    var r := TrimEnd(a);
    var i := |s| - |a|;
    TrimPartsSlice(s);
    if r == [] {
      AllSpaceSplit(s, i);
    } else {
      TrimPartsEnds(s);
      assert s[i] == s[i..i + |r|][0];
    }
  }

  /** A string with no whitespace at either end is its own trim. */
  lemma TrimUnchanged(s: string)
    requires s == [] || (!IsSpace(s[0]) && !IsSpace(s[|s| - 1]))
    ensures Trim(s) == s
  {
    assert TrimStart(s) == s;
    assert TrimEnd(s) == s;
  }

  /** Trimming is idempotent. */
  lemma TrimIdempotent(s: string)
    ensures Trim(Trim(s)) == Trim(s)
  {
  }

  /** The decimal digit `d`. */
  function Digit(d: nat): char
    requires d < 10
  {
    ('0' as int + d) as char
  }

  predicate IsDigit(c: char) {
    '0' <= c <= '9'
  }

  predicate AllDigits(s: string) {
    forall i :: 0 <= i < |s| ==> IsDigit(s[i])
  }

  /** Decimal notation of a natural number, without leading zeros. */
  function NatToString(n: nat): (r: string)
    ensures r != [] && AllDigits(r)
    ensures |r| > 1 ==> r[0] != '0'
  {
    if n < 10 then [Digit(n)] else NatToString(n / 10) + [Digit(n % 10)]
  }

  /** JavaScript `String(n)` for an integer `n`. */
  function IntToString(n: int): (r: string)
    ensures r != []
    ensures n >= 0 ==> AllDigits(r)
    ensures n < 0 ==> r[0] == '-' && AllDigits(r[1..])
  {
    if n < 0 then "-" + NatToString(-n) else NatToString(n)
  }

  /** The value of a string of decimal digits. */
  function ParseNat(s: string): nat
    requires AllDigits(s)
  {
    if s == [] then 0 else ParseNat(s[..|s| - 1]) * 10 + (s[|s| - 1] as int - '0' as int)
  }

  /** Reads back what `IntToString` writes; `None` for anything else. */
  function ParseInt(s: string): Option<int> {
    if s != [] && s[0] == '-' && s[1..] != [] && AllDigits(s[1..]) then Some(-(ParseNat(s[1..]) as int))
    else if s != [] && AllDigits(s) then Some(ParseNat(s))
    else None
  }

  lemma {:induction false} ParseNatToString(n: nat)
    ensures ParseNat(NatToString(n)) == n
  {
    if n >= 10 {
      var s := NatToString(n);
      assert s[..|s| - 1] == NatToString(n / 10);
      ParseNatToString(n / 10);
    }
  }

  /** `String(n)` is injective and readable: parsing it gives `n` back. */
  lemma IntToStringRoundTrip(n: int)
    ensures ParseInt(IntToString(n)) == Some(n)
  {
    if n < 0 {
      var s := IntToString(n);
      assert s[1..] == NatToString(-n);
      ParseNatToString(-n);
    } else {
      ParseNatToString(n);
    }
  }
}
