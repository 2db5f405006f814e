/**
 * The string operations the application relies on, written out:
 * JavaScript's `String.prototype.trim`, `length` in UTF-16 code units,
 * `split` on a one-character separator and `join`, and the
 * case-insensitive substring test the list query performs (ASCII case
 * folding only).
 */
module Text {

  /** The characters `String.prototype.trim` removes: ECMAScript WhiteSpace and LineTerminator. */
  predicate IsSpace(c: char) {
    var n := c as int;
    (9 <= n <= 13) || n == 0x20 || n == 0xA0 || n == 0x1680 || (0x2000 <= n <= 0x200A)
    || n == 0x2028 || n == 0x2029 || n == 0x202F || n == 0x205F || n == 0x3000 || n == 0xFEFF
  }

  predicate AllSpace(s: string) {
    forall i :: 0 <= i < |s| ==> IsSpace(s[i])
  }

  /** Neither end of `s` is whitespace. */
  predicate IsTrimmed(s: string) {
    s == [] || (!IsSpace(s[0]) && !IsSpace(s[|s| - 1]))
  }

  /**
   * JavaScript's `s.length`: the number of UTF-16 code units, one for a
   * character of the Basic Multilingual Plane and two (a surrogate pair)
   * for one beyond it.
   */
  function Utf16Length(s: string): (n: nat)
    ensures |s| <= n <= 2 * |s|
    decreases |s|
  {
    if s == [] then 0 else (if s[0] as int > 0xFFFF then 2 else 1) + Utf16Length(s[1..])
  }

  /** Within the Basic Multilingual Plane a string's length in code units is its number of characters. */
  lemma {:induction false} Utf16LengthOfBmp(s: string)
    requires forall i :: 0 <= i < |s| ==> s[i] as int <= 0xFFFF
    ensures Utf16Length(s) == |s|
    decreases |s|
  {
    if s != [] {
      Utf16LengthOfBmp(s[1..]);
    }
  }

  /** `r` is `s` with a whitespace prefix and a whitespace suffix cut off. */
  ghost predicate IsInfixBetweenSpaces(r: string, s: string) {
    exists k :: 0 <= k <= |s| - |r| && s[k..k + |r|] == r && AllSpace(s[..k]) && AllSpace(s[k + |r|..])
  }

  function TrimStart(s: string): (r: string)
    ensures |r| <= |s| && r == s[|s| - |r|..]
    ensures AllSpace(s[..|s| - |r|])
    ensures r == [] || !IsSpace(r[0])
    decreases |s|
  {
    if |s| > 0 && IsSpace(s[0]) then
      var r := TrimStart(s[1..]);
      assert s[..|s| - |r|] == [s[0]] + s[1..][..|s| - 1 - |r|];
      r
    else s
  }

  function TrimEnd(s: string): (r: string)
    ensures |r| <= |s| && r == s[..|r|]
    ensures AllSpace(s[|r|..])
    ensures r == [] || !IsSpace(r[|r| - 1])
    decreases |s|
  {
    if |s| > 0 && IsSpace(s[|s| - 1]) then
      var r := TrimEnd(s[..|s| - 1]);
      assert s[|r|..] == s[..|s| - 1][|r|..] + [s[|s| - 1]];
      r
    else s
  }

  /** Cutting a whitespace prefix and then a whitespace suffix leaves an infix between whitespace runs. */
  lemma InfixAfterCuts(s: string, t: string, r: string)
    requires |t| <= |s| && t == s[|s| - |t|..] && AllSpace(s[..|s| - |t|])
    requires |r| <= |t| && r == t[..|r|] && AllSpace(t[|r|..])
    ensures IsInfixBetweenSpaces(r, s)
  {
    var k := |s| - |t|;
    assert s[k..k + |r|] == r;
    assert s[k + |r|..] == t[|r|..];
  }

  /** JavaScript's `s.trim()`: whitespace removed from both ends. */
  function Trim(s: string): (r: string)
    ensures IsTrimmed(r)
  {
    var t := TrimStart(s);
    var r := TrimEnd(t);
    assert r != [] ==> r[0] == t[0];
    r
  }

  /** What trimming removes is whitespace, from the two ends only. */
  lemma TrimInfix(s: string)
    ensures IsInfixBetweenSpaces(Trim(s), s)
  {
    InfixAfterCuts(s, TrimStart(s), TrimEnd(TrimStart(s)));
  }

  /** Where the trimmed text starts in the original: after the leading whitespace. */
  function TrimOffset(s: string): (k: nat)
    ensures k <= |s|
  {
    |s| - |TrimStart(s)|
  }

  /** The trimmed text is the original's characters from that offset on, in order. */
  lemma TrimAt(s: string)
    ensures TrimOffset(s) + |Trim(s)| <= |s|
    ensures forall j :: 0 <= j < |Trim(s)| ==> Trim(s)[j] == s[TrimOffset(s) + j]
  {
    CutsAt(s, TrimStart(s), TrimEnd(TrimStart(s)));
  }

  /** A prefix of a suffix of `s` reads `s` from where the suffix starts. */
  lemma CutsAt(s: string, t: string, r: string)
    requires |t| <= |s| && t == s[|s| - |t|..]
    requires |r| <= |t| && r == t[..|r|]
    ensures forall j :: 0 <= j < |r| ==> r[j] == s[|s| - |t| + j]
  {
    forall j | 0 <= j < |r| ensures r[j] == s[|s| - |t| + j] {
      assert r[j] == t[j];
    }
  }

  /** Trimming leaves an already trimmed string as it is. */
  lemma TrimOfTrimmed(s: string)
    requires IsTrimmed(s)
    ensures Trim(s) == s
  {
  }

  lemma TrimIdempotent(s: string)
    ensures Trim(Trim(s)) == Trim(s)
  {
    TrimOfTrimmed(Trim(s));
  }

  /** A string that trims to nothing consists of whitespace only, and conversely. */
  lemma TrimEmptyIffAllSpace(s: string)
    ensures Trim(s) == [] <==> AllSpace(s)
  {
    var t := TrimStart(s);
    var r := TrimEnd(t);
    assert Trim(s) == r;
    if r == [] {
      assert t[|r|..] == t;
      assert AllSpace(t);
      assert t == [];
      assert s[..|s| - |t|] == s;
    } else {
      assert t != [] && t[0] == s[|s| - |t|] && !IsSpace(t[0]);
    }
  }

  /** ASCII lower-casing of one character. */
  function LowerChar(c: char): (d: char)
    ensures 'A' <= c <= 'Z' ==> d as int == c as int + 32
    ensures !('A' <= c <= 'Z') ==> d == c
  {
    if 'A' <= c <= 'Z' then (c as int + 32) as char else c
  }

  function Lower(s: string): (r: string)
    ensures |r| == |s|
    ensures forall i :: 0 <= i < |s| ==> r[i] == LowerChar(s[i])
    decreases |s|
  {
    if s == [] then [] else [LowerChar(s[0])] + Lower(s[1..])
  }

  predicate OccursAt(p: string, t: string, i: int) {
    0 <= i <= |t| - |p| && t[i..i + |p|] == p
  }

  /** `p` is a substring of `t`: a scan over the start positions. */
  function Contains(t: string, p: string): bool
    decreases |t|
  {
    if |p| <= |t| && t[..|p|] == p then true
    else if |t| == 0 then false
    else Contains(t[1..], p)
  }

  /** The scan answers exactly whether `p` occurs somewhere in `t`. */
  lemma {:induction false} ContainsIff(t: string, p: string)
    ensures Contains(t, p) <==> exists i :: OccursAt(p, t, i)
    decreases |t|
  {
    if |p| <= |t| && t[..|p|] == p {
      assert OccursAt(p, t, 0);
    } else if |t| > 0 {
      ContainsIff(t[1..], p);
      ContainsShift(t, p);
    }
  }

  lemma ContainsShift(t: string, p: string)
    requires |t| > 0 && !(|p| <= |t| && t[..|p|] == p)
    ensures (exists i :: OccursAt(p, t, i)) <==> (exists i :: OccursAt(p, t[1..], i))
  {
    if exists i :: OccursAt(p, t, i) {
      var i :| OccursAt(p, t, i);
      assert i != 0;
      assert t[1..][i - 1..i - 1 + |p|] == t[i..i + |p|];
      assert OccursAt(p, t[1..], i - 1);
    }
    if exists i :: OccursAt(p, t[1..], i) {
      var i :| OccursAt(p, t[1..], i);
      assert t[1..][i..i + |p|] == t[i + 1..i + 1 + |p|];
      assert OccursAt(p, t, i + 1);
    }
  }

  /** `p` occurs in `t` at `i` once both are folded to lower case. */
  predicate MatchesAtIgnoreCase(p: string, t: string, i: int) {
    0 <= i <= |t| - |p| && forall j :: 0 <= j < |p| ==> LowerChar(t[i + j]) == LowerChar(p[j])
  }

  lemma LowerOccursIff(p: string, t: string)
    ensures forall i :: OccursAt(Lower(p), Lower(t), i) <==> MatchesAtIgnoreCase(p, t, i)
  {
    forall i | 0 <= i <= |t| - |p|
      ensures OccursAt(Lower(p), Lower(t), i) <==> MatchesAtIgnoreCase(p, t, i)
    {
      var lp, lt := Lower(p), Lower(t);
      if MatchesAtIgnoreCase(p, t, i) {
        assert lt[i..i + |lp|] == lp by {
          forall j | 0 <= j < |lp| ensures lt[i..i + |lp|][j] == lp[j] {
            assert lt[i + j] == LowerChar(t[i + j]);
          }
        }
      }
      if OccursAt(lp, lt, i) {
        forall j | 0 <= j < |p| ensures LowerChar(t[i + j]) == LowerChar(p[j]) {
          assert lt[i..i + |lp|][j] == lp[j];
        }
      }
    }
  }

  /** Case-insensitive substring test, folding ASCII letters only. */
  function ContainsIgnoreCase(t: string, p: string): bool {
    Contains(Lower(t), Lower(p))
  }

  /** The folded test finds `p` exactly where its characters match `t`'s up to case. */
  lemma ContainsIgnoreCaseIff(t: string, p: string)
    ensures ContainsIgnoreCase(t, p) <==> exists i :: MatchesAtIgnoreCase(p, t, i)
  {
    ContainsIff(Lower(t), Lower(p));
    LowerOccursIff(p, t);
  }

  /** `parts.join(sep)` for a one-character separator. */
  function Join(parts: seq<string>, sep: char): string
    decreases |parts|
  {
    if |parts| == 0 then ""
    else if |parts| == 1 then parts[0]
    else parts[0] + [sep] + Join(parts[1..], sep)
  }

  /** `s.split(sep)` for a one-character separator: never empty, no piece holds `sep`, and the pieces join back to `s`. */
  function Split(s: string, sep: char): (parts: seq<string>)
    ensures |parts| >= 1
    ensures forall k :: 0 <= k < |parts| ==> sep !in parts[k]
    ensures Join(parts, sep) == s
    decreases |s|
  {
    if |s| == 0 then [""]
    else
      var rest := Split(s[1..], sep);
      if s[0] == sep then
        assert [sep] + s[1..] == s;
        [""] + rest
      else
        var parts := [[s[0]] + rest[0]] + rest[1..];
        assert parts[1..] == rest[1..];
        assert forall k :: 1 <= k < |parts| ==> parts[k] == rest[k];
        assert Join(parts, sep) == [s[0]] + Join(rest, sep);
        parts
  }

  lemma {:induction false} SplitWithoutSeparator(a: string, sep: char)
    requires sep !in a
    ensures Split(a, sep) == [a]
    decreases |a|
  {
    if a != [] {
      SplitWithoutSeparator(a[1..], sep);
      assert [a[0]] + a[1..] == a;
    }
  }

  lemma {:induction false} SplitAtFirstSeparator(a: string, b: string, sep: char)
    requires sep !in a
    ensures Split(a + [sep] + b, sep) == [a] + Split(b, sep)
    decreases |a|
  {
    var s := a + [sep] + b;
    if a == [] {
      assert s[1..] == b;
    } else {
      assert s[1..] == a[1..] + [sep] + b;
      SplitAtFirstSeparator(a[1..], b, sep);
      assert [a[0]] + a[1..] == a;
    }
  }

  /** The other half of the round trip: splitting a join of separator-free pieces gives the pieces back. */
  lemma {:induction false} SplitJoin(parts: seq<string>, sep: char)
    requires |parts| >= 1
    requires forall k :: 0 <= k < |parts| ==> sep !in parts[k]
    ensures Split(Join(parts, sep), sep) == parts
    decreases |parts|
  {
    if |parts| == 1 {
      SplitWithoutSeparator(parts[0], sep);
    } else {
      SplitAtFirstSeparator(parts[0], Join(parts[1..], sep), sep);
      SplitJoin(parts[1..], sep);
      assert [parts[0]] + parts[1..] == parts;
    }
  }

  lemma {:induction false} TrimStartAfterSpaces(lead: string, x: string)
    requires AllSpace(lead) && (x == [] || !IsSpace(x[0]))
    ensures TrimStart(lead + x) == x
    decreases |lead|
  {
    if lead != [] {
      assert (lead + x)[1..] == lead[1..] + x;
      TrimStartAfterSpaces(lead[1..], x);
    }
  }

  lemma {:induction false} TrimEndBeforeSpaces(x: string, trail: string)
    requires AllSpace(trail) && (x == [] || !IsSpace(x[|x| - 1]))
    ensures TrimEnd(x + trail) == x
    decreases |trail|
  {
    if trail != [] {
      var t := x + trail;
      assert t[..|t| - 1] == x + trail[..|trail| - 1];
      TrimEndBeforeSpaces(x, trail[..|trail| - 1]);
    }
  }

  /** Trimming removes exactly the whitespace around a trimmed string, however much there is. */
  lemma TrimSurrounded(lead: string, x: string, trail: string)
    requires AllSpace(lead) && AllSpace(trail) && IsTrimmed(x) && x != []
    ensures Trim(lead + x + trail) == x
  {
    assert lead + x + trail == lead + (x + trail);
    TrimStartAfterSpaces(lead, x + trail);
    TrimEndBeforeSpaces(x, trail);
  }
}
