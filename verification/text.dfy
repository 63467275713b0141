/** String handling shared by the subtitle codecs and file naming: splitting,
    joining, trimming, case mapping, integer parsing and zero-padded integer
    formatting. A string is a sequence of characters; grapheme clustering,
    Unicode normalisation and locale rules are not modelled. */
module Text {
  import opened Wrappers

  /** The characters Foundation's `.whitespaces` set is reduced to. */
  const Whitespace: set<char> := {' ', '\t'}

  /** The characters `.whitespacesAndNewlines` is reduced to. */
  const WhitespaceAndNewlines: set<char> := {' ', '\t', '\n', '\r'}

  predicate NoneIn(s: string, cs: set<char>) {
    forall i :: 0 <= i < |s| ==> s[i] !in cs
  }

  predicate AllIn(s: string, cs: set<char>) {
    forall i :: 0 <= i < |s| ==> s[i] in cs
  }

  predicate HasPrefix(s: string, p: string) {
    |p| <= |s| && s[..|p|] == p
  }

  predicate HasSuffix(s: string, p: string) {
    |p| <= |s| && s[|s| - |p|..] == p
  }

  /** `sub` occurs somewhere in `s`. */
  predicate Contains(s: string, sub: string) {
    exists i :: 0 <= i <= |s| - |sub| && HasPrefix(s[i..], sub)
  }

  // ---------------------------------------------------------------------------
  // Trimming

  function TrimStart(s: string, cs: set<char>): string
    decreases |s|
  {
    if |s| > 0 && s[0] in cs then TrimStart(s[1..], cs) else s
  }

  function TrimEnd(s: string, cs: set<char>): string
    decreases |s|
  {
    if |s| > 0 && s[|s| - 1] in cs then TrimEnd(s[..|s| - 1], cs) else s
  }

  /** Swift's `trimmingCharacters(in:)`: drop the characters of `cs` from
      both ends. */
  function Trim(s: string, cs: set<char>): string {
    TrimEnd(TrimStart(s, cs), cs)
  }

  lemma {:induction false} TrimStartShape(s: string, cs: set<char>)
    ensures var r := TrimStart(s, cs);
      |r| <= |s| && r == s[|s| - |r|..] && (|r| > 0 ==> r[0] !in cs) && AllIn(s[..|s| - |r|], cs)
    decreases |s|
  {
    if |s| > 0 && s[0] in cs {
      TrimStartShape(s[1..], cs);
    }
  }

  lemma {:induction false} TrimEndShape(s: string, cs: set<char>)
    ensures var r := TrimEnd(s, cs);
      |r| <= |s| && r == s[..|r|] && (|r| > 0 ==> r[|r| - 1] !in cs) && AllIn(s[|r|..], cs)
    decreases |s|
  {
    if |s| > 0 && s[|s| - 1] in cs {
      TrimEndShape(s[..|s| - 1], cs);
    }
  }

  /** The trimmed string is an infix of `s`, everything around it is trimmed
      characters, and its own ends are not. */
  lemma TrimShape(s: string, cs: set<char>)
    ensures var r := Trim(s, cs);
      (|r| > 0 ==> r[0] !in cs && r[|r| - 1] !in cs)
      && exists k :: (0 <= k <= |s| - |r| && r == s[k..k + |r|]
                      && AllIn(s[..k], cs) && AllIn(s[k + |r|..], cs))
  {
    var a := TrimStart(s, cs);
    TrimStartShape(s, cs);
    TrimEndShape(a, cs);
    var r := TrimEnd(a, cs);
    var k := |s| - |a|;
    assert s[k..k + |r|] == r;
    assert s[k + |r|..] == a[|r|..];
  }

  /** Trimming a string that already neither starts nor ends with a trimmed
      character leaves it as it is. */
  lemma TrimKeeps(s: string, cs: set<char>)
    requires |s| > 0 ==> s[0] !in cs && s[|s| - 1] !in cs
    ensures Trim(s, cs) == s
  {
  }

  /** Trimming yields the empty string exactly when every character is trimmed. */
  lemma TrimEmptyIff(s: string, cs: set<char>)
    ensures Trim(s, cs) == "" <==> AllIn(s, cs)
  {
    var a := TrimStart(s, cs);
    TrimStartShape(s, cs);
    TrimEndShape(a, cs);
    var k := |s| - |a|;
    if a == "" {
      assert s[..k] == s;
    } else {
      assert a[0] == s[k] && a[0] !in cs;
      TrimEndKeepsFirst(a, cs);
    }
  }

  /** A string whose first character is kept is never trimmed to nothing
      from the end. */
  lemma {:induction false} TrimEndKeepsFirst(a: string, cs: set<char>)
    requires |a| > 0 && a[0] !in cs
    ensures |TrimEnd(a, cs)| > 0
    decreases |a|
  {
    if a[|a| - 1] in cs {
      TrimEndKeepsFirst(a[..|a| - 1], cs);
    }
  }

  /** Trimming only removes characters: it brings in none. */
  lemma TrimNoneIn(s: string, cs: set<char>, ds: set<char>)
    requires NoneIn(s, ds)
    ensures NoneIn(Trim(s, cs), ds)
    ensures var r := Trim(s, cs); |r| > 0 ==> r[0] !in cs && r[|r| - 1] !in cs
  {
    TrimShape(s, cs);
    var r := Trim(s, cs);
    var k :| 0 <= k <= |s| - |r| && r == s[k..k + |r|] && AllIn(s[..k], cs) && AllIn(s[k + |r|..], cs);
    assert forall i :: 0 <= i < |r| ==> r[i] == s[k + i];
  }

  /** A blank string: nothing left once whitespace and newlines are trimmed. */
  predicate IsBlank(s: string) {
    Trim(s, WhitespaceAndNewlines) == ""
  }

  // ---------------------------------------------------------------------------
  // Joining and splitting

  /** `parts.joined(separator: sep)`. */
  function Join(parts: seq<string>, sep: string): string
    decreases |parts|
  {
    if |parts| == 0 then ""
    else if |parts| == 1 then parts[0]
    else parts[0] + sep + Join(parts[1..], sep)
  }

  /** `components(separatedBy:)` with a character set: every occurrence of a
      separator character ends a component, so there is always one more
      component than separators. */
  function SplitAny(s: string, seps: set<char>): (parts: seq<string>)
    ensures |parts| >= 1
    ensures forall i :: 0 <= i < |parts| ==> NoneIn(parts[i], seps)
    decreases |s|
  {
    if |s| == 0 then [""]
    else if s[0] in seps then [""] + SplitAny(s[1..], seps)
    else
      var rest := SplitAny(s[1..], seps);
      [[s[0]] + rest[0]] + rest[1..]
  }

  lemma {:induction false} SplitAnyNone(s: string, seps: set<char>)
    requires NoneIn(s, seps)
    ensures SplitAny(s, seps) == [s]
    decreases |s|
  {
    if |s| > 0 {
      SplitAnyNone(s[1..], seps);
      assert [s[0]] + s[1..] == s;
    }
  }

  lemma {:induction false} SplitAnyHead(p: string, c: char, rest: string, seps: set<char>)
    requires NoneIn(p, seps) && c in seps
    ensures SplitAny(p + [c] + rest, seps) == [p] + SplitAny(rest, seps)
    decreases |p|
  {
    var s := p + [c] + rest;
    if |p| == 0 {
      assert s[1..] == rest;
    } else {
      assert s[1..] == p[1..] + [c] + rest;
      SplitAnyHead(p[1..], c, rest, seps);
      assert [p[0]] + p[1..] == p;
    }
  }

  /** Splitting on a separator undoes joining with it, provided no part
      contains a separator character. */
  lemma {:induction false} SplitJoin(parts: seq<string>, c: char, seps: set<char>)
    requires |parts| >= 1 && c in seps
    requires forall i :: 0 <= i < |parts| ==> NoneIn(parts[i], seps)
    ensures SplitAny(Join(parts, [c]), seps) == parts
    decreases |parts|
  {
    if |parts| == 1 {
      SplitAnyNone(parts[0], seps);
    } else {
      SplitJoin(parts[1..], c, seps);
      SplitAnyHead(parts[0], c, Join(parts[1..], [c]), seps);
      assert [parts[0]] + parts[1..] == parts;
    }
  }

  /** Joining the components with the separator gives back the string. */
  lemma {:induction false} JoinSplit(s: string, c: char)
    ensures Join(SplitAny(s, {c}), [c]) == s
    decreases |s|
  {
    if |s| > 0 {
      var rest := SplitAny(s[1..], {c});
      JoinSplit(s[1..], c);
      if s[0] == c {
        assert Join([""] + rest, [c]) == "" + [c] + Join(rest, [c]);
        assert s == [c] + s[1..];
      } else {
        if |rest| == 1 {
          assert s == [s[0]] + rest[0];
        } else {
          assert ([[s[0]] + rest[0]] + rest[1..])[1..] == rest[1..];
          assert Join(rest, [c]) == rest[0] + [c] + Join(rest[1..], [c]);
          assert s == [s[0]] + s[1..];
        }
      }
    }
  }

  /** `split(separator:maxSplits:omittingEmptySubsequences: false)`: like
      `SplitAny` on one character, but at most `maxSplits` separators split and
      the rest stay in the last part. */
  function SplitMax(s: string, c: char, maxSplits: nat): (parts: seq<string>)
    ensures 1 <= |parts| <= maxSplits + 1
    ensures forall i :: 0 <= i < |parts| - 1 ==> c !in parts[i]
    decreases |s|
  {
    if |s| == 0 then [""]
    else if maxSplits > 0 && s[0] == c then [""] + SplitMax(s[1..], c, maxSplits - 1)
    else
      var rest := SplitMax(s[1..], c, maxSplits);
      [[s[0]] + rest[0]] + rest[1..]
  }

  lemma {:induction false} SplitMaxNone(s: string, c: char, n: nat)
    requires c !in s
    ensures SplitMax(s, c, n) == [s]
    decreases |s|
  {
    if |s| > 0 {
      SplitMaxNone(s[1..], c, n);
      assert [s[0]] + s[1..] == s;
    }
  }

  lemma {:induction false} SplitMaxHead(p: string, c: char, rest: string, n: nat)
    requires c !in p && n > 0
    ensures SplitMax(p + [c] + rest, c, n) == [p] + SplitMax(rest, c, n - 1)
    decreases |p|
  {
    var s := p + [c] + rest;
    if |p| == 0 {
      assert s[1..] == rest;
    } else {
      assert s[1..] == p[1..] + [c] + rest;
      SplitMaxHead(p[1..], c, rest, n);
      assert [p[0]] + p[1..] == p;
    }
  }

  /** The components that are not empty (Swift's default `split`). */
  function NonEmpty(parts: seq<string>): (r: seq<string>)
    ensures |r| <= |parts|
    ensures forall i :: 0 <= i < |r| ==> r[i] != "" && r[i] in parts
    ensures forall i :: 0 <= i < |parts| && parts[i] != "" ==> parts[i] in r
    decreases |parts|
  {
    if |parts| == 0 then []
    else if parts[0] == "" then NonEmpty(parts[1..])
    else [parts[0]] + NonEmpty(parts[1..])
  }

  lemma {:induction false} NonEmptyKeeps(parts: seq<string>)
    requires forall i :: 0 <= i < |parts| ==> parts[i] != ""
    ensures NonEmpty(parts) == parts
    decreases |parts|
  {
    if |parts| > 0 {
      NonEmptyKeeps(parts[1..]);
      assert [parts[0]] + parts[1..] == parts;
    }
  }

  /** `s` has `sep` at its very start. */
  predicate StartsWith(s: string, sep: string) {
    |sep| <= |s| && s[..|sep|] == sep
  }

  /** `components(separatedBy:)` with a string separator: occurrences are
      found from the left and do not overlap. */
  function SplitOn(s: string, sep: string): (parts: seq<string>)
    requires |sep| > 0
    ensures |parts| >= 1
    decreases |s|
  {
    if |s| == 0 then [""]
    else if StartsWith(s, sep) then [""] + SplitOn(s[|sep|..], sep)
    else
      var rest := SplitOn(s[1..], sep);
      [[s[0]] + rest[0]] + rest[1..]
  }

  /** No occurrence of `sep` starts inside `x` when `sep` follows it. */
  predicate SepOnlyAfter(x: string, sep: string) {
    forall i :: 0 <= i < |x| ==> !StartsWith(x[i..] + sep, sep)
  }

  /** No occurrence of `sep` anywhere in `x`. */
  predicate SepFree(x: string, sep: string) {
    forall i :: 0 <= i < |x| ==> !StartsWith(x[i..], sep)
  }

  lemma {:induction false} SplitOnHead(x: string, sep: string, rest: string)
    requires |sep| > 0 && SepOnlyAfter(x, sep)
    ensures SplitOn(x + sep + rest, sep) == [x] + SplitOn(rest, sep)
    decreases |x|
  {
    var s := x + sep + rest;
    if |x| == 0 {
      assert s == sep + rest;
      assert s[..|sep|] == sep;
      assert s[|sep|..] == rest;
    } else {
      assert !StartsWith(x[0..] + sep, sep);
      assert x[0..] == x;
      assert s[..|sep|] == (x + sep)[..|sep|];
      assert !StartsWith(s, sep);
      assert s[1..] == x[1..] + sep + rest;
      forall i | 0 <= i < |x[1..]| ensures !StartsWith(x[1..][i..] + sep, sep) {
        assert x[1..][i..] == x[i + 1..];
      }
      SplitOnHead(x[1..], sep, rest);
      assert [x[0]] + x[1..] == x;
    }
  }

  lemma {:induction false} SplitOnNone(x: string, sep: string)
    requires |sep| > 0 && SepFree(x, sep)
    ensures SplitOn(x, sep) == [x]
    decreases |x|
  {
    if |x| > 0 {
      assert x[0..] == x;
      forall i | 0 <= i < |x[1..]| ensures !StartsWith(x[1..][i..], sep) {
        assert x[1..][i..] == x[i + 1..];
      }
      SplitOnNone(x[1..], sep);
      assert [x[0]] + x[1..] == x;
    }
  }

  /** A string none of whose characters is the first character of `sep`
      contains no occurrence of `sep`, even with `sep` appended. */
  lemma AvoidsFirstChar(x: string, sep: string)
    requires |sep| > 0 && sep[0] !in x
    ensures SepFree(x, sep) && SepOnlyAfter(x, sep)
  {
    forall i | 0 <= i < |x| ensures !StartsWith(x[i..] + sep, sep) && !StartsWith(x[i..], sep) {
      assert (x[i..] + sep)[0] == x[i];
      if |sep| <= |x[i..]| { assert x[i..][..|sep|][0] == x[i]; }
    }
  }

  /** Joining brings in no character that neither the parts nor the
      separator has. */
  lemma {:induction false} JoinNoneIn(parts: seq<string>, sep: string, cs: set<char>)
    requires NoneIn(sep, cs) && forall i :: 0 <= i < |parts| ==> NoneIn(parts[i], cs)
    ensures NoneIn(Join(parts, sep), cs)
    decreases |parts|
  {
    if |parts| > 1 {
      assert forall i :: 0 <= i < |parts| - 1 ==> parts[1..][i] == parts[i + 1];
      JoinNoneIn(parts[1..], sep, cs);
      var j := Join(parts[1..], sep);
      assert Join(parts, sep) == parts[0] + sep + j;
    }
  }

  /** The last part of a join comes after the last separator. */
  lemma {:induction false} JoinSnoc(parts: seq<string>, sep: string)
    requires |parts| >= 2
    ensures Join(parts, sep) == Join(parts[..|parts| - 1], sep) + sep + parts[|parts| - 1]
    decreases |parts|
  {
    if |parts| > 2 {
      JoinSnoc(parts[1..], sep);
      assert parts[1..][..|parts| - 2] == parts[..|parts| - 1][1..];
    } else {
      assert parts[..1] == [parts[0]];
    }
  }

  /** Lines joined with a line break and followed by one split back into
      those lines, then the lines of what follows. */
  lemma {:induction false} SplitAfterJoin(parts: seq<string>, c: char, rest: string, seps: set<char>)
    requires |parts| >= 1 && c in seps
    requires forall i :: 0 <= i < |parts| ==> NoneIn(parts[i], seps)
    ensures SplitAny(Join(parts, [c]) + [c] + rest, seps) == parts + SplitAny(rest, seps)
    decreases |parts|
  {
    if |parts| == 1 {
      SplitAnyHead(parts[0], c, rest, seps);
    } else {
      var p0, ps := parts[0], parts[1..];
      var j := Join(ps, [c]);
      assert Join(parts, [c]) == p0 + [c] + j;
      assert Join(parts, [c]) + [c] + rest == p0 + [c] + (j + [c] + rest);
      forall i | 0 <= i < |ps| ensures NoneIn(ps[i], seps) {
        assert ps[i] == parts[i + 1];
      }
      SplitAfterJoin(ps, c, rest, seps);
      SplitAfterStep(p0, j, c, rest, seps, ps);
      assert parts == [p0] + ps;
    }
  }

  /** One more line in front of lines that already split back. */
  lemma SplitAfterStep(p0: string, j: string, c: char, rest: string, seps: set<char>, ps: seq<string>)
    requires NoneIn(p0, seps) && c in seps
    requires SplitAny(j + [c] + rest, seps) == ps + SplitAny(rest, seps)
    ensures SplitAny(p0 + [c] + (j + [c] + rest), seps) == [p0] + ps + SplitAny(rest, seps)
  {
    SplitAnyHead(p0, c, j + [c] + rest, seps);
  }

  /** No split allowed: the string stays whole. */
  lemma {:induction false} SplitMaxZero(s: string, c: char)
    ensures SplitMax(s, c, 0) == [s]
    decreases |s|
  {
    if |s| > 0 {
      SplitMaxZero(s[1..], c);
      assert [s[0]] + s[1..] == s;
    }
  }

  /** Splitting at most as often as there are separators undoes joining,
      provided no part but the last holds the separator. */
  lemma {:induction false} SplitMaxJoin(parts: seq<string>, c: char)
    requires |parts| >= 1
    requires forall i :: 0 <= i < |parts| - 1 ==> c !in parts[i]
    ensures SplitMax(Join(parts, [c]), c, |parts| - 1) == parts
    decreases |parts|
  {
    if |parts| == 1 {
      SplitMaxZero(parts[0], c);
    } else {
      var p0, ps := parts[0], parts[1..];
      var j := Join(ps, [c]);
      assert Join(parts, [c]) == p0 + [c] + j;
      forall i | 0 <= i < |ps| - 1 ensures c !in ps[i] {
        assert ps[i] == parts[i + 1];
      }
      SplitMaxJoin(ps, c);
      SplitMaxHead(p0, c, j, |parts| - 1);
      assert parts == [p0] + ps;
    }
  }

  // ---------------------------------------------------------------------------
  // Replacing

  /** `replacingOccurrences(of:with:)`: left to right, non-overlapping. */
  function ReplaceAll(s: string, from: string, to: string): string
    requires |from| > 0
    decreases |s|
  {
    if |s| == 0 then ""
    else if StartsWith(s, from) then to + ReplaceAll(s[|from|..], from, to)
    else [s[0]] + ReplaceAll(s[1..], from, to)
  }

  /** Replacing is splitting on the pattern and joining with the replacement. */
  lemma {:induction false} ReplaceIsSplitJoin(s: string, from: string, to: string)
    requires |from| > 0
    ensures ReplaceAll(s, from, to) == Join(SplitOn(s, from), to)
    decreases |s|
  {
    if |s| > 0 {
      if StartsWith(s, from) {
        ReplaceIsSplitJoin(s[|from|..], from, to);
        var rest := SplitOn(s[|from|..], from);
        assert SplitOn(s, from) == [""] + rest;
        assert Join([""] + rest, to) == "" + to + Join(rest, to);
      } else {
        ReplaceIsSplitJoin(s[1..], from, to);
        var rest := SplitOn(s[1..], from);
        var parts := [[s[0]] + rest[0]] + rest[1..];
        assert SplitOn(s, from) == parts;
        if |rest| == 1 {
          assert Join(parts, to) == [s[0]] + rest[0];
        } else {
          assert parts[1..] == rest[1..];
          assert Join(rest, to) == rest[0] + to + Join(rest[1..], to);
        }
      }
    }
  }

  /** Nothing to replace: the string is unchanged. */
  lemma {:induction false} ReplaceAbsent(s: string, from: string, to: string)
    requires |from| > 0 && SepFree(s, from)
    ensures ReplaceAll(s, from, to) == s
    decreases |s|
  {
    if |s| > 0 {
      assert s[0..] == s;
      forall i | 0 <= i < |s[1..]| ensures !StartsWith(s[1..][i..], from) {
        assert s[1..][i..] == s[i + 1..];
      }
      ReplaceAbsent(s[1..], from, to);
      assert [s[0]] + s[1..] == s;
    }
  }

  /** Replacing brings in no character that neither the text nor the
      replacement has. */
  lemma {:induction false} ReplaceNoneIn(s: string, from: string, to: string, cs: set<char>)
    requires |from| > 0 && NoneIn(s, cs) && NoneIn(to, cs)
    ensures NoneIn(ReplaceAll(s, from, to), cs)
    decreases |s|
  {
    if |s| > 0 {
      if StartsWith(s, from) {
        forall i | 0 <= i < |s[|from|..]| ensures s[|from|..][i] !in cs {
          assert s[|from|..][i] == s[|from| + i];
        }
        ReplaceNoneIn(s[|from|..], from, to, cs);
      } else {
        forall i | 0 <= i < |s[1..]| ensures s[1..][i] !in cs {
          assert s[1..][i] == s[i + 1];
        }
        ReplaceNoneIn(s[1..], from, to, cs);
      }
    }
  }

  /** Replacing every occurrence of a character by text without it leaves
      none. */
  lemma {:induction false} ReplaceCharGone(s: string, c: char, to: string)
    requires c !in to
    ensures NoneIn(ReplaceAll(s, [c], to), {c})
    decreases |s|
  {
    if |s| > 0 {
      ReplaceCharGone(s[1..], c, to);
      if !StartsWith(s, [c]) {
        assert s[..1][0] == s[0];
      }
    }
  }

  // ---------------------------------------------------------------------------
  // Case mapping (ASCII letters only)

  function LowerChar(c: char): char {
    if 'A' <= c <= 'Z' then (c as int - 'A' as int + 'a' as int) as char else c
  }

  function UpperChar(c: char): char {
    if 'a' <= c <= 'z' then (c as int - 'a' as int + 'A' as int) as char else c
  }

  function Lower(s: string): (r: string)
    ensures |r| == |s| && forall i :: 0 <= i < |s| ==> r[i] == LowerChar(s[i])
  {
    seq(|s|, i requires 0 <= i < |s| => LowerChar(s[i]))
  }

  function Upper(s: string): (r: string)
    ensures |r| == |s| && forall i :: 0 <= i < |s| ==> r[i] == UpperChar(s[i])
  {
    seq(|s|, i requires 0 <= i < |s| => UpperChar(s[i]))
  }

  // ---------------------------------------------------------------------------
  // Integers

  predicate IsDigit(c: char) {
    '0' <= c <= '9'
  }

  predicate AllDigits(s: string) {
    forall i :: 0 <= i < |s| ==> IsDigit(s[i])
  }

  function DigitValue(c: char): nat
    requires IsDigit(c)
  {
    c as int - '0' as int
  }

  function DigitChar(d: nat): (c: char)
    requires d < 10
    ensures IsDigit(c) && DigitValue(c) == d
  {
    ('0' as int + d) as char
  }

  /** The value of a decimal digit string (leading zeros allowed). */
  function DigitsValue(s: string): nat
    requires AllDigits(s)
    decreases |s|
  {
    if |s| == 0 then 0 else DigitsValue(s[..|s| - 1]) * 10 + DigitValue(s[|s| - 1])
  }

  /** Swift's `Int(String)`: an optional `+` or `-` followed by at least one
      decimal digit, nothing else. The 64-bit range limit is not modelled. */
  function ParseInt(s: string): Option<int> {
    if |s| > 0 && (s[0] == '+' || s[0] == '-') then
      if |s| > 1 && AllDigits(s[1..]) then
        var v: int := if s[0] == '-' then -(DigitsValue(s[1..]) as int) else DigitsValue(s[1..]);
        Some(v)
      else None
    else if |s| > 0 && AllDigits(s) then Some(DigitsValue(s))
    else None
  }

  /** Decimal digits of `n`, no leading zero. */
  function NatToString(n: nat): (s: string)
    ensures |s| >= 1 && AllDigits(s)
    decreases n
  {
    if n < 10 then [DigitChar(n)] else NatToString(n / 10) + [DigitChar(n % 10)]
  }

  function Zeros(k: nat): (s: string)
    ensures |s| == k && AllDigits(s) && forall i :: 0 <= i < k ==> s[i] == '0'
  {
    seq(k, i => '0')
  }

  /** `String(format: "%0wd", n)` for `n >= 0`: the digits of `n`, padded on
      the left with zeros to at least `width` characters. */
  function ZeroPad(n: nat, width: nat): (s: string)
    ensures AllDigits(s)
  {
    var d := NatToString(n);
    if |d| >= width then d else Zeros(width - |d|) + d
  }

  /** `String(format: "%0wd", i)` for any integer: a minus sign counts
      towards the width. */
  function FormatInt(i: int, width: nat): string {
    if i >= 0 then ZeroPad(i, width)
    else "-" + ZeroPad(-i, if width > 0 then width - 1 else 0)
  }

  /** `String(i)` / `"\(i)"`. */
  function IntToString(i: int): string {
    FormatInt(i, 0)
  }

  lemma {:induction false} NatToStringValue(n: nat)
    ensures DigitsValue(NatToString(n)) == n
    decreases n
  {
    if n >= 10 {
      NatToStringValue(n / 10);
      var s := NatToString(n);
      assert s[..|s| - 1] == NatToString(n / 10);
    }
  }

  lemma {:induction false} LeadingZerosValue(k: nat, s: string)
    requires AllDigits(s)
    ensures AllDigits(Zeros(k) + s) && DigitsValue(Zeros(k) + s) == DigitsValue(s)
    decreases |s|
  {
    var z := Zeros(k) + s;
    if |s| == 0 {
      ZerosValue(k);
      assert z == Zeros(k);
    } else {
      assert z[..|z| - 1] == Zeros(k) + s[..|s| - 1];
      LeadingZerosValue(k, s[..|s| - 1]);
    }
  }

  lemma {:induction false} ZerosValue(k: nat)
    ensures DigitsValue(Zeros(k)) == 0
    decreases k
  {
    if k > 0 {
      assert Zeros(k)[..k - 1] == Zeros(k - 1);
      ZerosValue(k - 1);
    }
  }

  /** Zero-padded digits read back as the number they encode. */
  lemma ZeroPadValue(n: nat, width: nat)
    ensures DigitsValue(ZeroPad(n, width)) == n
    ensures ParseInt(ZeroPad(n, width)) == Some(n)
  {
    var d := NatToString(n);
    NatToStringValue(n);
    if |d| < width {
      LeadingZerosValue(width - |d|, d);
    }
  }

  /** Integer formatting and `Int(String)` are inverse. */
  lemma ParseFormatInt(i: int, width: nat)
    ensures ParseInt(FormatInt(i, width)) == Some(i)
  {
    if i >= 0 {
      ZeroPadValue(i, width);
    } else {
      var w := if width > 0 then width - 1 else 0;
      ZeroPadValue(-i, w);
      ZeroPadLength(-i, w);
      ParseNegative(ZeroPad(-i, w));
    }
  }

  /** A minus sign before decimal digits reads as their negated value. */
  lemma ParseNegative(z: string)
    requires |z| > 0 && AllDigits(z)
    ensures ParseInt("-" + z) == Some(-(DigitsValue(z) as int))
  {
    var s := "-" + z;
    assert s[0] == '-' && s[1..] == z;
  }

  /** The padded form is exactly `width` characters long once the number
      fits, and never shorter. */
  lemma ZeroPadLength(n: nat, width: nat)
    ensures |ZeroPad(n, width)| >= width
    ensures |ZeroPad(n, width)| >= 1
    ensures n < 10 && width >= 1 ==> |ZeroPad(n, width)| == width
  {
  }

  /** Dividing by a positive number keeps a strict order and the sign. */
  lemma DivLess(x: real, y: real, n: real)
    requires 0.0 <= x < y && n > 0.0
    ensures 0.0 <= x / n < y / n
  {
    assert y / n - x / n == (y - x) / n;
    assert (y - x) / n > 0.0;
  }
}
