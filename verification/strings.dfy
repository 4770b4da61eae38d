/**
 * The string operations the pipeline relies on, with Python's semantics:
 * `w in s`, `startswith`, `endswith`, `strip`, `lower`, `split` and `join`.
 */
module Strings {

  /** Characters removed by an argument-less `str.strip()` (its ASCII and Latin-1 part). */
  predicate IsSpace(c: char)
  {
    c == ' ' || '\t' <= c <= '\r' || '\U{1C}' <= c <= '\U{1F}' || c == '\U{85}' || c == '\U{A0}'
  }

  predicate IsDigit(c: char) { '0' <= c <= '9' }

  predicate StartsWith(s: string, p: string) { |p| <= |s| && s[..|p|] == p }

  predicate EndsWith(s: string, p: string) { |p| <= |s| && s[|s| - |p|..] == p }

  /** Python's `w in s` on strings: `w` occurs contiguously somewhere in `s`. */
  predicate Contains(s: string, w: string)
    decreases |s|
  {
    StartsWith(s, w) || (|s| > 0 && Contains(s[1..], w))
  }

  /** An occurrence at a known position is enough for `Contains`. */
  lemma {:induction false} ContainsAt(s: string, w: string, i: nat)
    requires i + |w| <= |s| && s[i..i + |w|] == w
    ensures Contains(s, w)
  {
    if i > 0 {
      assert s[1..][i - 1..i - 1 + |w|] == s[i..i + |w|];
      ContainsAt(s[1..], w, i - 1);
    }
  }

  /** Only strings containing one of `w`'s characters can contain a non-empty `w`. */
  lemma {:induction false} ContainsHasChar(s: string, w: string)
    requires |w| > 0 && Contains(s, w)
    ensures w[0] in s
  {
    if !StartsWith(s, w) {
      ContainsHasChar(s[1..], w);
    } else {
      assert s[0] == w[0];
    }
  }

  /** Python's `str.lower()` on one character: ASCII and Latin-1 capitals. */
  function LowerChar(c: char): char
  {
    if 'A' <= c <= 'Z' || ('\U{C0}' <= c <= '\U{DE}' && c != '\U{D7}') then (c as int + 32) as char else c
  }

  function Lower(s: string): (r: string)
    ensures |r| == |s|
    ensures forall i :: 0 <= i < |s| ==> r[i] == LowerChar(s[i])
  {
    seq(|s|, i requires 0 <= i < |s| => LowerChar(s[i]))
  }

  /** A string without capitals is its own lower-case form. */
  lemma {:induction false} LowerUnchanged(s: string)
    requires forall i :: 0 <= i < |s| ==> LowerChar(s[i]) == s[i]
    ensures Lower(s) == s
  {
  }

  /** Drops leading characters satisfying `drop`, like `str.lstrip`. */
  function StripLeft(s: string, drop: char -> bool): (r: string)
    ensures |r| <= |s| && r == s[|s| - |r|..]
    ensures |r| > 0 ==> !drop(r[0])
    decreases |s|
  {
    if |s| > 0 && drop(s[0]) then StripLeft(s[1..], drop) else s
  }

  /** Drops trailing characters satisfying `drop`, like `str.rstrip`. */
  function StripRight(s: string, drop: char -> bool): (r: string)
    ensures |r| <= |s| && r == s[..|r|]
    ensures |r| > 0 ==> !drop(r[|r| - 1])
    decreases |s|
  {
    if |s| > 0 && drop(s[|s| - 1]) then StripRight(s[..|s| - 1], drop) else s
  }

  /** `str.strip`: the longest middle part with no dropped character at either end. */
  function Strip(s: string, drop: char -> bool): (r: string)
    ensures |r| <= |s|
    ensures |r| > 0 ==> !drop(r[0]) && !drop(r[|r| - 1])
    ensures forall i :: 0 <= i < |r| ==> r[i] in s
  {
    var l := StripLeft(s, drop);
    var r := StripRight(l, drop);
    assert |r| > 0 ==> r[0] == l[0];
    forall i | 0 <= i < |r|
      ensures r[i] in s
    {
      assert r[i] == l[i] == s[|s| - |l| + i];
    }
    r
  }

  /** `str.strip()` without arguments. */
  function Trim(s: string): (r: string)
    ensures |r| <= |s|
    ensures |r| > 0 ==> !IsSpace(r[0]) && !IsSpace(r[|r| - 1])
    ensures forall i :: 0 <= i < |r| ==> r[i] in s
  {
    Strip(s, IsSpace)
  }

  /** Stripping a string whose ends are already clean changes nothing. */
  lemma {:induction false} StripUnchanged(s: string, drop: char -> bool)
    requires |s| > 0 ==> !drop(s[0]) && !drop(s[|s| - 1])
    ensures Strip(s, drop) == s
  {
  }

  /** Trimming twice is trimming once. */
  lemma {:induction false} TrimIdempotent(s: string)
    ensures Trim(Trim(s)) == Trim(s)
  {
    StripUnchanged(Trim(s), IsSpace);
  }

  /** The characters of `s` satisfying `keep`, in order. */
  function KeepOnly(s: string, keep: char -> bool): (r: string)
    ensures |r| <= |s|
    ensures forall i :: 0 <= i < |r| ==> keep(r[i])
    ensures (forall i :: 0 <= i < |s| ==> keep(s[i])) ==> r == s
    ensures forall i :: 0 <= i < |r| ==> r[i] in s
  {
    if |s| == 0 then [] else (if keep(s[0]) then [s[0]] else []) + KeepOnly(s[1..], keep)
  }

  /** Dropping leading characters that `keep` rejects does not change what `keep` selects. */
  lemma {:induction false} KeepOnlyStripLeft(s: string, drop: char -> bool, keep: char -> bool)
    requires forall i :: 0 <= i < |s| && drop(s[i]) ==> !keep(s[i])
    ensures KeepOnly(StripLeft(s, drop), keep) == KeepOnly(s, keep)
    decreases |s|
  {
    if |s| > 0 && drop(s[0]) {
      KeepOnlyStripLeft(s[1..], drop, keep);
    }
  }

  /** Dropping trailing characters that `keep` rejects does not change what `keep` selects. */
  lemma {:induction false} KeepOnlyStripRight(s: string, drop: char -> bool, keep: char -> bool)
    requires forall i :: 0 <= i < |s| && drop(s[i]) ==> !keep(s[i])
    ensures KeepOnly(StripRight(s, drop), keep) == KeepOnly(s, keep)
    decreases |s|
  {
    if |s| > 0 && drop(s[|s| - 1]) {
      var p := s[..|s| - 1];
      KeepOnlyStripRight(p, drop, keep);
      assert s == p + [s[|s| - 1]];
      KeepOnlyConcat(p, [s[|s| - 1]], keep);
      assert KeepOnly([s[|s| - 1]], keep) == [];
    }
  }

  /** Trimming removes only spaces, so it does not change a selection that rejects every space. */
  lemma {:induction false} KeepOnlyTrim(s: string, keep: char -> bool)
    requires forall i :: 0 <= i < |s| && IsSpace(s[i]) ==> !keep(s[i])
    ensures KeepOnly(Trim(s), keep) == KeepOnly(s, keep)
  {
    var l := StripLeft(s, IsSpace);
    KeepOnlyStripLeft(s, IsSpace, keep);
    forall i | 0 <= i < |l| && IsSpace(l[i])
      ensures !keep(l[i])
    {
      assert l[i] == s[|s| - |l| + i];
    }
    KeepOnlyStripRight(l, IsSpace, keep);
    assert Trim(s) == StripRight(l, IsSpace);
  }

  /** A character `keep` accepts occurs in the selection exactly when it occurs in the string. */
  lemma {:induction false} KeepOnlyMember(s: string, keep: char -> bool, c: char)
    requires keep(c)
    ensures c in KeepOnly(s, keep) <==> c in s
  {
    if |s| > 0 {
      KeepOnlyMember(s[1..], keep, c);
      assert s == [s[0]] + s[1..];
    }
  }

  /** Trimming keeps every character that is not a space. */
  lemma {:induction false} TrimKeepsChar(s: string, c: char)
    requires !IsSpace(c)
    ensures c in Trim(s) <==> c in s
  {
    var isC := (x: char) => x == c;
    KeepOnlyTrim(s, isC);
    KeepOnlyMember(Trim(s), isC, c);
    KeepOnlyMember(s, isC, c);
  }

  /** Selecting with `p` and then with a narrower `q` is selecting with `q`. */
  lemma {:induction false} KeepOnlyNarrower(s: string, p: char -> bool, q: char -> bool)
    requires forall i :: 0 <= i < |s| && q(s[i]) ==> p(s[i])
    ensures KeepOnly(KeepOnly(s, p), q) == KeepOnly(s, q)
  {
    if |s| > 0 {
      var head := if p(s[0]) then [s[0]] else [];
      KeepOnlyNarrower(s[1..], p, q);
      KeepOnlyConcat(head, KeepOnly(s[1..], p), q);
      assert KeepOnly(head, q) == (if q(s[0]) then [s[0]] else []);
    }
  }

  /** Filtering a concatenation filters each part. */
  lemma {:induction false} KeepOnlyConcat(a: string, b: string, keep: char -> bool)
    ensures KeepOnly(a + b, keep) == KeepOnly(a, keep) + KeepOnly(b, keep)
  {
    if |a| > 0 {
      assert (a + b)[1..] == a[1..] + b;
      KeepOnlyConcat(a[1..], b, keep);
    } else {
      assert a + b == b;
    }
  }

  /** Python's `s.split(sep)` for a one-character separator. */
  function Split(s: string, sep: char): (parts: seq<string>)
    ensures |parts| >= 1
    ensures forall i :: 0 <= i < |parts| ==> sep !in parts[i]
    decreases |s|
  {
    if |s| == 0 then [""]
    else
      var rest := Split(s[1..], sep);
      if s[0] == sep then [""] + rest else [[s[0]] + rest[0]] + rest[1..]
  }

  /** Python's `sep.join(parts)`. */
  function Join(parts: seq<string>, sep: string): string
  {
    if |parts| == 0 then ""
    else if |parts| == 1 then parts[0]
    else parts[0] + sep + Join(parts[1..], sep)
  }

  /** Joining the pieces of a split with the separator gives back the string. */
  lemma {:induction false} JoinSplit(s: string, sep: char)
    ensures Join(Split(s, sep), [sep]) == s
  {
    if |s| > 0 {
      var rest := Split(s[1..], sep);
      JoinSplit(s[1..], sep);
      if s[0] == sep {
        assert Split(s, sep) == [""] + rest;
        assert ([""] + rest)[1..] == rest;
      } else {
        var parts := Split(s, sep);
        assert parts == [[s[0]] + rest[0]] + rest[1..];
        if |rest| == 1 {
          assert parts == [[s[0]] + rest[0]];
        } else {
          assert parts[1..] == rest[1..];
          assert Join(rest, [sep]) == rest[0] + [sep] + Join(rest[1..], [sep]);
        }
      }
    }
  }

  /** A string holding the separator splits into at least two pieces. */
  lemma {:induction false} SplitAtSeparator(s: string, sep: char)
    requires sep in s
    ensures |Split(s, sep)| >= 2
  {
    if s[0] != sep {
      SplitAtSeparator(s[1..], sep);
    }
  }

  /** The first two pieces of a split, glued by the separator, begin the string. */
  lemma {:induction false} SplitPrefix(s: string, sep: char)
    requires |Split(s, sep)| >= 2
    ensures StartsWith(s, Split(s, sep)[0] + [sep] + Split(s, sep)[1])
  {
    var parts := Split(s, sep);
    JoinSplit(s, sep);
    var p := parts[0] + [sep] + parts[1];
    if |parts| == 2 {
      assert s == p;
    } else {
      assert Join(parts[1..], [sep]) == parts[1] + [sep] + Join(parts[2..], [sep]);
      assert s == p + [sep] + Join(parts[2..], [sep]);
    }
    assert s[..|p|] == p;
  }

  /** Without a separator there is a single part, the whole string. */
  lemma {:induction false} SplitNoSeparator(s: string, sep: char)
    requires sep !in s
    ensures Split(s, sep) == [s]
  {
    if |s| > 0 {
      SplitNoSeparator(s[1..], sep);
      assert [s[0]] + s[1..] == s;
    }
  }

  /** A string splits into several parts exactly when it holds the separator. */
  lemma {:induction false} SplitCount(s: string, sep: char)
    ensures |Split(s, sep)| >= 2 <==> sep in s
  {
    if sep in s {
      SplitAtSeparator(s, sep);
    } else {
      SplitNoSeparator(s, sep);
    }
  }

  /** Two separator-free parts joined by one separator split back into those parts. */
  lemma {:induction false} SplitAround(a: string, b: string, sep: char)
    requires sep !in a && sep !in b
    ensures Split(a + [sep] + b, sep) == [a, b]
  {
    var s := a + [sep] + b;
    if |a| == 0 {
      assert s[1..] == b;
      SplitNoSeparator(b, sep);
    } else {
      assert s[1..] == a[1..] + [sep] + b;
      SplitAround(a[1..], b, sep);
      assert [a[0]] + a[1..] == a;
    }
  }

  /** A separator-free piece followed by the separator splits off as the first part. */
  lemma {:induction false} SplitConcat(a: string, b: string, sep: char)
    requires sep !in a
    ensures Split(a + [sep] + b, sep) == [a] + Split(b, sep)
    decreases |a|
  {
    var s := a + [sep] + b;
    if |a| == 0 {
      assert s[1..] == b;
    } else {
      assert s[1..] == a[1..] + [sep] + b;
      SplitConcat(a[1..], b, sep);
      assert [a[0]] + a[1..] == a;
    }
  }

  /** Splitting a join of separator-free parts gives the parts back. */
  lemma {:induction false} SplitJoin(parts: seq<string>, sep: char)
    requires |parts| >= 1
    requires forall k :: 0 <= k < |parts| ==> sep !in parts[k]
    ensures Split(Join(parts, [sep]), sep) == parts
    decreases |parts|
  {
    if |parts| == 1 {
      SplitNoSeparator(parts[0], sep);
    } else {
      SplitJoin(parts[1..], sep);
      SplitConcat(parts[0], Join(parts[1..], [sep]), sep);
      assert [parts[0]] + parts[1..] == parts;
    }
  }

  /** A join begins with its first part. */
  lemma {:induction false} JoinStartsWith(parts: seq<string>, sep: string)
    requires |parts| >= 1
    ensures StartsWith(Join(parts, sep), parts[0])
  {
    var j := Join(parts, sep);
    if |parts| > 1 {
      assert j == parts[0] + (sep + Join(parts[1..], sep));
    }
    assert j[..|parts[0]|] == parts[0];
  }

  /** A join ends with its last part. */
  lemma {:induction false} JoinEndsWith(parts: seq<string>, sep: string)
    requires |parts| >= 1
    ensures EndsWith(Join(parts, sep), parts[|parts| - 1])
    decreases |parts|
  {
    var j := Join(parts, sep);
    if |parts| > 1 {
      JoinEndsWith(parts[1..], sep);
      var rest := Join(parts[1..], sep);
      assert j == (parts[0] + sep) + rest;
      assert parts[1..][|parts| - 2] == parts[|parts| - 1];
      assert j[|j| - |rest|..] == rest;
    }
  }

  /** Where `Contains` finds `w`: a position at which `w` occurs. */
  lemma {:induction false} ContainsPosition(s: string, w: string) returns (i: nat)
    requires Contains(s, w)
    ensures i + |w| <= |s| && s[i..i + |w|] == w
    decreases |s|
  {
    if StartsWith(s, w) {
      i := 0;
    } else {
      var j := ContainsPosition(s[1..], w);
      i := j + 1;
      assert s[i..i + |w|] == s[1..][j..j + |w|];
    }
  }

  /** A substring of a middle piece is a substring of the whole. */
  lemma {:induction false} ContainsIn(a: string, s: string, b: string, w: string)
    requires Contains(s, w)
    ensures Contains(a + s + b, w)
  {
    var i := ContainsPosition(s, w);
    assert (a + s + b)[|a| + i..|a| + i + |w|] == s[i..i + |w|];
    ContainsAt(a + s + b, w, |a| + i);
  }

  /** A substring of a substring is a substring. */
  lemma {:induction false} ContainsTransitive(s: string, m: string, w: string)
    requires Contains(s, m) && Contains(m, w)
    ensures Contains(s, w)
  {
    var i := ContainsPosition(s, m);
    var j := ContainsPosition(m, w);
    forall t | 0 <= t < |w|
      ensures s[i + j + t] == w[t]
    {
      assert w[t] == m[j..j + |w|][t] == m[j + t];
      assert m[j + t] == s[i..i + |m|][j + t];
    }
    assert s[i + j..i + j + |w|] == w;
    ContainsAt(s, w, i + j);
  }

  /** Lower-casing keeps every substring, lower-cased. */
  lemma {:induction false} LowerContains(s: string, w: string)
    requires Contains(s, w)
    ensures Contains(Lower(s), Lower(w))
  {
    var i := ContainsPosition(s, w);
    assert Lower(s)[i..i + |w|] == Lower(w);
    ContainsAt(Lower(s), Lower(w), i);
  }

  /** Every part occurs in the join. */
  lemma {:induction false} JoinContains(parts: seq<string>, sep: string, k: nat)
    requires k < |parts|
    ensures Contains(Join(parts, sep), parts[k])
    decreases k
  {
    if k == 0 {
      JoinStartsWith(parts, sep);
      ContainsAt(Join(parts, sep), parts[0], 0);
    } else {
      JoinContains(parts[1..], sep, k - 1);
      assert Join(parts, sep) == parts[0] + sep + Join(parts[1..], sep) + "";
      ContainsIn(parts[0] + sep, Join(parts[1..], sep), "", parts[k]);
    }
  }

  /** The decimal digits of `n`, as `str(n)` writes them. */
  function NatToString(n: nat): (r: string)
    ensures |r| >= 1
    ensures forall i :: 0 <= i < |r| ==> IsDigit(r[i])
  {
    var d := [(48 + n % 10) as char];
    if n < 10 then d else NatToString(n / 10) + d
  }
}
