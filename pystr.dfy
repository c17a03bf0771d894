/**
 * The Python string built-ins the tooling relies on, on text already decoded
 * to characters: `str.split(sep)`, `str.strip(c)` with one character,
 * `int(text)` in base 10 and `str(n)` of an integer.
 */
module PyStr {
  import opened Wrappers

  /** `sep` occurs in `s` starting at index `i`. */
  predicate OccursAt(s: string, sep: string, i: int)
  {
    0 <= i && i + |sep| <= |s| && s[i..i + |sep|] == sep
  }

  /** Python's `sep in s`. */
  predicate Contains(s: string, sep: string)
  {
    exists i | 0 <= i <= |s| - |sep| :: OccursAt(s, sep, i)
  }

  /**
   * Python's `s.split(sep)` for a non-empty separator: the text between the
   * occurrences of `sep` found scanning left to right without overlap.
   */
  function Split(s: string, sep: string): (parts: seq<string>)
    requires sep != []
    ensures |parts| >= 1
    ensures parts[0] <= s
    decreases |s|
  {
    if |s| < |sep| then [s]
    else if s[..|sep|] == sep then [[]] + Split(s[|sep|..], sep)
    else
      var rest := Split(s[1..], sep);
      [[s[0]] + rest[0]] + rest[1..]
  }

  /** Python's `sep.join(parts)`. */
  function Join(parts: seq<string>, sep: string): string
    requires |parts| >= 1
  {
    if |parts| == 1 then parts[0] else parts[0] + sep + Join(parts[1..], sep)
  }

  lemma OccursAtShift(s: string, sep: string, m: int, i: int)
    requires 0 <= m <= |s| && 0 <= i
    ensures OccursAt(s[m..], sep, i) <==> OccursAt(s, sep, m + i)
  {
    if m + i + |sep| <= |s| {
      assert s[m..][i..i + |sep|] == s[m + i..m + i + |sep|];
    }
  }

  lemma JoinConsHead(c: char, rest: seq<string>, sep: string)
    requires |rest| >= 1
    ensures Join([[c] + rest[0]] + rest[1..], sep) == [c] + Join(rest, sep)
  {
    var parts := [[c] + rest[0]] + rest[1..];
    if |rest| > 1 {
      assert parts[1..] == rest[1..];
    }
  }

  /** Splitting and joining again gives back the original text. */
  lemma {:induction false} SplitJoin(s: string, sep: string)
    requires sep != []
    ensures Join(Split(s, sep), sep) == s
    decreases |s|
  {
    if |s| < |sep| {
    } else if s[..|sep|] == sep {
      var rest := Split(s[|sep|..], sep);
      SplitJoin(s[|sep|..], sep);
      assert Split(s, sep) == [[]] + rest;
      assert ([[]] + rest)[1..] == rest;
      assert Join([[]] + rest, sep) == sep + Join(rest, sep);
      assert s == s[..|sep|] + s[|sep|..];
    } else {
      var rest := Split(s[1..], sep);
      SplitJoin(s[1..], sep);
      assert Split(s, sep) == [[s[0]] + rest[0]] + rest[1..];
      JoinConsHead(s[0], rest, sep);
      assert s == [s[0]] + s[1..];
    }
  }

  /** No part of a split contains the separator. */
  lemma {:induction false} SplitPartsFree(s: string, sep: string)
    requires sep != []
    ensures forall k :: 0 <= k < |Split(s, sep)| ==> !Contains(Split(s, sep)[k], sep)
    decreases |s|
  {
    var parts := Split(s, sep);
    if |s| < |sep| {
      assert forall i :: !OccursAt(s, sep, i);
    } else if s[..|sep|] == sep {
      SplitPartsFree(s[|sep|..], sep);
      var rest := Split(s[|sep|..], sep);
      assert parts == [[]] + rest;
      assert forall i :: !OccursAt([], sep, i);
    } else {
      SplitPartsFree(s[1..], sep);
      var rest := Split(s[1..], sep);
      var head := [s[0]] + rest[0];
      assert parts == [head] + rest[1..];
      forall i | OccursAt(head, sep, i)
        ensures false
      {
        if i > 0 {
          assert head[i..i + |sep|] == rest[0][i - 1..i - 1 + |sep|];
          assert OccursAt(rest[0], sep, i - 1);
        }
      }
      assert !Contains(head, sep);
      forall k | 0 <= k < |parts|
        ensures !Contains(parts[k], sep)
      {
        if k > 0 {
          assert parts[k] == rest[k];
        }
      }
    }
  }

  /** Text without the separator splits into itself alone. */
  lemma {:induction false} SplitWithoutSeparator(t: string, sep: string)
    requires sep != []
    requires !Contains(t, sep)
    ensures Split(t, sep) == [t]
    decreases |t|
  {
    if |t| >= |sep| {
      assert !OccursAt(t, sep, 0);
      forall i | OccursAt(t[1..], sep, i)
        ensures false
      {
        OccursAtShift(t, sep, 1, i);
      }
      SplitWithoutSeparator(t[1..], sep);
      assert [t[0]] + t[1..] == t;
    }
  }

  /** No occurrence of `sep` starts after index `j` of `s`. */
  ghost predicate NoneAfter(s: string, sep: string, j: int)
  {
    forall i :: j < i ==> !OccursAt(s, sep, i)
  }

  /** No occurrence of `sep` starts in the half-open range [`lo`, `hi`) of `s`. */
  ghost predicate NoneBetween(s: string, sep: string, lo: int, hi: int)
  {
    forall i :: lo <= i < hi ==> !OccursAt(s, sep, i)
  }

  /** Text starting with its only occurrence of `sep` splits into `[]` and the rest. */
  lemma SplitAtFinal(s: string, sep: string, j: int)
    requires sep != []
    requires OccursAt(s, sep, j)
    requires NoneAfter(s, sep, j)
    ensures Split(s[j..], sep) == [[], s[j + |sep|..]]
  {
    var t := s[j..];
    var after := s[j + |sep|..];
    assert t[..|sep|] == s[j..j + |sep|];
    assert t[|sep|..] == after;
    assert !Contains(after, sep) by {
      forall i | 0 <= i <= |after| - |sep|
        ensures !OccursAt(after, sep, i)
      {
        OccursAtShift(s, sep, j + |sep|, i);
        assert !OccursAt(s, sep, j + |sep| + i);
      }
    }
    SplitWithoutSeparator(after, sep);
    assert Split(t, sep) == [[]] + Split(after, sep);
  }

  /** Text with a single occurrence of `sep` at `j` splits into two parts. */
  lemma {:induction false} SplitPair(s: string, sep: string, j: int, k: int)
    requires sep != []
    requires OccursAt(s, sep, j)
    requires 0 <= k <= j
    requires NoneBetween(s, sep, k, j)
    requires NoneAfter(s, sep, j)
    ensures Split(s[k..], sep) == [s[k..j], s[j + |sep|..]]
    decreases j - k
  {
    var t := s[k..];
    if k == j {
      SplitAtFinal(s, sep, j);
      assert s[k..j] == [];
    } else {
      assert !OccursAt(s, sep, k);
      assert t[..|sep|] == s[k..k + |sep|];
      assert t[1..] == s[k + 1..];
      SplitPair(s, sep, j, k + 1);
      var rest := Split(s[k + 1..], sep);
      assert Split(t, sep) == [[s[k]] + rest[0]] + rest[1..];
      assert [s[k]] + s[k + 1..j] == s[k..j];
    }
  }

  /** Python's `s.endswith(t)`. */
  predicate EndsWith(s: string, t: string)
  {
    |t| <= |s| && s[|s| - |t|..] == t
  }

  /** No proper suffix of `sep` is also a prefix of it, so occurrences cannot overlap. */
  predicate Unbordered(sep: string)
  {
    forall d | 0 < d < |sep| :: sep[d..] != sep[..|sep| - d]
  }

  /** Text splits into two or more parts exactly when it contains the separator. */
  lemma SplitSeveralIff(s: string, sep: string)
    requires sep != []
    ensures |Split(s, sep)| >= 2 <==> Contains(s, sep)
  {
    if Contains(s, sep) {
      SplitJoin(s, sep);
      SplitPartsFree(s, sep);
    } else {
      SplitWithoutSeparator(s, sep);
    }
  }

  /** A join of two or more parts ends with the separator and the last part. */
  lemma {:induction false} JoinLast(parts: seq<string>, sep: string)
    requires |parts| >= 2
    ensures Join(parts, sep) == Join(parts[..|parts| - 1], sep) + sep + parts[|parts| - 1]
    decreases |parts|
  {
    if |parts| > 2 {
      JoinLast(parts[1..], sep);
      assert parts[1..][..|parts| - 2] == parts[..|parts| - 1][1..];
    }
  }

  /** A join of two or more parts ends with the separator and the last part. */
  lemma JoinEndsWithLast(parts: seq<string>, sep: string)
    requires |parts| >= 2
    ensures EndsWith(Join(parts, sep), sep + parts[|parts| - 1])
  {
    var last := parts[|parts| - 1];
    var init := Join(parts[..|parts| - 1], sep);
    JoinLast(parts, sep);
    assert Join(parts, sep) == init + (sep + last);
    assert Join(parts, sep)[|init|..] == sep + last;
  }

  /**
   * When a split has two or more parts, the text ends with the separator and
   * the last part, which holds no separator.
   */
  lemma SplitLastFollowsSeparator(s: string, sep: string)
    requires sep != []
    requires |Split(s, sep)| >= 2
    ensures EndsWith(s, sep + Split(s, sep)[|Split(s, sep)| - 1])
    ensures !Contains(Split(s, sep)[|Split(s, sep)| - 1], sep)
  {
    var parts := Split(s, sep);
    SplitJoin(s, sep);
    JoinEndsWithLast(parts, sep);
    SplitPartsFree(s, sep);
  }

  /**
   * When `s` ends with both `sep + v` and `sep + t` and the two occurrences
   * of `sep` overlap, the overlap is a border of `sep`.
   */
  lemma OverlapIsBorder(s: string, sep: string, v: string, t: string)
    requires EndsWith(s, sep + v) && EndsWith(s, sep + t)
    requires |t| < |v| < |t| + |sep|
    ensures sep[|v| - |t|..] == sep[..|sep| - (|v| - |t|)]
  {
    var d := |v| - |t|;
    var long := sep + v;
    assert long[d..] == sep + t by {
      assert long == s[|s| - |long|..];
      assert sep + t == s[|s| - |sep + t|..];
    }
    assert sep[d..] == long[d..|sep|];
    assert long[d..][..|sep| - d] == sep[..|sep| - d];
  }

  /**
   * When `s` ends with both `sep + v` and `sep + t` for a separator that
   * cannot overlap itself, the longer of `v` and `t` contains the separator.
   */
  lemma LongerSuffixContains(s: string, sep: string, v: string, t: string)
    requires Unbordered(sep)
    requires EndsWith(s, sep + v) && EndsWith(s, sep + t)
    requires |v| > |t|
    ensures Contains(v, sep)
  {
    var d := |v| - |t|;
    var long := sep + v;
    assert long[d..] == sep + t by {
      assert long == s[|s| - |long|..];
      assert sep + t == s[|s| - |sep + t|..];
    }
    if d < |sep| {
      OverlapIsBorder(s, sep, v, t);
      assert false;
    }
    assert v[d - |sep|..d] == long[d..d + |sep|];
    assert OccursAt(v, sep, d - |sep|);
  }

  /**
   * The text after the last occurrence of an unbordered separator is the
   * only separator-free text that ends `s` right after an occurrence.
   */
  lemma SuffixAfterSeparatorUnique(s: string, sep: string, v: string, t: string)
    requires Unbordered(sep)
    requires EndsWith(s, sep + v) && EndsWith(s, sep + t)
    requires !Contains(v, sep) && !Contains(t, sep)
    ensures v == t
  {
    if |v| > |t| {
      LongerSuffixContains(s, sep, v, t);
      assert false;
    }
    if |t| > |v| {
      LongerSuffixContains(s, sep, t, v);
      assert false;
    }
    assert v == (sep + v)[|sep|..];
    assert t == (sep + t)[|sep|..];
  }

  /**
   * For a separator without a border, whatever precedes a final separator,
   * the last part of the split is the separator-free text after it.
   */
  lemma SplitLastAfterFinalSeparator(prefix: string, sep: string, t: string)
    requires sep != [] && Unbordered(sep)
    requires !Contains(t, sep)
    ensures |Split(prefix + sep + t, sep)| >= 2
    ensures Split(prefix + sep + t, sep)[|Split(prefix + sep + t, sep)| - 1] == t
  {
    var s := prefix + sep + t;
    assert s[|prefix|..|prefix| + |sep|] == sep;
    assert OccursAt(s, sep, |prefix|);
    assert Contains(s, sep);
    SplitSeveralIff(s, sep);
    SplitLastFollowsSeparator(s, sep);
    assert s[|s| - |sep + t|..] == sep + t;
    var parts := Split(s, sep);
    SuffixAfterSeparatorUnique(s, sep, parts[|parts| - 1], t);
  }

  /**
   * A prefix without the first character of `sep` neither hides nor adds an
   * occurrence of `sep`.
   */
  lemma ContainsBehindPrefix(p: string, s: string, sep: string)
    requires sep != [] && sep[0] !in p
    ensures Contains(p + s, sep) <==> Contains(s, sep)
  {
    var t := p + s;
    assert t[|p|..] == s;
    forall i | OccursAt(s, sep, i)
      ensures OccursAt(t, sep, |p| + i)
    {
      OccursAtShift(t, sep, |p|, i);
    }
    forall i | OccursAt(t, sep, i)
      ensures OccursAt(s, sep, i - |p|)
    {
      assert t[i] == sep[0];
      assert i >= |p|;
      OccursAtShift(t, sep, |p|, i - |p|);
    }
  }

  /**
   * Occurrences of `sep` in `x + y` lie inside `x` when `y` lacks the last
   * character of `sep`.
   */
  lemma ConcatWithoutSeparator(x: string, y: string, sep: string)
    requires sep != []
    requires !Contains(x, sep)
    requires sep[|sep| - 1] !in y
    ensures !Contains(x + y, sep)
  {
    var s := x + y;
    forall i | OccursAt(s, sep, i)
      ensures false
    {
      var last := i + |sep| - 1;
      assert s[last] == sep[|sep| - 1];
      if last < |x| {
        assert s[i..i + |sep|] == x[i..i + |sep|];
        assert OccursAt(x, sep, i);
      }
    }
  }

  /** Characters Python's `str.strip()` removes that are ASCII. */
  predicate IsSpace(c: char)
  {
    c == ' ' || 9 <= c as int <= 13 || 0x1c <= c as int <= 0x1f
  }

  predicate IsDigit(c: char)
  {
    '0' <= c <= '9'
  }

  function LStrip(s: string, drop: char -> bool): string
    decreases |s|
  {
    if s != [] && drop(s[0]) then LStrip(s[1..], drop) else s
  }

  function RStrip(s: string, drop: char -> bool): string
    decreases |s|
  {
    if s != [] && drop(s[|s| - 1]) then RStrip(s[..|s| - 1], drop) else s
  }

  /** Python's `s.strip(c)` for a one-character argument. */
  function StripChar(s: string, c: char): string
  {
    RStrip(LStrip(s, x => x == c), x => x == c)
  }

  /** Python's `s.strip()` (ASCII whitespace only). */
  function StripSpace(s: string): string
  {
    RStrip(LStrip(s, IsSpace), IsSpace)
  }

  /**
   * The digit string of a base-10 Python integer literal: digits, with
   * single underscores allowed only between two digits.
   */
  predicate ValidDigits(d: string)
  {
    && |d| >= 1
    && IsDigit(d[0])
    && IsDigit(d[|d| - 1])
    && forall i :: 0 <= i < |d| ==>
         IsDigit(d[i]) || (d[i] == '_' && 0 < i < |d| - 1 && IsDigit(d[i - 1]) && IsDigit(d[i + 1]))
  }

  /** The value of a digit string, underscores ignored. */
  function DigitsValue(d: string): nat
    decreases |d|
  {
    if d == [] then 0
    else if IsDigit(d[|d| - 1]) then DigitsValue(d[..|d| - 1]) * 10 + (d[|d| - 1] as int - '0' as int)
    else DigitsValue(d[..|d| - 1])
  }

  /** Python's `int(text)`: surrounding whitespace, an optional sign, then digits. */
  function ParseInt(text: string): Option<int>
  {
    var t := StripSpace(text);
    if |t| >= 1 && (t[0] == '-' || t[0] == '+') then
      if ValidDigits(t[1..]) then
        var v: int := DigitsValue(t[1..]);
        Some(if t[0] == '-' then -v else v)
      else None
    else if ValidDigits(t) then Some(DigitsValue(t))
    else None
  }

  function DigitChar(d: nat): char
    requires d < 10
  {
    ('0' as int + d) as char
  }

  /** Python's `str(n)` for a natural number. */
  function NatToString(n: nat): (r: string)
    ensures |r| >= 1
    ensures forall i :: 0 <= i < |r| ==> IsDigit(r[i])
  {
    if n < 10 then [DigitChar(n)] else NatToString(n / 10) + [DigitChar(n % 10)]
  }

  /** Python's `str(n)` for an integer, as `%s` and f-strings format it. */
  function IntToString(n: int): (r: string)
    ensures |r| >= 1
    ensures forall i :: 0 <= i < |r| ==> IsDigit(r[i]) || (i == 0 && r[i] == '-')
  {
    if n < 0 then "-" + NatToString(-n) else NatToString(n)
  }

  lemma {:induction false} NatToStringValue(n: nat)
    ensures ValidDigits(NatToString(n))
    ensures DigitsValue(NatToString(n)) == n
  {
    var r := NatToString(n);
    if n >= 10 {
      NatToStringValue(n / 10);
      assert r[..|r| - 1] == NatToString(n / 10);
    }
  }

  lemma StripSpaceKeeps(s: string)
    requires |s| >= 1 && !IsSpace(s[0]) && !IsSpace(s[|s| - 1])
    ensures StripSpace(s) == s
  {
  }

  lemma ParseIntOfDigits(d: string, v: nat)
    requires ValidDigits(d) && DigitsValue(d) == v
    ensures ParseInt(d) == Some(v)
  {
    StripSpaceKeeps(d);
  }

  lemma ParseIntOfNegative(d: string, v: nat)
    requires ValidDigits(d) && DigitsValue(d) == v
    ensures ParseInt("-" + d) == Some(-(v as int))
  {
    var r := "-" + d;
    StripSpaceKeeps(r);
    assert r[1..] == d;
  }

  /** `int(str(n)) == n`. */
  lemma {:induction false} ParseIntOfIntToString(n: int)
    ensures ParseInt(IntToString(n)) == Some(n)
  {
    if n < 0 {
      NatToStringValue(-n);
      ParseIntOfNegative(NatToString(-n), -n);
    } else {
      NatToStringValue(n);
      ParseIntOfDigits(NatToString(n), n);
    }
  }
}
