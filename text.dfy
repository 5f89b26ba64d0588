/** The pieces of Python's string API that the evaluators rely on, on ASCII text:
    `lower`, `in`, `isdigit`, `int`, `str`, `strip`, `replace`, slicing from an
    index, `split` and `join`. */
module Text {

  /** How often `c` occurs in `s`. */
  function Count(s: string, c: char): nat
  {
    multiset(s)[c]
  }

  /** A slice never holds more copies of a character than the whole string. */
  lemma CountSlice(s: string, i: nat, j: nat, c: char)
    requires i <= j <= |s|
    ensures Count(s[i..j], c) <= Count(s, c)
  {
    assert s == s[..i] + s[i..j] + s[j..];
  }

  // ---------------------------------------------------------------- lower / in

  /** `str.lower()` on one character, ASCII letters only. */
  function LowerChar(c: char): char
  {
    if 'A' <= c <= 'Z' then (c as int + 32) as char else c
  }

  /** `str.lower()`, ASCII letters only. */
  function Lower(s: string): string
  {
    seq(|s|, i requires 0 <= i < |s| => LowerChar(s[i]))
  }

  predicate StartsWith(s: string, t: string)
  {
    |t| <= |s| && s[..|t|] == t
  }

  /** Python's `t in s` for strings. */
  predicate Contains(s: string, t: string)
    decreases |s|
  {
    StartsWith(s, t) || (|s| > 0 && Contains(s[1..], t))
  }

  /** `t` occurs in `s` starting at position `i`. */
  predicate OccursAt(s: string, t: string, i: int)
  {
    0 <= i <= |s| - |t| && s[i..i + |t|] == t
  }

  /** `Contains` holds exactly when `t` occurs at some position of `s`. */
  lemma {:induction false} ContainsAt(s: string, t: string)
    ensures Contains(s, t) <==> exists i :: OccursAt(s, t, i)
    decreases |s|
  {
    if StartsWith(s, t) {
      assert OccursAt(s, t, 0);
    } else if |s| > 0 {
      ContainsAt(s[1..], t);
      if Contains(s[1..], t) {
        var i :| OccursAt(s[1..], t, i);
        assert s[i + 1..i + 1 + |t|] == s[1..][i..i + |t|];
        assert OccursAt(s, t, i + 1);
      }
      if exists i :: OccursAt(s, t, i) {
        var i :| OccursAt(s, t, i);
        assert i > 0;
        assert s[1..][i - 1..i - 1 + |t|] == s[i..i + |t|];
        assert OccursAt(s[1..], t, i - 1);
      }
    }
  }

  // ---------------------------------------------------------------- numbers

  predicate IsAsciiDigit(c: char)
  {
    '0' <= c <= '9'
  }

  /** `str.isdigit()` on ASCII: non-empty, and every character a digit. */
  predicate IsDigits(s: string)
  {
    |s| > 0 && forall i :: 0 <= i < |s| ==> IsAsciiDigit(s[i])
  }

  function DigitValue(c: char): nat
    requires IsAsciiDigit(c)
  {
    c as int - '0' as int
  }

  function DigitChar(d: nat): (c: char)
    requires d < 10
    ensures IsAsciiDigit(c) && DigitValue(c) == d
  {
    ('0' as int + d) as char
  }

  /** `int(s)` on a string of ASCII digits; leading zeros are allowed. */
  function ParseNat(s: string): nat
    requires forall i :: 0 <= i < |s| ==> IsAsciiDigit(s[i])
    decreases |s|
  {
    if |s| == 0 then 0 else 10 * ParseNat(s[..|s| - 1]) + DigitValue(s[|s| - 1])
  }

  /** The decimal numeral an f-string gives a non-negative int; `int` reads it back. */
  function NatToString(n: nat): (r: string)
    ensures IsDigits(r)
    ensures ParseNat(r) == n
    decreases n
  {
    if n < 10 then
      [DigitChar(n)]
    else
      var front := NatToString(n / 10);
      var r := front + [DigitChar(n % 10)];
      assert r[..|r| - 1] == front;
      r
  }

  // ---------------------------------------------------------------- strip / replace / slice

  /** `str.lstrip(chars)`: drops the longest prefix made of characters in `chars`. */
  function LStrip(s: string, chars: set<char>): string
    decreases |s|
  {
    if |s| > 0 && s[0] in chars then LStrip(s[1..], chars) else s
  }

  /** `lstrip` keeps a suffix, everything it drops is in `chars`, and what it keeps
      starts with a character outside `chars`. */
  lemma {:induction false} LStripSuffix(s: string, chars: set<char>)
    ensures var r := LStrip(s, chars);
      && |r| <= |s| && r == s[|s| - |r|..]
      && (forall i :: 0 <= i < |s| - |r| ==> s[i] in chars)
      && (|r| > 0 ==> r[0] !in chars)
    decreases |s|
  {
    if |s| > 0 && s[0] in chars {
      LStripSuffix(s[1..], chars);
    }
  }

  /** `str.rstrip(chars)`: drops the longest suffix made of characters in `chars`. */
  function RStrip(s: string, chars: set<char>): string
    decreases |s|
  {
    if |s| > 0 && s[|s| - 1] in chars then RStrip(s[..|s| - 1], chars) else s
  }

  /** `rstrip` keeps a prefix, everything it drops is in `chars`, and what it keeps
      ends with a character outside `chars`. */
  lemma {:induction false} RStripPrefix(s: string, chars: set<char>)
    ensures var r := RStrip(s, chars);
      && |r| <= |s| && r == s[..|r|]
      && (forall i :: |r| <= i < |s| ==> s[i] in chars)
      && (|r| > 0 ==> r[|r| - 1] !in chars)
    decreases |s|
  {
    if |s| > 0 && s[|s| - 1] in chars {
      RStripPrefix(s[..|s| - 1], chars);
    }
  }

  /** `lstrip` leaves a string alone that starts with a kept character. */
  lemma LStripKeeps(s: string, chars: set<char>)
    requires |s| > 0 && s[0] !in chars
    ensures LStrip(s, chars) == s
  {
  }

  /** `rstrip` removes a tail made of stripped characters and stops at the first
      character that is not one. */
  lemma {:induction false} RStripTail(s: string, t: string, chars: set<char>)
    requires |s| > 0 && s[|s| - 1] !in chars
    requires forall i :: 0 <= i < |t| ==> t[i] in chars
    ensures RStrip(s + t, chars) == s
    decreases |t|
  {
    if |t| > 0 {
      assert (s + t)[..|s + t| - 1] == s + t[..|t| - 1];
      RStripTail(s, t[..|t| - 1], chars);
    } else {
      assert s + t == s;
    }
  }

  /** `str.strip(chars)`. */
  function Strip(s: string, chars: set<char>): string
  {
    RStrip(LStrip(s, chars), chars)
  }

  /** Stripping never adds an occurrence of a character. */
  lemma StripCount(s: string, chars: set<char>, c: char)
    ensures Count(Strip(s, chars), c) <= Count(s, c)
  {
    var left := LStrip(s, chars);
    var stripped := RStrip(left, chars);
    LStripSuffix(s, chars);
    RStripPrefix(left, chars);
    CountSlice(s, |s| - |left|, |s|, c);
    assert s[|s| - |left|..|s|] == left;
    CountSlice(left, 0, |stripped|, c);
    assert left[0..|stripped|] == stripped;
  }

  /** `s.replace(c, "")` for a one-character `c`. */
  function RemoveChar(s: string, c: char): (r: string)
    ensures c !in r
    decreases |s|
  {
    if |s| == 0 then "" else (if s[0] == c then "" else [s[0]]) + RemoveChar(s[1..], c)
  }

  /** Removing `c` leaves every other character as often as it was. */
  lemma {:induction false} RemoveCharCount(s: string, c: char, d: char)
    requires d != c
    ensures Count(RemoveChar(s, c), d) == Count(s, d)
    decreases |s|
  {
    if |s| > 0 {
      RemoveCharCount(s[1..], c, d);
      assert s == [s[0]] + s[1..];
      assert multiset(RemoveChar(s, c))
        == multiset(if s[0] == c then "" else [s[0]]) + multiset(RemoveChar(s[1..], c));
    }
  }

  lemma {:induction false} RemoveCharAppend(a: string, b: string, c: char)
    ensures RemoveChar(a + b, c) == RemoveChar(a, c) + RemoveChar(b, c)
    decreases |a|
  {
    if |a| > 0 {
      assert (a + b)[1..] == a[1..] + b;
      RemoveCharAppend(a[1..], b, c);
    } else {
      assert a + b == b;
    }
  }

  /** Removing `c` from a string that begins with `x`. */
  lemma RemoveCharCons(x: char, s: string, c: char)
    ensures RemoveChar([x] + s, c) == (if x == c then "" else [x]) + RemoveChar(s, c)
  {
    assert ([x] + s)[1..] == s;
  }

  lemma {:induction false} RemoveCharAbsent(s: string, c: char)
    requires c !in s
    ensures RemoveChar(s, c) == s
    decreases |s|
  {
    if |s| > 0 {
      RemoveCharAbsent(s[1..], c);
      assert s == [s[0]] + s[1..];
    }
  }

  /** Removing a character that occurs `n` times shortens the string by `n`. */
  lemma {:induction false} RemoveCharLength(s: string, c: char, n: nat)
    requires Count(s, c) == n
    ensures |RemoveChar(s, c)| == |s| - n
    decreases |s|
  {
    if |s| > 0 {
      assert s == [s[0]] + s[1..];
      RemoveCharLength(s[1..], c, Count(s[1..], c));
    }
  }

  /** Removing a character that occurs in the string shortens it. */
  lemma RemoveCharShortens(s: string, c: char, i: nat)
    requires i < |s| && s[i] == c
    ensures |RemoveChar(s, c)| < |s|
  {
    assert s[i] in multiset(s);
    RemoveCharLength(s, c, Count(s, c));
  }

  /** `s[n:]`: empty when `n` is past the end. */
  function Drop(s: string, n: nat): (r: string)
    ensures |r| <= |s| && r == s[|s| - |r|..]
    ensures |s| >= n ==> |r| == |s| - n
  {
    if |s| <= n then "" else s[n..]
  }

  /** Dropping a prefix never adds an occurrence of a character. */
  lemma DropCount(s: string, n: nat, c: char)
    ensures Count(Drop(s, n), c) <= Count(s, c)
  {
    var r := Drop(s, n);
    CountSlice(s, |s| - |r|, |s|, c);
    assert s[|s| - |r|..|s|] == r;
  }

  // ---------------------------------------------------------------- split / join

  /** `s.split(sep)` for a one-character separator: one piece more than there are
      separators, and no piece holds a separator. */
  function Split(s: string, sep: char): (r: seq<string>)
    ensures |r| >= 1
    decreases |s|
  {
    if |s| == 0 then
      [""]
    else
      var rest := Split(s[1..], sep);
      if s[0] == sep then [""] + rest else [[s[0]] + rest[0]] + rest[1..]
  }

  /** A split has one piece more than the string has separators. */
  lemma {:induction false} SplitCount(s: string, sep: char)
    ensures |Split(s, sep)| == 1 + Count(s, sep)
    decreases |s|
  {
    if |s| > 0 {
      SplitCount(s[1..], sep);
      assert s == [s[0]] + s[1..];
      assert multiset(s) == multiset([s[0]]) + multiset(s[1..]);
    }
  }

  /** `sep.join(parts)`. */
  function Join(parts: seq<string>, sep: string): string
    decreases |parts|
  {
    if |parts| == 0 then ""
    else if |parts| == 1 then parts[0]
    else parts[0] + sep + Join(parts[1..], sep)
  }

  /** Joining after an empty first piece puts the separator in front. */
  lemma JoinEmptyFirst(rest: seq<string>, sep: string)
    requires |rest| >= 1
    ensures Join([""] + rest, sep) == sep + Join(rest, sep)
  {
    assert ([""] + rest)[1..] == rest;
  }

  /** Joining after a character is put in front of the first piece puts the
      character in front. */
  lemma JoinConsFirst(x: char, rest: seq<string>, sep: string)
    requires |rest| >= 1
    ensures Join([[x] + rest[0]] + rest[1..], sep) == [x] + Join(rest, sep)
  {
    var r := [[x] + rest[0]] + rest[1..];
    if |rest| > 1 {
      assert r[1..] == rest[1..];
    }
  }

  /** Joining the pieces of a split with the separator gives the string back. */
  lemma {:induction false} JoinSplit(s: string, sep: char)
    ensures Join(Split(s, sep), [sep]) == s
    decreases |s|
  {
    if |s| > 0 {
      var rest := Split(s[1..], sep);
      JoinSplit(s[1..], sep);
      assert s == [s[0]] + s[1..];
      if s[0] == sep {
        JoinEmptyFirst(rest, [sep]);
      } else {
        JoinConsFirst(s[0], rest, [sep]);
      }
    }
  }

  lemma {:induction false} SplitWithoutSeparator(a: string, sep: char)
    requires sep !in a
    ensures Split(a, sep) == [a]
    decreases |a|
  {
    if |a| > 0 {
      SplitWithoutSeparator(a[1..], sep);
      assert a == [a[0]] + a[1..];
    }
  }

  /** Splitting after a character other than the separator puts the character in
      front of the first piece. */
  lemma SplitConsOther(x: char, t: string, sep: char)
    requires x != sep
    ensures Split([x] + t, sep) == [[x] + Split(t, sep)[0]] + Split(t, sep)[1..]
  {
    assert ([x] + t)[1..] == t;
  }

  /** Splitting after the separator starts with an empty piece. */
  lemma SplitConsSeparator(t: string, sep: char)
    ensures Split([sep] + t, sep) == [""] + Split(t, sep)
  {
    assert ([sep] + t)[1..] == t;
  }

  lemma {:induction false} SplitAtSeparator(a: string, b: string, sep: char)
    requires sep !in a
    ensures Split(a + [sep] + b, sep) == [a] + Split(b, sep)
    decreases |a|
  {
    if |a| == 0 {
      assert a + [sep] + b == [sep] + b;
      SplitConsSeparator(b, sep);
    } else {
      var t := a[1..] + [sep] + b;
      assert a + [sep] + b == [a[0]] + t;
      SplitConsOther(a[0], t, sep);
      SplitAtSeparator(a[1..], b, sep);
      assert [a[0]] + a[1..] == a;
    }
  }

  /** No piece of a split holds the separator. */
  lemma {:induction false} SplitPiecesFree(s: string, sep: char)
    ensures forall i :: 0 <= i < |Split(s, sep)| ==> sep !in Split(s, sep)[i]
    decreases |s|
  {
    if |s| > 0 {
      SplitPiecesFree(s[1..], sep);
      var rest := Split(s[1..], sep);
      assert s == [s[0]] + s[1..];
      if s[0] != sep {
        assert sep !in [s[0]] + rest[0];
      }
    }
  }

  /** Splitting a join of separator-free pieces gives the pieces back. */
  lemma {:induction false} SplitJoin(parts: seq<string>, sep: char)
    requires |parts| > 0
    requires forall i :: 0 <= i < |parts| ==> sep !in parts[i]
    ensures Split(Join(parts, [sep]), sep) == parts
    decreases |parts|
  {
    if |parts| == 1 {
      SplitWithoutSeparator(parts[0], sep);
    } else {
      SplitJoin(parts[1..], sep);
      SplitAtSeparator(parts[0], Join(parts[1..], [sep]), sep);
      assert parts == [parts[0]] + parts[1..];
    }
  }

  /** Total length of the parts. */
  function TotalLength(parts: seq<string>): nat
    decreases |parts|
  {
    if |parts| == 0 then 0 else |parts[0]| + TotalLength(parts[1..])
  }

  lemma {:induction false} JoinLength(parts: seq<string>, sep: string)
    requires |parts| > 0
    ensures |Join(parts, sep)| == TotalLength(parts) + |sep| * (|parts| - 1)
    decreases |parts|
  {
    if |parts| > 1 {
      JoinLength(parts[1..], sep);
    }
  }

  /** Joining two non-empty lists of parts puts one separator between the two joins. */
  lemma {:induction false} JoinAppend(xs: seq<string>, ys: seq<string>, sep: string)
    requires |xs| > 0 && |ys| > 0
    ensures Join(xs + ys, sep) == Join(xs, sep) + sep + Join(ys, sep)
    decreases |xs|
  {
    if |xs| == 1 {
      assert (xs + ys)[1..] == ys;
    } else {
      assert (xs + ys)[1..] == xs[1..] + ys;
      JoinAppend(xs[1..], ys, sep);
    }
  }
}
