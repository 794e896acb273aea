/** The string primitives the backend relies on, written out with Python's
    semantics: `str.isspace`, `str.lower` (ASCII letters), `str.strip`,
    `str.split('\n')`, `str.split()`, `'\n'.join`, `in` on strings and
    `os.path.basename`. */
module Text {

  /** Python's `str.isspace` for one character: the whitespace that `strip()`
      and `split()` remove. */
  predicate IsSpace(c: char) {
    c == ' ' || ('\t' <= c <= '\r') || ('\U{1c}' <= c <= '\U{1f}')
    || c == '\U{85}' || c == '\U{a0}' || c == '\U{1680}'
    || ('\U{2000}' <= c <= '\U{200a}') || c == '\U{2028}' || c == '\U{2029}'
    || c == '\U{202f}' || c == '\U{205f}' || c == '\U{3000}'
  }

  function LowerChar(c: char): char {
    if 'A' <= c <= 'Z' then (c as int + 32) as char else c
  }

  /** `s.lower()` */
  function Lower(s: string): (r: string)
    ensures |r| == |s|
    ensures forall i :: 0 <= i < |s| ==> r[i] == LowerChar(s[i])
  {
    seq(|s|, i requires 0 <= i < |s| => LowerChar(s[i]))
  }

  /** Lower-casing twice is lower-casing once. */
  lemma LowerIdempotent(s: string)
    ensures Lower(Lower(s)) == Lower(s)
  {
    assert forall i :: 0 <= i < |s| ==> LowerChar(LowerChar(s[i])) == LowerChar(s[i]);
  }

  /** A string without ASCII capitals is its own lower-case form. */
  lemma LowerOfLower(s: string)
    requires forall i :: 0 <= i < |s| ==> !('A' <= s[i] <= 'Z')
    ensures Lower(s) == s
  {
  }

  /** Drops the characters satisfying `drop` from the left end. */
  function StripLeft(s: string, drop: char -> bool): (r: string)
    ensures |r| <= |s| && r == s[|s| - |r|..]
    ensures r != [] ==> !drop(r[0])
    decreases |s|
  {
    if s != [] && drop(s[0]) then StripLeft(s[1..], drop) else s
  }

  /** Drops the characters satisfying `drop` from the right end. */
  function StripRight(s: string, drop: char -> bool): (r: string)
    ensures |r| <= |s| && r == s[..|r|]
    ensures r != [] ==> !drop(r[|r| - 1])
    decreases |s|
  {
    if s != [] && drop(s[|s| - 1]) then StripRight(s[..|s| - 1], drop) else s
  }

  /** `s.strip(chars)`, with the character set given as a predicate. */
  function StripBy(s: string, drop: char -> bool): string {
    StripRight(StripLeft(s, drop), drop)
  }

  /** `s.strip()` */
  function Trim(s: string): string {
    StripBy(s, IsSpace)
  }

  /** A non-empty string with no whitespace at either end, i.e. a non-blank
      string that `strip()` leaves alone. */
  predicate Trimmed(s: string) {
    s != [] && !IsSpace(s[0]) && !IsSpace(s[|s| - 1])
  }

  lemma StripRightKeepsFirst(s: string, drop: char -> bool)
    requires s != [] && !drop(s[0])
    ensures StripRight(s, drop) != [] && StripRight(s, drop)[0] == s[0]
    decreases |s|
  {
    if drop(s[|s| - 1]) {
      StripRightKeepsFirst(s[..|s| - 1], drop);
    }
  }

  /** `t` is `w` with some dropped characters cut from each end. */
  predicate CutFrom(t: string, w: string, drop: char -> bool) {
    exists a, b :: 0 <= a <= b <= |w| && t == w[a..b]
      && (forall i :: 0 <= i < a ==> drop(w[i]))
      && (forall i :: b <= i < |w| ==> drop(w[i]))
  }

  /** Every character `StripLeft` removes is a dropped one. */
  lemma {:induction false} StripLeftDrops(s: string, drop: char -> bool)
    ensures forall i :: 0 <= i < |s| - |StripLeft(s, drop)| ==> drop(s[i])
    decreases |s|
  {
    if s != [] && drop(s[0]) {
      StripLeftDrops(s[1..], drop);
      assert forall i :: 1 <= i < |s| ==> s[i] == s[1..][i - 1];
    }
  }

  /** Every character `StripRight` removes is a dropped one. */
  lemma {:induction false} StripRightDrops(s: string, drop: char -> bool)
    ensures forall i :: |StripRight(s, drop)| <= i < |s| ==> drop(s[i])
    decreases |s|
  {
    if s != [] && drop(s[|s| - 1]) {
      StripRightDrops(s[..|s| - 1], drop);
      assert forall i :: 0 <= i < |s| - 1 ==> s[i] == s[..|s| - 1][i];
    }
  }

  /** `s.strip(chars)` is `s` with dropped characters cut from both ends. */
  lemma StripByCut(s: string, drop: char -> bool)
    ensures CutFrom(StripBy(s, drop), s, drop)
  {
    var l := StripLeft(s, drop);
    var r := StripRight(l, drop);
    StripLeftDrops(s, drop);
    StripRightDrops(l, drop);
    var a := |s| - |l|;
    var b := a + |r|;
    assert l == s[a..];
    assert r == l[..|r|];
    assert r == s[a..b] by {
      assert forall j :: 0 <= j < |r| ==> r[j] == l[j] == s[a + j];
    }
    assert forall i :: b <= i < |s| ==> drop(s[i]) by {
      forall i | b <= i < |s|
        ensures drop(s[i])
      {
        assert s[i] == l[i - a];
      }
    }
    assert forall i :: 0 <= i < a ==> drop(s[i]);
  }

  /** What `strip(chars)` returns is empty or starts and ends with kept characters. */
  lemma StripByEnds(s: string, drop: char -> bool)
    ensures var r := StripBy(s, drop);
      r == [] || (!drop(r[0]) && !drop(r[|r| - 1]))
  {
    var l := StripLeft(s, drop);
    if l != [] {
      StripRightKeepsFirst(l, drop);
    }
  }

  /** What `strip()` returns is either empty or trimmed. */
  lemma TrimIsTrimmed(s: string)
    ensures Trim(s) == [] || Trimmed(Trim(s))
  {
    StripByEnds(s, IsSpace);
  }

  /** `strip()` leaves a trimmed string unchanged. */
  lemma TrimOfTrimmed(s: string)
    requires Trimmed(s)
    ensures Trim(s) == s
  {
  }

  /** `strip()` removes one leading newline in front of a trimmed string. */
  lemma TrimAfterNewline(s: string)
    requires Trimmed(s)
    ensures Trim("\n" + s) == s
  {
    var t := "\n" + s;
    assert t != [] && IsSpace(t[0]) && t[1..] == s;
    assert StripLeft(s, IsSpace) == s;
    assert StripLeft(t, IsSpace) == StripLeft(t[1..], IsSpace);
  }

  /** `s.split(sep)` for a one-character separator: the pieces between
      separators, always at least one. */
  function SplitOn(s: string, sep: char): (r: seq<string>)
    ensures |r| >= 1
    decreases |s|
  {
    if s == [] then [""]
    else
      var rest := SplitOn(s[1..], sep);
      if s[0] == sep then [""] + rest else [[s[0]] + rest[0]] + rest[1..]
  }

  /** Every character of every piece of a split comes from the input. */
  lemma {:induction false} SplitOnChars(s: string, sep: char, k: nat, c: char)
    requires k < |SplitOn(s, sep)| && c in SplitOn(s, sep)[k]
    ensures c in s
    decreases |s|
  {
    if s != [] {
      var rest := SplitOn(s[1..], sep);
      if s[0] == sep {
        SplitOnChars(s[1..], sep, k - 1, c);
      } else if k == 0 {
        if c != s[0] {
          assert c in rest[0];
          SplitOnChars(s[1..], sep, 0, c);
        }
      } else {
        SplitOnChars(s[1..], sep, k, c);
      }
    }
  }

  /** Length of the run of non-space characters at the front of `s`. */
  function WordEnd(s: string): (n: nat)
    requires s != [] && !IsSpace(s[0])
    ensures 1 <= n <= |s|
    ensures n < |s| ==> IsSpace(s[n])
    ensures forall i :: 0 <= i < n ==> !IsSpace(s[i])
    decreases |s|
  {
    if |s| == 1 || IsSpace(s[1]) then 1 else 1 + WordEnd(s[1..])
  }

  /** A word of `split()`: non-empty and free of whitespace. */
  predicate IsWord(w: string) {
    w != [] && forall i :: 0 <= i < |w| ==> !IsSpace(w[i])
  }

  /** `s.split()` with no separator: the maximal runs of non-space
      characters, in order. */
  function Words(s: string): (r: seq<string>)
    ensures forall k :: 0 <= k < |r| ==> IsWord(r[k])
    decreases |s|
  {
    if s == [] then []
    else if IsSpace(s[0]) then Words(s[1..])
    else
      var n := WordEnd(s);
      [s[..n]] + Words(s[n..])
  }

  /** `'\n'.join(ls)` */
  function JoinLines(ls: seq<string>): string {
    if |ls| == 0 then ""
    else if |ls| == 1 then ls[0]
    else JoinLines(ls[..|ls| - 1]) + "\n" + ls[|ls| - 1]
  }

  lemma JoinSnoc(ls: seq<string>, p: string)
    requires ls != []
    ensures JoinLines(ls + [p]) == JoinLines(ls) + "\n" + p
  {
    assert (ls + [p])[..|ls|] == ls;
  }

  /** Joining two non-empty lists of lines puts one newline between the halves. */
  lemma {:induction false} JoinAppend(xs: seq<string>, ys: seq<string>)
    requires xs != [] && ys != []
    ensures JoinLines(xs + ys) == JoinLines(xs) + "\n" + JoinLines(ys)
    decreases |ys|
  {
    if |ys| == 1 {
      JoinSnoc(xs, ys[0]);
    } else {
      var init, last := ys[..|ys| - 1], ys[|ys| - 1];
      assert ys == init + [last];
      assert xs + ys == (xs + init) + [last];
      JoinAppend(xs, init);
      JoinSnoc(xs + init, last);
      JoinSnoc(init, last);
    }
  }

  /** Lines that are all trimmed join to a trimmed string. */
  lemma {:induction false} JoinTrimmed(ls: seq<string>)
    requires ls != []
    requires forall k :: 0 <= k < |ls| ==> Trimmed(ls[k])
    ensures Trimmed(JoinLines(ls))
  {
    if |ls| > 1 {
      var init := ls[..|ls| - 1];
      JoinTrimmed(init);
    }
  }

  /** `needle in s` for strings. */
  predicate Contains(s: string, needle: string) {
    exists i :: 0 <= i <= |s| - |needle| && OccursAt(s, needle, i)
  }

  /** `needle` occurs in `s` starting at index `i`. */
  predicate OccursAt(s: string, needle: string, i: int) {
    0 <= i <= |s| - |needle| && s[i..i + |needle|] == needle
  }

  /** `any(t in s for t in terms)` */
  predicate ContainsAny(s: string, terms: seq<string>) {
    exists k :: 0 <= k < |terms| && Contains(s, terms[k])
  }

  /** A string cannot contain a needle that has a character the string lacks. */
  lemma NotContainsByChar(s: string, needle: string, c: char)
    requires c in needle && c !in s
    ensures !Contains(s, needle)
  {
    var j :| 0 <= j < |needle| && needle[j] == c;
    forall i | 0 <= i <= |s| - |needle|
      ensures !OccursAt(s, needle, i)
    {
      assert s[i + j] != c;
      assert s[i..i + |needle|][j] != needle[j];
    }
  }

  /** A lower-case letter absent from `s` in both cases is absent from
      `s.lower()`. */
  lemma LowerLacks(s: string, c: char, upper: char)
    requires 'A' <= upper <= 'Z' && c == LowerChar(upper)
    requires c !in s && upper !in s
    ensures c !in Lower(s)
  {
    forall i | 0 <= i < |s|
      ensures Lower(s)[i] != c
    {
      assert s[i] in s;
    }
  }

  /** An occurrence of a needle without capitals survives `lower()`. */
  lemma OccursLower(s: string, w: string, i: nat)
    requires OccursAt(s, w, i)
    requires forall k :: 0 <= k < |w| ==> !('A' <= w[k] <= 'Z')
    ensures OccursAt(Lower(s), w, i)
  {
    forall k | 0 <= k < |w|
      ensures Lower(s)[i + k] == w[k]
    {
      assert s[i + k] == s[i..i + |w|][k];
    }
  }

  /** `b` occurs in `a + b + c` right after `a`. */
  lemma OccursInMiddle(a: string, b: string, c: string)
    ensures OccursAt(a + b + c, b, |a|)
  {
    assert (a + b + c)[|a|..|a| + |b|] == b;
  }

  /** `os.path.basename(p)` on POSIX: everything after the last `/`. */
  function Basename(p: string): (r: string)
    ensures |r| <= |p| && r == p[|p| - |r|..]
    ensures '/' !in r
    decreases |p|
  {
    if p == [] then ""
    else if p[|p| - 1] == '/' then ""
    else Basename(p[..|p| - 1]) + [p[|p| - 1]]
  }
}
