/** Text primitives the queue archiver relies on: Python's `str.strip()`,
    `str.lower()`, `str.split(sep)`, `sep.join(parts)`, `startswith`,
    `endswith` and the `in` substring test, stated over `seq<char>`.

    Whitespace is the fixed set of code points Python's `str.isspace()`
    accepts; lower-casing is ASCII-only (see README). */
module Strings {

  /** The characters `str.strip()` removes. */
  predicate IsSpace(c: char) {
    || c == ' ' || c == '\t' || c == '\n' || c == '\r'
    || c == '\U{0B}' || c == '\U{0C}'
    || ('\U{1C}' <= c <= '\U{1F}')
    || c == '\U{85}' || c == '\U{A0}' || c == '\U{1680}'
    || ('\U{2000}' <= c <= '\U{200A}')
    || c == '\U{2028}' || c == '\U{2029}' || c == '\U{202F}'
    || c == '\U{205F}' || c == '\U{3000}'
  }

  predicate AllSpace(s: string) {
    forall i :: 0 <= i < |s| ==> IsSpace(s[i])
  }

  /** Neither end of `s` is whitespace: what `strip()` leaves behind. */
  predicate IsTrimmed(s: string) {
    s == [] || (!IsSpace(s[0]) && !IsSpace(s[|s| - 1]))
  }

  function TrimLeft(s: string): (r: string)
    ensures |r| <= |s|
    ensures r == [] || !IsSpace(r[0])
    decreases |s|
  {
    if |s| > 0 && IsSpace(s[0]) then TrimLeft(s[1..]) else s
  }

  function TrimRight(s: string): (r: string)
    ensures |r| <= |s| && r == s[..|r|]
    ensures r == [] || !IsSpace(r[|r| - 1])
    decreases |s|
  {
    if |s| > 0 && IsSpace(s[|s| - 1]) then TrimRight(s[..|s| - 1]) else s
  }

  /** Left-stripping drops a run of whitespace from the front. */
  lemma {:induction false} TrimLeftDropsSpace(s: string)
    ensures TrimLeft(s) == s[|s| - |TrimLeft(s)|..]
    ensures AllSpace(s[..|s| - |TrimLeft(s)|])
    decreases |s|
  {
    if |s| > 0 && IsSpace(s[0]) {
      TrimLeftDropsSpace(s[1..]);
      var k := |s| - |TrimLeft(s)|;
      assert s[1..][..k - 1] == s[1..k];
      assert s[1..][k - 1..] == s[k..];
    }
  }

  /** Right-stripping drops a run of whitespace from the back. */
  lemma {:induction false} TrimRightDropsSpace(s: string)
    ensures AllSpace(s[|TrimRight(s)|..])
    decreases |s|
  {
    if |s| > 0 && IsSpace(s[|s| - 1]) {
      TrimRightDropsSpace(s[..|s| - 1]);
      var k := |TrimRight(s)|;
      assert s[..|s| - 1][k..] == s[k..|s| - 1];
    }
  }

  /** `s.strip()`: `s` without its leading and trailing runs of
      whitespace. */
  function Trim(s: string): (r: string)
    ensures IsTrimmed(r)
    ensures |r| <= |s|
  {
    var l := TrimLeft(s);
    var r := TrimRight(l);
    assert r == [] || !IsSpace(r[0]) by {
      if r != [] { assert r[0] == l[0]; }
    }
    r
  }

  /** What `strip()` keeps is a contiguous slice of the input, and all it
      drops on either side is whitespace. */
  lemma TrimIsSlice(s: string)
    ensures exists a :: 0 <= a <= |s| - |Trim(s)| && Trim(s) == s[a..a + |Trim(s)|]
                         && AllSpace(s[..a]) && AllSpace(s[a + |Trim(s)|..])
  {
    var l := TrimLeft(s);
    var r := TrimRight(l);
    var a := |s| - |l|;
    TrimLeftDropsSpace(s);
    TrimRightDropsSpace(l);
    SliceOfSuffix(s, a, |r|);
    assert Trim(s) == r;
  }

  /** A prefix of a suffix is a slice, and what follows it in the suffix
      is what follows the slice. */
  lemma SliceOfSuffix(s: string, a: nat, k: nat)
    requires a <= |s| && k <= |s| - a
    ensures s[a..][..k] == s[a..a + k]
    ensures s[a..][k..] == s[a + k..]
  {
  }

  /** Stripping introduces no character. */
  lemma TrimKeepsOut(s: string, c: char)
    requires c !in s
    ensures c !in Trim(s)
  {
    TrimIsSlice(s);
    var a :| 0 <= a <= |s| - |Trim(s)| && Trim(s) == s[a..a + |Trim(s)|];
    forall i | 0 <= i < |Trim(s)| ensures Trim(s)[i] != c {
      assert Trim(s)[i] == s[a + i];
    }
  }

  /** A string with no whitespace at either end is its own strip. */
  lemma TrimOfTrimmed(s: string)
    requires IsTrimmed(s)
    ensures Trim(s) == s
  {
  }

  /** One whitespace character in front of a stripped string is all that
      stripping removes. */
  lemma TrimPadded(c: char, w: string)
    requires IsSpace(c) && IsTrimmed(w)
    ensures Trim([c] + w) == w
  {
    assert ([c] + w)[1..] == w;
    assert TrimLeft(w) == w;
    assert TrimLeft([c] + w) == w;
    TrimOfTrimmed(w);
  }

  /** `strip()` is idempotent. */
  lemma TrimIdempotent(s: string)
    ensures Trim(Trim(s)) == Trim(s)
  {
    TrimOfTrimmed(Trim(s));
  }

  /** Stripping removes only whitespace: a string that is all whitespace
      strips to the empty string, and only such strings do. */
  lemma TrimEmptyIffAllSpace(s: string)
    ensures Trim(s) == [] <==> AllSpace(s)
  {
    TrimIsSlice(s);
    if AllSpace(s) {
      TrimLeftDropsSpace(s);
      assert TrimLeft(s) == [];
    }
  }

  /** ASCII lower-casing of one character. */
  function LowerChar(c: char): (r: char)
    ensures 'A' <= c <= 'Z' ==> 'a' <= r <= 'z'
    ensures !('A' <= c <= 'Z') ==> r == c
    ensures !('A' <= r <= 'Z')
  {
    if 'A' <= c <= 'Z' then (c as int + 32) as char else c
  }

  /** `s.lower()` restricted to ASCII letters. */
  function Lower(s: string): (r: string)
    ensures |r| == |s|
    ensures forall i :: 0 <= i < |s| ==> r[i] == LowerChar(s[i])
  {
    seq(|s|, i requires 0 <= i < |s| => LowerChar(s[i]))
  }

  predicate IsLower(s: string) {
    forall i :: 0 <= i < |s| ==> !('A' <= s[i] <= 'Z')
  }

  /** Lower-casing leaves no upper-case letter behind, so a second
      lower-casing changes nothing. */
  lemma LowerIdempotent(s: string)
    ensures IsLower(Lower(s))
    ensures Lower(Lower(s)) == Lower(s)
  {
  }

  /** The `in` test of Python strings: `pat` occurs in `s` at some offset. */
  predicate Contains(s: string, pat: string) {
    exists i :: 0 <= i <= |s| - |pat| && OccursAt(s, pat, i)
  }

  predicate OccursAt(s: string, pat: string, i: int)
    requires 0 <= i <= |s| - |pat|
  {
    s[i..i + |pat|] == pat
  }

  /** A substring cannot occur in a text that lacks one of its characters. */
  lemma MissingCharMeansAbsent(s: string, pat: string, c: char)
    requires c in pat && c !in s
    ensures !Contains(s, pat)
  {
    var j :| 0 <= j < |pat| && pat[j] == c;
    forall i | 0 <= i <= |s| - |pat|
      ensures !OccursAt(s, pat, i)
    {
      assert s[i..i + |pat|][j] == s[i + j] != c;
    }
  }

  predicate StartsWith(s: string, prefix: string) {
    |prefix| <= |s| && s[..|prefix|] == prefix
  }

  predicate EndsWith(s: string, suffix: string) {
    |suffix| <= |s| && s[|s| - |suffix|..] == suffix
  }

  /** Index of the first `c` in `s`, or `|s|` when there is none. */
  function FirstIndex(s: string, c: char): (i: nat)
    ensures i <= |s|
    ensures c !in s[..i]
    ensures i < |s| <==> c in s
    ensures i < |s| ==> s[i] == c
    decreases |s|
  {
    if |s| == 0 then 0
    else if s[0] == c then 0
    else
      var j := FirstIndex(s[1..], c);
      assert s[..j + 1] == [s[0]] + s[1..][..j];
      j + 1
  }

  /** The first occurrence is the one with no earlier occurrence. */
  lemma {:induction false} FirstIndexAt(s: string, c: char, k: nat)
    requires k < |s| && s[k] == c && c !in s[..k]
    ensures FirstIndex(s, c) == k
    decreases k
  {
    if k > 0 {
      assert s[..k][0] == s[0];
      assert s[1..][..k - 1] == s[..k][1..];
      FirstIndexAt(s[1..], c, k - 1);
    }
  }

  /** Index of the last `c` in `s`, or -1 when there is none: `s.rfind(c)`. */
  function LastIndex(s: string, c: char): (i: int)
    ensures -1 <= i < |s|
    ensures i >= 0 ==> s[i] == c
    ensures forall j :: i < j < |s| ==> s[j] != c
    decreases |s|
  {
    if |s| == 0 then -1
    else if s[|s| - 1] == c then |s| - 1
    else LastIndex(s[..|s| - 1], c)
  }

  /** `parts` joined with `sep` between neighbours, as `sep.join(parts)`. */
  function Join(parts: seq<string>, sep: string): string
    decreases |parts|
  {
    if |parts| == 0 then []
    else if |parts| == 1 then parts[0]
    else parts[0] + sep + Join(parts[1..], sep)
  }

  /** `s.split(sep)` for a single-character separator: always at least one
      piece, and no piece holds the separator. */
  function Split(s: string, sep: char): (parts: seq<string>)
    ensures |parts| >= 1
    ensures forall k :: 0 <= k < |parts| ==> sep !in parts[k]
    decreases |s|
  {
    var i := FirstIndex(s, sep);
    if i == |s| then [s]
    else [s[..i]] + Split(s[i + 1..], sep)
  }

  /** Joining the pieces of a split with the separator gives back the text. */
  lemma {:induction false} JoinSplit(s: string, sep: char)
    ensures Join(Split(s, sep), [sep]) == s
    decreases |s|
  {
    var i := FirstIndex(s, sep);
    if i < |s| {
      var tail := s[i + 1..];
      var rest := Split(tail, sep);
      assert Split(s, sep) == [s[..i]] + rest;
      JoinCons(s[..i], rest, [sep]);
      JoinSplit(tail, sep);
      assert s == s[..i] + [sep] + tail;
    }
  }

  /** A piece put in front of at least one other is followed by one
      separator. */
  lemma JoinCons(first: string, rest: seq<string>, sep: string)
    requires |rest| >= 1
    ensures Join([first] + rest, sep) == first + sep + Join(rest, sep)
  {
    var parts := [first] + rest;
    assert parts[0] == first && parts[1..] == rest;
  }

  /** Splitting at the first separator, when the text before it holds
      none, yields that text as the first piece. */
  lemma SplitAtFirst(a: string, sep: char, b: string)
    requires sep !in a
    ensures Split(a + [sep] + b, sep) == [a] + Split(b, sep)
  {
    var s := a + [sep] + b;
    assert s[..|a|] == a;
    FirstIndexAt(s, sep, |a|);
    assert s[|a| + 1..] == b;
  }

  /** Splitting a join of separator-free pieces recovers the pieces. */
  lemma {:induction false} SplitJoin(parts: seq<string>, sep: char)
    requires |parts| >= 1
    requires forall k :: 0 <= k < |parts| ==> sep !in parts[k]
    ensures Split(Join(parts, [sep]), sep) == parts
    decreases |parts|
  {
    if |parts| == 1 {
      assert FirstIndex(parts[0], sep) == |parts[0]|;
    } else {
      var tail := Join(parts[1..], [sep]);
      assert Join(parts, [sep]) == parts[0] + [sep] + tail;
      SplitAtFirst(parts[0], sep, tail);
      SplitJoin(parts[1..], sep);
      assert parts == [parts[0]] + parts[1..];
    }
  }

  /** A whitespace character in front is stripped away with the rest of
      the leading run. */
  lemma TrimDropFirst(c: char, s: string)
    requires IsSpace(c)
    ensures Trim([c] + s) == Trim(s)
  {
    assert ([c] + s)[1..] == s;
  }

  /** Appending a character to a text that is not all whitespace appends
      it to the left-stripped text too. */
  lemma {:induction false} TrimLeftSnoc(s: string, c: char)
    requires !AllSpace(s)
    ensures TrimLeft(s + [c]) == TrimLeft(s) + [c]
    decreases |s|
  {
    if IsSpace(s[0]) {
      assert (s + [c])[1..] == s[1..] + [c];
      assert !AllSpace(s[1..]) by {
        var i :| 0 <= i < |s| && !IsSpace(s[i]);
        assert s[1..][i - 1] == s[i];
      }
      TrimLeftSnoc(s[1..], c);
    }
  }

  /** A whitespace character at the back is stripped away with the rest of
      the trailing run. */
  lemma TrimDropLast(s: string, c: char)
    requires IsSpace(c)
    ensures Trim(s + [c]) == Trim(s)
  {
    if AllSpace(s) {
      assert AllSpace(s + [c]) by {
        forall i | 0 <= i < |s + [c]| ensures IsSpace((s + [c])[i]) {
          if i < |s| { assert (s + [c])[i] == s[i]; }
        }
      }
      TrimEmptyIffAllSpace(s);
      TrimEmptyIffAllSpace(s + [c]);
    } else {
      TrimLeftSnoc(s, c);
      var l := TrimLeft(s);
      assert (l + [c])[..|l|] == l;
    }
  }

  /** Joining one more piece adds the separator and the piece at the back. */
  lemma {:induction false} JoinSnoc(parts: seq<string>, t: string, sep: string)
    requires |parts| >= 1
    ensures Join(parts + [t], sep) == Join(parts, sep) + sep + t
    decreases |parts|
  {
    var all := parts + [t];
    assert all[1..] == parts[1..] + [t];
    if |parts| == 1 {
      assert all[1..] == [t];
    } else {
      JoinSnoc(parts[1..], t, sep);
    }
  }

  /** An empty first piece only adds a separator in front, which
      stripping removes. */
  lemma JoinDropFirst(parts: seq<string>, c: char)
    requires IsSpace(c) && |parts| >= 2 && parts[0] == []
    ensures Trim(Join(parts, [c])) == Trim(Join(parts[1..], [c]))
  {
    assert Join(parts, [c]) == [c] + Join(parts[1..], [c]);
    TrimDropFirst(c, Join(parts[1..], [c]));
  }

  /** An empty last piece only adds a separator at the back, which
      stripping removes. */
  lemma JoinDropLast(parts: seq<string>, c: char)
    requires IsSpace(c) && |parts| >= 2 && parts[|parts| - 1] == []
    ensures Trim(Join(parts, [c])) == Trim(Join(parts[..|parts| - 1], [c]))
  {
    var init := parts[..|parts| - 1];
    assert init + [parts[|parts| - 1]] == parts;
    JoinSnoc(init, [], [c]);
    assert Join(parts, [c]) == Join(init, [c]) + [c];
    TrimDropLast(Join(init, [c]), c);
  }

  /** A join whose first and last pieces are stripped and non-empty is
      stripped already. */
  lemma JoinTrimmedEnds(parts: seq<string>, c: char)
    requires |parts| >= 2 && parts[0] != [] && parts[|parts| - 1] != []
    requires IsTrimmed(parts[0]) && IsTrimmed(parts[|parts| - 1])
    ensures Trim(Join(parts, [c])) == Join(parts, [c])
  {
    var n := |parts|;
    var j := Join(parts, [c]);
    var init := parts[..n - 1];
    assert init + [parts[n - 1]] == parts;
    JoinSnoc(init, parts[n - 1], [c]);
    assert j == parts[0] + [c] + Join(parts[1..], [c]);
    assert j[0] == parts[0][0];
    assert j[|j| - 1] == parts[n - 1][|parts[n - 1]| - 1];
    TrimOfTrimmed(j);
  }

  /** `parts[a..b]` runs from the first non-empty piece to the last one:
      every piece outside it is empty, and it is empty or starts and ends
      with a non-empty piece. */
  predicate StripRun(parts: seq<string>, a: nat, b: nat) {
    && a <= b <= |parts|
    && (forall i :: 0 <= i < a ==> parts[i] == [])
    && (forall i :: b <= i < |parts| ==> parts[i] == [])
    && (a < b ==> parts[a] != [] && parts[b - 1] != [])
  }

  lemma StripRunAfterEmpty(parts: seq<string>, a: nat, b: nat)
    requires |parts| >= 1 && parts[0] == [] && StripRun(parts[1..], a, b)
    ensures StripRun(parts, a + 1, b + 1)
    ensures parts[1..][a..b] == parts[a + 1..b + 1]
  {
    var tail := parts[1..];
    forall i | 0 <= i < a + 1 ensures parts[i] == [] {
      if i > 0 { assert parts[i] == tail[i - 1]; }
    }
    forall i | b + 1 <= i < |parts| ensures parts[i] == [] {
      assert parts[i] == tail[i - 1];
    }
  }

  lemma StripRunBeforeEmpty(parts: seq<string>, a: nat, b: nat)
    requires |parts| >= 1 && parts[|parts| - 1] == [] && StripRun(parts[..|parts| - 1], a, b)
    ensures StripRun(parts, a, b)
    ensures parts[..|parts| - 1][a..b] == parts[a..b]
  {
    var init := parts[..|parts| - 1];
    forall i | 0 <= i < a ensures parts[i] == [] {
      assert parts[i] == init[i];
    }
    forall i | b <= i < |parts| ensures parts[i] == [] {
      if i < |parts| - 1 { assert parts[i] == init[i]; }
    }
    if a < b {
      assert parts[a] == init[a] && parts[b - 1] == init[b - 1];
    }
  }

  /** Stripping a join of stripped pieces, with a whitespace separator,
      drops the empty pieces at either end and nothing else: the result is
      the join of the run of pieces from the first non-empty one to the
      last. */
  lemma {:induction false} TrimJoin(parts: seq<string>, c: char) returns (a: nat, b: nat)
    requires IsSpace(c)
    requires forall i :: 0 <= i < |parts| ==> IsTrimmed(parts[i])
    ensures StripRun(parts, a, b)
    ensures Trim(Join(parts, [c])) == Join(parts[a..b], [c])
    decreases |parts|
  {
    var n := |parts|;
    if n == 0 {
      a, b := 0, 0;
    } else if n == 1 {
      TrimOfTrimmed(parts[0]);
      if parts[0] == [] {
        a, b := 0, 0;
      } else {
        a, b := 0, 1;
        assert parts[0..1] == parts;
      }
    } else if parts[0] == [] {
      JoinDropFirst(parts, c);
      var a', b' := TrimJoin(parts[1..], c);
      StripRunAfterEmpty(parts, a', b');
      a, b := a' + 1, b' + 1;
    } else if parts[n - 1] == [] {
      JoinDropLast(parts, c);
      a, b := TrimJoin(parts[..n - 1], c);
      StripRunBeforeEmpty(parts, a, b);
    } else {
      a, b := 0, n;
      JoinTrimmedEnds(parts, c);
      assert parts[0..n] == parts;
    }
  }

  /** Universal-newline translation, as reading a file in text mode does
      it: `\r\n` and a lone `\r` each become `\n`. */
  function Newlines(s: string): (r: string)
    ensures |r| <= |s|
    decreases |s|
  {
    if |s| == 0 then []
    else if s[0] == '\r' then
      if |s| > 1 && s[1] == '\n' then ['\n'] + Newlines(s[2..]) else ['\n'] + Newlines(s[1..])
    else [s[0]] + Newlines(s[1..])
  }

  /** The translation holds no `\r`, and a text without one is left as
      it is. */
  lemma {:induction false} NewlinesClean(s: string)
    ensures '\r' !in Newlines(s)
    ensures '\r' !in s ==> Newlines(s) == s
    decreases |s|
  {
    if |s| > 0 {
      if s[0] == '\r' {
        if |s| > 1 && s[1] == '\n' {
          NewlinesClean(s[2..]);
        } else {
          NewlinesClean(s[1..]);
        }
      } else {
        NewlinesClean(s[1..]);
        if '\r' !in s {
          assert '\r' !in s[1..];
          assert s == [s[0]] + s[1..];
        }
      }
    }
  }

  /** What follows a `\r` once its translation has consumed it: a `\n`
      right after it goes with it. */
  function AfterReturn(b: string): string {
    if |b| > 0 && b[0] == '\n' then b[1..] else b
  }

  /** Translation runs left to right: text before the first `\r` is kept,
      and that `\r` becomes one `\n`, taking a following `\n` with it. */
  lemma {:induction false} NewlinesAtFirstReturn(a: string, b: string)
    requires '\r' !in a
    ensures Newlines(a + ['\r'] + b) == a + ['\n'] + Newlines(AfterReturn(b))
    decreases |a|
  {
    if |a| == 0 {
      assert a + ['\r'] + b == ['\r'] + b;
      NewlinesAtReturn(b);
    } else {
      var t := a[1..] + ['\r'] + b;
      var tail := Newlines(AfterReturn(b));
      assert a + ['\r'] + b == [a[0]] + t;
      NewlinesKeep(a[0], t);
      NewlinesAtFirstReturn(a[1..], b);
      assert Newlines(t) == a[1..] + ['\n'] + tail;
      assert [a[0]] + (a[1..] + ['\n'] + tail) == a + ['\n'] + tail;
    }
  }

  lemma NewlinesAtReturn(b: string)
    ensures Newlines(['\r'] + b) == ['\n'] + Newlines(AfterReturn(b))
  {
    var s := ['\r'] + b;
    assert s[1..] == b;
    if |b| > 0 && b[0] == '\n' {
      assert s[2..] == b[1..];
    }
  }

  lemma NewlinesKeep(x: char, t: string)
    requires x != '\r'
    ensures Newlines([x] + t) == [x] + Newlines(t)
  {
    assert ([x] + t)[1..] == t;
  }
}
