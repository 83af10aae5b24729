/**
  The string operations of Python's `str` that the harvester and the
  classifier rely on: `strip`/`rstrip`, `startswith`, substring search,
  `split`, `replace(p, "")` and the ASCII part of `lower`.
  Strings are sequences of Unicode code points, as Python's are.
  */
module Text {
  import opened Wrappers

  /** The characters for which Python's `str.isspace()` holds: what `strip()` removes. */
  const Whitespace: set<char> := {'\U{20}', '\U{9}', '\U{a}', '\U{b}', '\U{c}', '\U{d}', '\U{1c}', '\U{1d}', '\U{1e}', '\U{1f}', '\U{85}', '\U{a0}', '\U{1680}', '\U{2000}', '\U{2001}', '\U{2002}', '\U{2003}', '\U{2004}', '\U{2005}', '\U{2006}', '\U{2007}', '\U{2008}', '\U{2009}', '\U{200a}', '\U{2028}', '\U{2029}', '\U{202f}', '\U{205f}', '\U{3000}'}

  predicate IsSpace(c: char) {
    c in Whitespace
  }

  /** `s.startswith(p)` */
  predicate StartsWith(s: string, p: string) {
    |p| <= |s| && s[..|p|] == p
  }

  /** `s.endswith(p)` */
  predicate EndsWith(s: string, p: string) {
    |p| <= |s| && s[|s| - |p|..] == p
  }

  /** `p` occurs in `s` starting at index `i`. */
  predicate OccursAt(s: string, p: string, i: nat) {
    i + |p| <= |s| && s[i..i + |p|] == p
  }

  /** `p in s` for strings. */
  predicate Contains(s: string, p: string) {
    exists i: nat | i <= |s| :: OccursAt(s, p, i)
  }

  /** `s.find(p)`: the leftmost index at which `p` occurs, if any. */
  function Find(s: string, p: string): (r: Option<nat>)
    ensures r.Some? ==> OccursAt(s, p, r.value)
    ensures r.Some? ==> forall j: nat :: j < r.value ==> !OccursAt(s, p, j)
    ensures r.None? <==> !Contains(s, p)
    decreases |s|
  {
    if |s| < |p| then
      None
    else if s[..|p|] == p then
      Some(0)
    else
      var rest := Find(s[1..], p);
      assert forall j: nat :: OccursAt(s, p, j + 1) <==> OccursAt(s[1..], p, j) by {
        forall j: nat ensures OccursAt(s, p, j + 1) <==> OccursAt(s[1..], p, j) {
          if j + 1 + |p| <= |s| {
            assert s[j + 1..j + 1 + |p|] == s[1..][j..j + |p|];
          }
        }
      }
      assert !OccursAt(s, p, 0);
      assert forall j: nat :: OccursAt(s, p, j) ==> j > 0 && OccursAt(s[1..], p, j - 1);
      match rest
      case None => None
      case Some(i) => Some(i + 1)
  }

  /** `s.split(sep)`: the pieces between the non-overlapping occurrences of
      `sep`, found from left to right. */
  function Split(s: string, sep: string): (r: seq<string>)
    requires |sep| > 0
    ensures |r| >= 1
    decreases |s|
  {
    match Find(s, sep)
    case None => [s]
    case Some(i) => [s[..i]] + Split(s[i + |sep|..], sep)
  }

  /** `sep.join(pieces)` */
  function Join(pieces: seq<string>, sep: string): string {
    if pieces == [] then ""
    else if |pieces| == 1 then pieces[0]
    else pieces[0] + sep + Join(pieces[1..], sep)
  }

  /** Last element of a non-empty sequence (`xs[-1]`). */
  function Last<T>(xs: seq<T>): T
    requires xs != []
  {
    xs[|xs| - 1]
  }

  /** `s.replace(p, "")`, which is `"".join(s.split(p))`. */
  function RemoveAll(s: string, p: string): string
    requires |p| > 0
  {
    Join(Split(s, p), "")
  }

  /** One step of `Split`: the piece before the leftmost separator, then the rest. */
  lemma SplitStep(s: string, sep: string, i: nat)
    requires |sep| > 0 && Find(s, sep) == Some(i)
    ensures i + |sep| <= |s|
    ensures Split(s, sep) == [s[..i]] + Split(s[i + |sep|..], sep)
    ensures s == s[..i] + sep + s[i + |sep|..]
  {
    SplitAt(s, sep, i);
  }

  lemma SplitAt(s: string, sep: string, i: nat)
    requires OccursAt(s, sep, i)
    ensures s == s[..i] + sep + s[i + |sep|..]
  {
    assert s[i..i + |sep|] == sep;
  }

  /** Joining at least two pieces puts the separator after the first. */
  lemma JoinStep(head: string, tail: seq<string>, sep: string)
    requires tail != []
    ensures Join([head] + tail, sep) == head + sep + Join(tail, sep)
  {
    assert ([head] + tail)[1..] == tail;
  }

  /** Splitting and joining again gives back the string. */
  lemma {:induction false} SplitJoin(s: string, sep: string)
    requires |sep| > 0
    ensures Join(Split(s, sep), sep) == s
    decreases |s|
  {
    var f := Find(s, sep);
    if f.Some? {
      var i := f.value;
      SplitStep(s, sep, i);
      var rest := s[i + |sep|..];
      SplitJoin(rest, sep);
      JoinStep(s[..i], Split(rest, sep), sep);
    }
  }

  /** The part of `s` before the leftmost occurrence of `p` holds no occurrence of `p`. */
  lemma BeforeFirstIsFree(s: string, p: string, i: nat)
    requires |p| > 0 && Find(s, p) == Some(i)
    ensures !Contains(s[..i], p)
  {
    var head := s[..i];
    forall j: nat | j <= |head| && OccursAt(head, p, j) ensures false {
      assert s[j..j + |p|] == head[j..j + |p|];
      assert OccursAt(s, p, j);
    }
  }

  /** No piece of a split contains the separator. */
  lemma {:induction false} SplitPiecesAreFree(s: string, sep: string)
    requires |sep| > 0
    ensures forall k :: 0 <= k < |Split(s, sep)| ==> !Contains(Split(s, sep)[k], sep)
    decreases |s|
  {
    var f := Find(s, sep);
    if f.Some? {
      var i := f.value;
      var rest := s[i + |sep|..];
      SplitPiecesAreFree(rest, sep);
      BeforeFirstIsFree(s, sep, i);
      assert Split(s, sep) == [s[..i]] + Split(rest, sep);
    }
  }

  /** The string splits into more than one piece exactly when it contains the separator. */
  lemma SplitSingle(s: string, sep: string)
    requires |sep| > 0
    ensures Contains(s, sep) <==> |Split(s, sep)| > 1
    ensures !Contains(s, sep) ==> Split(s, sep) == [s]
  {
  }

  /** Joining a non-empty prefix and the last piece. */
  lemma {:induction false} JoinLast(pieces: seq<string>, sep: string)
    requires |pieces| >= 2
    ensures Join(pieces, sep) == Join(pieces[..|pieces| - 1], sep) + sep + Last(pieces)
    decreases |pieces|
  {
    if |pieces| > 2 {
      JoinLast(pieces[1..], sep);
      assert pieces[1..][..|pieces| - 2] == pieces[..|pieces| - 1][1..];
    }
  }

  /** Removing an absent pattern changes nothing. */
  lemma RemoveAbsent(s: string, p: string)
    requires |p| > 0 && !Contains(s, p)
    ensures RemoveAll(s, p) == s
  {
    SplitSingle(s, p);
  }

  /** A leftmost occurrence: nothing before index `|u|` of `u + p + v` can start `p`
      when no character of `u` is the first character of `p`. */
  lemma FindAfterFree(u: string, p: string, v: string)
    requires |p| > 0
    requires forall k :: 0 <= k < |u| ==> u[k] != p[0]
    ensures Find(u + p + v, p) == Some(|u|)
  {
    var s := u + p + v;
    assert OccursAt(s, p, |u|) by { assert s[|u|..|u| + |p|] == p; }
    forall j: nat | j < |u| ensures !OccursAt(s, p, j) {
      assert s[j] == u[j];
    }
  }

  /** The last piece of a split follows the last separator. */
  lemma LastPieceShape(s: string, sep: string)
    requires |sep| > 0 && Contains(s, sep)
    ensures !Contains(Last(Split(s, sep)), sep)
    ensures var pieces := Split(s, sep);
      s == Join(pieces[..|pieces| - 1], sep) + sep + Last(pieces)
    ensures EndsWith(s, sep + Last(Split(s, sep)))
  {
    var pieces := Split(s, sep);
    SplitSingle(s, sep);
    SplitJoin(s, sep);
    SplitPiecesAreFree(s, sep);
    JoinLast(pieces, sep);
    EndsWithTail(Join(pieces[..|pieces| - 1], sep), sep, Last(pieces));
  }

  lemma EndsWithTail(x: string, y: string, z: string)
    ensures EndsWith(x + y + z, y + z)
  {
    assert (x + y + z)[|x|..] == y + z;
  }

  /** The first piece of a split starts the string and is followed by nothing
      or by the separator. */
  lemma FirstPieceShape(s: string, sep: string)
    requires |sep| > 0
    ensures var first := Split(s, sep)[0];
      && !Contains(first, sep)
      && StartsWith(s, first)
      && (|Split(s, sep)| == 1 ==> s == first)
      && (|Split(s, sep)| > 1 ==> StartsWith(s[|first|..], sep))
  {
    match Find(s, sep)
    case None =>
    case Some(i) =>
      SplitStep(s, sep, i);
      BeforeFirstIsFree(s, sep, i);
      assert Split(s, sep)[0] == s[..i];
      assert s[i..][..|sep|] == s[i..i + |sep|];
  }

  /** The text after the last `m` and before the first `q` that follows it
      contains neither; the string ends with `m` and the last piece, and that
      piece is the text followed by nothing or by `q`. */
  lemma BetweenLastAndFirst(s: string, m: string, q: string)
    requires |m| > 0 && |q| > 0 && Contains(s, m)
    ensures var tail := Last(Split(s, m)); var id := Split(tail, q)[0];
      && !Contains(id, q)
      && !Contains(id, m)
      && EndsWith(s, m + tail)
      && StartsWith(tail, id)
      && (|id| == |tail| || StartsWith(tail[|id|..], q))
  {
    var pieces := Split(s, m);
    LastPieceShape(s, m);
    var tail := Last(pieces);
    FirstPieceShape(tail, q);
    var id := Split(tail, q)[0];
    PrefixFree(tail, m, |id|);
    assert tail[..|id|] == id;
  }

  /** A prefix of a string free of `p` is free of `p`. */
  lemma PrefixFree(s: string, p: string, n: nat)
    requires n <= |s| && !Contains(s, p)
    ensures !Contains(s[..n], p)
  {
    forall j: nat | j <= n && OccursAt(s[..n], p, j) ensures false {
      assert s[j..j + |p|] == s[..n][j..j + |p|];
      assert OccursAt(s, p, j);
    }
  }

  /** `s.lstrip()`: drop leading whitespace. */
  function LStrip(s: string): (r: string)
    ensures |r| <= |s|
    decreases |s|
  {
    if s != [] && IsSpace(s[0]) then LStrip(s[1..]) else s
  }

  /** `s.rstrip()`: drop trailing whitespace. */
  function RStrip(s: string): (r: string)
    ensures |r| <= |s|
    decreases |s|
  {
    if s != [] && IsSpace(s[|s| - 1]) then RStrip(s[..|s| - 1]) else s
  }

  /** `s.strip()`: drop leading and trailing whitespace. */
  function Strip(s: string): string
  {
    RStrip(LStrip(s))
  }

  /** `lstrip()` keeps a suffix, removes only whitespace, and leaves none in front. */
  lemma {:induction false} LStripSpec(s: string)
    ensures var r := LStrip(s);
      && r == s[|s| - |r|..]
      && (forall k :: 0 <= k < |s| - |r| ==> IsSpace(s[k]))
      && (r == [] || !IsSpace(r[0]))
    decreases |s|
  {
    if s != [] && IsSpace(s[0]) {
      LStripSpec(s[1..]);
    }
  }

  /** `rstrip()` keeps a prefix, removes only whitespace, and leaves none at the end. */
  lemma {:induction false} RStripSpec(s: string)
    ensures var r := RStrip(s);
      && r == s[..|r|]
      && (forall k :: |r| <= k < |s| ==> IsSpace(s[k]))
      && (r == [] || !IsSpace(r[|r| - 1]))
    decreases |s|
  {
    if s != [] && IsSpace(s[|s| - 1]) {
      RStripSpec(s[..|s| - 1]);
    }
  }

  /** What `strip()` returns is the middle of the string, and only whitespace was
      removed. */
  lemma StripSpec(s: string)
    ensures var r := Strip(s); var a := |s| - |LStrip(s)|;
      && a + |r| <= |s| && r == s[a..a + |r|]
      && (forall k :: 0 <= k < a ==> IsSpace(s[k]))
      && (forall k :: a + |r| <= k < |s| ==> IsSpace(s[k]))
      && (r == [] || (!IsSpace(r[0]) && !IsSpace(r[|r| - 1])))
  {
    var l := LStrip(s);
    LStripSpec(s);
    RStripSpec(l);
    var r := RStrip(l);
    var a := |s| - |l|;
    assert r == s[a..a + |r|];
    if r != [] {
      assert r[0] == l[0];
    }
  }

  /** Stripping a string that has no whitespace at either end changes nothing. */
  lemma StripTrimmed(s: string)
    requires s == [] || (!IsSpace(s[0]) && !IsSpace(s[|s| - 1]))
    ensures Strip(s) == s
  {
    if s != [] {
      assert LStrip(s) == s;
    }
  }

  /** ASCII upper case to lower case (the only case mapping the deny-list can observe). */
  function LowerChar(c: char): char {
    if 'A' <= c <= 'Z' then (c as int + 32) as char else c
  }

  /** `s.lower()`, restricted to ASCII letters. */
  function Lower(s: string): (r: string)
    ensures |r| == |s|
  {
    seq(|s|, i requires 0 <= i < |s| => LowerChar(s[i]))
  }
}
