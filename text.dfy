/** The string operations the analyzer relies on: Python 2's `str.split()` and
    `str.split(sep)`, `''.join`, and POSIX `os.path.join` / `os.path.basename`. */
module Text {

  /** The characters Python 2's `str.split()` treats as whitespace. */
  predicate IsSpace(c: char) {
    c == ' ' || c == '\t' || c == '\n' || c == '\r' || c == '\U{000B}' || c == '\U{000C}'
  }

  predicate NoSpace(t: string) {
    forall k :: 0 <= k < |t| ==> !IsSpace(t[k])
  }

  predicate AllSpace(t: string) {
    forall k :: 0 <= k < |t| ==> IsSpace(t[k])
  }

  /** `''.join(ss)`. */
  function Concat(ss: seq<string>): string {
    if |ss| == 0 then "" else ss[0] + Concat(ss[1..])
  }

  lemma {:induction false} ConcatAppend(ss: seq<string>, t: string)
    ensures Concat(ss + [t]) == Concat(ss) + t
  {
    if |ss| > 0 {
      assert (ss + [t])[1..] == ss[1..] + [t];
      ConcatAppend(ss[1..], t);
    }
  }

  /** The characters of s other than c, in order. */
  function Remove(s: string, c: char): string {
    if |s| == 0 then "" else (if s[0] == c then "" else [s[0]]) + Remove(s[1..], c)
  }

  lemma {:induction false} RemoveConcat(a: string, b: string, c: char)
    ensures Remove(a + b, c) == Remove(a, c) + Remove(b, c)
  {
    if |a| > 0 {
      assert (a + b)[1..] == a[1..] + b;
      RemoveConcat(a[1..], b, c);
    } else {
      assert a + b == b;
    }
  }

  lemma {:induction false} RemoveAbsent(s: string, c: char)
    requires c !in s
    ensures Remove(s, c) == s
  {
    if |s| > 0 {
      RemoveAbsent(s[1..], c);
    }
  }

  // ---------------------------------------------------------------------------
  // str.split() with no argument: runs of whitespace separate the tokens and
  // leading or trailing whitespace yields no empty token.

  /** Length of the run of non-space characters at the start of s. */
  function TokenLength(s: string): (n: nat)
    ensures n <= |s|
    ensures forall k :: 0 <= k < n ==> !IsSpace(s[k])
    ensures n < |s| ==> IsSpace(s[n])
  {
    if |s| == 0 || IsSpace(s[0]) then 0 else 1 + TokenLength(s[1..])
  }

  /** `s.split()`: every token is non-empty and holds no whitespace. */
  function Split(s: string): (r: seq<string>)
    ensures forall k :: 0 <= k < |r| ==> |r[k]| > 0 && NoSpace(r[k])
    decreases |s|
  {
    if |s| == 0 then []
    else if IsSpace(s[0]) then Split(s[1..])
    else
      var n := TokenLength(s);
      [s[..n]] + Split(s[n..])
  }

  /** The non-space characters of s, in order. */
  function StripSpace(s: string): string {
    if |s| == 0 then "" else (if IsSpace(s[0]) then "" else [s[0]]) + StripSpace(s[1..])
  }

  lemma {:induction false} StripSpaceConcat(a: string, b: string)
    ensures StripSpace(a + b) == StripSpace(a) + StripSpace(b)
  {
    if |a| > 0 {
      assert (a + b)[1..] == a[1..] + b;
      StripSpaceConcat(a[1..], b);
    } else {
      assert a + b == b;
    }
  }

  lemma {:induction false} StripNoSpace(t: string)
    requires NoSpace(t)
    ensures StripSpace(t) == t
  {
    if |t| > 0 {
      StripNoSpace(t[1..]);
    }
  }

  /** Splitting loses only the whitespace: the tokens, concatenated, are the
      line with its whitespace removed. */
  lemma {:induction false} SplitKeepsText(s: string)
    ensures Concat(Split(s)) == StripSpace(s)
    decreases |s|
  {
    if |s| == 0 {
    } else if IsSpace(s[0]) {
      SplitKeepsText(s[1..]);
    } else {
      var n := TokenLength(s);
      assert s == s[..n] + s[n..];
      SplitKeepsText(s[n..]);
      StripSpaceConcat(s[..n], s[n..]);
      StripNoSpace(s[..n]);
      assert ([s[..n]] + Split(s[n..]))[1..] == Split(s[n..]);
    }
  }

  /** A line splits into no token at all exactly when it is blank. */
  lemma {:induction false} SplitEmptyIffBlank(s: string)
    ensures Split(s) == [] <==> AllSpace(s)
    decreases |s|
  {
    if |s| > 0 && IsSpace(s[0]) {
      SplitEmptyIffBlank(s[1..]);
      assert AllSpace(s[1..]) ==> AllSpace(s) by {
        if AllSpace(s[1..]) {
          forall k | 0 <= k < |s| ensures IsSpace(s[k]) {
            if k > 0 { assert s[k] == s[1..][k - 1]; }
          }
        }
      }
    }
  }

  lemma {:induction false} TokenLengthWord(t: string)
    requires NoSpace(t)
    ensures TokenLength(t) == |t|
  {
    if |t| > 0 {
      TokenLengthWord(t[1..]);
    }
  }

  /** A first token that ends inside `a` (or at a whitespace character that
      follows it) is not lengthened by what comes after. */
  lemma {:induction false} TokenLengthConcat(a: string, t: string)
    requires TokenLength(a) < |a| || (|t| > 0 && IsSpace(t[0]))
    ensures TokenLength(a + t) == TokenLength(a)
  {
    if |a| > 0 && !IsSpace(a[0]) {
      assert (a + t)[1..] == a[1..] + t;
      TokenLengthConcat(a[1..], t);
    }
  }

  /** A non-empty word without whitespace is one token. */
  lemma SplitWord(t: string)
    requires |t| > 0 && NoSpace(t)
    ensures Split(t) == [t]
  {
    TokenLengthWord(t);
    assert t[..|t|] == t;
    assert Split(t[|t|..]) == [];
  }

  /** Every whitespace character cuts: what lies on either side of it splits
      on its own. With `Split("") == []` and SplitWord this fixes Split. */
  lemma {:induction false} SplitAtSpace(a: string, c: char, b: string)
    requires IsSpace(c)
    ensures Split(a + [c] + b) == Split(a) + Split(b)
    decreases |a|
  {
    var s := a + [c] + b;
    if |a| == 0 {
      assert s[1..] == b;
      assert Split(s) == Split(b);
    } else if IsSpace(a[0]) {
      assert s[1..] == a[1..] + [c] + b;
      SplitAtSpace(a[1..], c, b);
      assert Split(s) == Split(s[1..]);
    } else {
      var n := TokenLength(a);
      TokenLengthConcat(a, [c] + b);
      assert s == a + ([c] + b);
      assert TokenLength(s) == n;
      assert s[..n] == a[..n];
      assert s[n..] == a[n..] + [c] + b;
      SplitAtSpace(a[n..], c, b);
      assert Split(s) == [s[..n]] + Split(s[n..]);
      assert Split(a) == [a[..n]] + Split(a[n..]);
    }
  }

  // ---------------------------------------------------------------------------
  // os.path on POSIX.

  /** Position of the last c in s, or -1 when there is none (`str.rfind`). */
  function LastIndexOf(s: string, c: char): (i: int)
    ensures -1 <= i < |s|
    ensures i >= 0 ==> s[i] == c
    ensures forall k :: i < k < |s| ==> s[k] != c
  {
    if |s| == 0 then -1
    else if s[|s| - 1] == c then |s| - 1
    else LastIndexOf(s[..|s| - 1], c)
  }

  /** `os.path.join(a, b)`: an absolute b replaces a; otherwise one '/' is
      inserted unless a is empty or already ends in '/'. */
  function Join(a: string, b: string): string {
    if |b| > 0 && b[0] == '/' then b
    else if |a| == 0 || a[|a| - 1] == '/' then a + b
    else a + "/" + b
  }

  /** `os.path.basename(p)`: everything after the last '/'. */
  function Basename(p: string): (r: string)
    ensures '/' !in r
    ensures |r| <= |p| && p[|p| - |r|..] == r
  {
    p[LastIndexOf(p, '/') + 1..]
  }

  /** The basename is the longest suffix without a '/': a shorter path part
      remains only when a '/' precedes it. */
  lemma BasenameIsLongest(p: string)
    ensures var r := Basename(p); |r| < |p| ==> p[|p| - |r| - 1] == '/'
  {
  }

  /** The name joined onto a directory is what basename gives back. */
  lemma BasenameOfJoin(dir: string, name: string)
    requires '/' !in name
    ensures Basename(Join(dir, name)) == name
  {
    var p := Join(dir, name);
    var i := LastIndexOf(p, '/');
    var front := if |dir| == 0 || dir[|dir| - 1] == '/' then dir else dir + "/";
    assert p == front + name;
    if |front| > 0 {
      assert p[|front| - 1] == '/';
      assert i >= |front| - 1;
    }
    assert i == |front| - 1;
  }

  /** `s.split(sep)` for a one-character separator: always at least one
      piece, and no piece holds the separator. */
  function SplitOn(s: string, sep: char): (r: seq<string>)
    ensures |r| >= 1
    ensures forall k :: 0 <= k < |r| ==> sep !in r[k]
    decreases |s|
  {
    var i := LastIndexOf(s, sep);
    if i < 0 then [s] else SplitOn(s[..i], sep) + [s[i + 1..]]
  }

  /** `sep.join(ps)`. */
  function JoinWith(ps: seq<string>, sep: char): string
    requires |ps| >= 1
  {
    if |ps| == 1 then ps[0] else JoinWith(ps[..|ps| - 1], sep) + [sep] + ps[|ps| - 1]
  }

  /** Splitting on a separator and joining the pieces back with it restores
      the string. */
  lemma {:induction false} SplitOnRoundTrip(s: string, sep: char)
    ensures JoinWith(SplitOn(s, sep), sep) == s
    decreases |s|
  {
    var i := LastIndexOf(s, sep);
    if i >= 0 {
      var ps := SplitOn(s[..i], sep);
      SplitOnRoundTrip(s[..i], sep);
      assert (ps + [s[i + 1..]])[..|ps|] == ps;
      assert s == s[..i] + [sep] + s[i + 1..];
    }
  }

  /** Joining the pieces of `s.split(sep)` with no separator drops every sep. */
  lemma {:induction false} ConcatSplitOn(s: string, sep: char)
    ensures Concat(SplitOn(s, sep)) == Remove(s, sep)
    decreases |s|
  {
    var i := LastIndexOf(s, sep);
    if i < 0 {
      assert sep !in s by {
        forall k | 0 <= k < |s| ensures s[k] != sep { }
      }
      RemoveAbsent(s, sep);
      assert [s][1..] == [];
    } else {
      var front, back := s[..i], s[i + 1..];
      assert sep !in back by {
        forall k | 0 <= k < |back| ensures back[k] != sep { assert back[k] == s[i + 1 + k]; }
      }
      ConcatSplitOn(front, sep);
      ConcatAppend(SplitOn(front, sep), back);
      RemoveAroundSeparator(s, i, sep);
    }
  }

  lemma {:induction false} RemoveAroundSeparator(s: string, i: nat, sep: char)
    requires i < |s| && s[i] == sep && sep !in s[i + 1..]
    ensures Remove(s, sep) == Remove(s[..i], sep) + s[i + 1..]
  {
    var front, tail, back := s[..i], s[i..], s[i + 1..];
    assert s == front + tail;
    RemoveConcat(front, tail, sep);
    assert tail[0] == sep && tail[1..] == back;
    RemoveAbsent(back, sep);
  }

  /** The separator right before a separator-free tail is the last one. */
  lemma LastIndexBeforeTail(x: string, c: char, y: string)
    requires c !in y
    ensures LastIndexOf(x + [c] + y, c) == |x|
  {
    var s := x + [c] + y;
    var i := LastIndexOf(s, c);
    assert s[|x|] == c;
  }

  /** `''.join(fn.split('.')[:-1])`: the pieces before the last one, glued
      together without dots. */
  function DropExtension(fn: string): string {
    var ps := SplitOn(fn, '.');
    Concat(ps[..|ps| - 1])
  }

  /** DropExtension keeps what precedes the last '.', minus all its dots, and
      yields nothing when there is no '.'. */
  lemma DropExtensionIsPrefixWithoutDots(fn: string)
    ensures '.' in fn ==> DropExtension(fn) == Remove(fn[..LastIndexOf(fn, '.')], '.')
    ensures '.' !in fn ==> DropExtension(fn) == ""
  {
    var i := LastIndexOf(fn, '.');
    if i >= 0 {
      var ps := SplitOn(fn[..i], '.');
      assert (ps + [fn[i + 1..]])[..|ps|] == ps;
      ConcatSplitOn(fn[..i], '.');
    } else {
      assert forall k :: 0 <= k < |fn| ==> fn[k] != '.';
    }
  }
}

