/**
 * The JavaScript string built-ins the wrapper relies on: `split` with a
 * one-character separator, `Array.prototype.join`, and the regular-expression
 * replacement `replace(/\s+/g, " ")` that turns every run of white space
 * into one space.
 */
module JsStrings {

  /** The characters of the regular-expression class `\s`: the ECMAScript
      WhiteSpace and LineTerminator characters. */
  predicate IsSpace(c: char) {
    var n := c as int;
    n == 0x09 || n == 0x0A || n == 0x0B || n == 0x0C || n == 0x0D || n == 0x20
    || n == 0xA0 || n == 0x1680 || (0x2000 <= n <= 0x200A) || n == 0x2028
    || n == 0x2029 || n == 0x202F || n == 0x205F || n == 0x3000 || n == 0xFEFF
  }

  /** A string that holds no white space at all. */
  predicate NoSpace(s: string) {
    forall i :: 0 <= i < |s| ==> !IsSpace(s[i])
  }

  /** A non-empty run of characters that are not white space. */
  predicate Word(w: string) {
    |w| > 0 && NoSpace(w)
  }

  /** A non-empty run of white space. */
  predicate Gap(g: string) {
    |g| > 0 && forall i :: 0 <= i < |g| ==> IsSpace(g[i])
  }

  /** `s` ends where it is, or white space follows: a word before it is maximal. */
  predicate AtBoundary(s: string) {
    s == [] || IsSpace(s[0])
  }

  /** The only white space in `s` is the plain space. */
  predicate OnlyBlanks(s: string) {
    forall i :: 0 <= i < |s| && IsSpace(s[i]) ==> s[i] == ' '
  }

  /** No two spaces in a row. */
  predicate NoDoubleSpace(s: string) {
    |s| < 2 || ((s[0] != ' ' || s[1] != ' ') && NoDoubleSpace(s[1..]))
  }

  predicate StartsWith(s: string, prefix: string) {
    |prefix| <= |s| && s[..|prefix|] == prefix
  }

  /** `parts.join(sep)`: the empty array joins to the empty string. */
  function Join(parts: seq<string>, sep: string): string {
    if |parts| == 0 then ""
    else if |parts| == 1 then parts[0]
    else parts[0] + sep + Join(parts[1..], sep)
  }

  /** `s.split(sep)` for a one-character separator: always at least one
      part, and no part holds the separator. */
  function Split(s: string, sep: char): (parts: seq<string>)
    ensures |parts| >= 1
    ensures forall i :: 0 <= i < |parts| ==> sep !in parts[i]
  {
    if s == [] then [[]]
    else
      var rest := Split(s[1..], sep);
      if s[0] == sep then [[]] + rest
      else [[s[0]] + rest[0]] + rest[1..]
  }

  /** A split has one more part than the string has separators. */
  lemma {:induction false} SplitCount(s: string, sep: char)
    ensures |Split(s, sep)| == multiset(s)[sep] + 1
    decreases |s|
  {
    if s != [] {
      SplitCount(s[1..], sep);
      assert s == [s[0]] + s[1..];
    }
  }

  /** Joining the parts of a split gives the string back. */
  lemma {:induction false} JoinSplit(s: string, sep: char)
    ensures Join(Split(s, sep), [sep]) == s
    decreases |s|
  {
    if s != [] {
      var rest := Split(s[1..], sep);
      var parts := Split(s, sep);
      JoinSplit(s[1..], sep);
      assert s == [s[0]] + s[1..];
      if s[0] == sep {
        assert parts == [[]] + rest && parts[1..] == rest;
        calc {
          Join(parts, [sep]);
          [] + [sep] + Join(rest, [sep]);
          [sep] + s[1..];
        }
      } else if |rest| == 1 {
        assert parts == [[s[0]] + rest[0]];
        assert Join(rest, [sep]) == rest[0];
      } else {
        assert parts == [[s[0]] + rest[0]] + rest[1..] && parts[1..] == rest[1..];
        calc {
          Join(parts, [sep]);
          ([s[0]] + rest[0]) + [sep] + Join(rest[1..], [sep]);
          [s[0]] + (rest[0] + [sep] + Join(rest[1..], [sep]));
          [s[0]] + Join(rest, [sep]);
        }
      }
    }
  }

  /** Every character of a part of a split comes from the string split. */
  lemma {:induction false} SplitParts(s: string, sep: char, i: nat)
    requires i < |Split(s, sep)|
    ensures multiset(Split(s, sep)[i]) <= multiset(s)
    decreases |s|
  {
    if s != [] {
      var rest := Split(s[1..], sep);
      assert s == [s[0]] + s[1..];
      if s[0] == sep {
        if i > 0 { SplitParts(s[1..], sep, i - 1); }
      } else if i == 0 {
        SplitParts(s[1..], sep, 0);
        assert Split(s, sep)[0] == [s[0]] + rest[0];
      } else {
        SplitParts(s[1..], sep, i);
      }
    }
  }

  /** The characters of `s` up to the first one that is not white space. */
  function DropSpaces(s: string): (r: string)
    ensures |r| <= |s| && r == s[|s| - |r|..]
    ensures AtBoundary(r) ==> r == []
  {
    if s != [] && IsSpace(s[0]) then DropSpaces(s[1..]) else s
  }

  /** `s.replace(/\s+/g, " ")`: every maximal run of white space becomes one
      space. The result holds no white space other than single spaces, and it
      starts with a space exactly when `s` starts with white space. */
  function Collapse(s: string): (r: string)
    ensures |r| <= |s| && (r == [] <==> s == [])
    ensures s != [] ==> (r[0] == ' ' <==> IsSpace(s[0]))
    decreases |s|
  {
    if s == [] then []
    else if IsSpace(s[0]) then [' '] + Collapse(DropSpaces(s[1..]))
    else [s[0]] + Collapse(s[1..])
  }

  /** The only white space the collapse leaves is the plain space. */
  lemma {:induction false} CollapseOnlyBlanks(s: string)
    ensures OnlyBlanks(Collapse(s))
    decreases |s|
  {
    if s == [] {
    } else if IsSpace(s[0]) {
      CollapseOnlyBlanks(DropSpaces(s[1..]));
    } else {
      CollapseOnlyBlanks(s[1..]);
    }
  }

  /** The collapse never leaves two spaces in a row. */
  lemma {:induction false} CollapseSingleSpaced(s: string)
    ensures NoDoubleSpace(Collapse(s))
    decreases |s|
  {
    if s == [] {
    } else if IsSpace(s[0]) {
      var c := Collapse(DropSpaces(s[1..]));
      CollapseSingleSpaced(DropSpaces(s[1..]));
      assert ([' '] + c)[1..] == c;
    } else {
      var c := Collapse(s[1..]);
      CollapseSingleSpaced(s[1..]);
      assert ([s[0]] + c)[1..] == c;
    }
  }

  /** The characters of `s` that are not white space, in order. */
  function Text(s: string): string {
    if s == [] then [] else (if IsSpace(s[0]) then [] else [s[0]]) + Text(s[1..])
  }

  lemma {:induction false} TextAppend(a: string, b: string)
    ensures Text(a + b) == Text(a) + Text(b)
    decreases |a|
  {
    if a != [] {
      assert (a + b)[1..] == a[1..] + b;
      TextAppend(a[1..], b);
    } else {
      assert a + b == b;
    }
  }

  lemma {:induction false} TextOfSpaces(s: string)
    ensures Text(s) == Text(DropSpaces(s))
    decreases |s|
  {
    if s != [] && IsSpace(s[0]) {
      TextOfSpaces(s[1..]);
    }
  }

  /** Collapsing changes only white space: the other characters survive, in order. */
  lemma {:induction false} CollapseKeepsText(s: string)
    ensures Text(Collapse(s)) == Text(s)
    decreases |s|
  {
    if s == [] {
    } else if IsSpace(s[0]) {
      var d := DropSpaces(s[1..]);
      TextAppend([' '], Collapse(d));
      CollapseKeepsText(d);
      TextOfSpaces(s[1..]);
    } else {
      TextAppend([s[0]], Collapse(s[1..]));
      CollapseKeepsText(s[1..]);
    }
  }

  /** Collapsing twice is collapsing once. */
  lemma {:induction false} CollapseIdempotent(s: string)
    ensures Collapse(Collapse(s)) == Collapse(s)
    decreases |s|
  {
    if s == [] {
    } else if IsSpace(s[0]) {
      var c := Collapse(DropSpaces(s[1..]));
      assert Collapse(s) == [' '] + c;
      assert ([' '] + c)[1..] == c;
      assert DropSpaces(c) == c;
      CollapseIdempotent(DropSpaces(s[1..]));
    } else {
      var c := Collapse(s[1..]);
      assert ([s[0]] + c)[1..] == c;
      CollapseIdempotent(s[1..]);
    }
  }

  lemma {:induction false} DropGap(g: string, t: string)
    requires forall i :: 0 <= i < |g| ==> IsSpace(g[i])
    requires t == [] || !IsSpace(t[0])
    ensures DropSpaces(g + t) == t
    decreases |g|
  {
    if g == [] {
      assert g + t == t;
    } else {
      assert (g + t)[1..] == g[1..] + t;
      DropGap(g[1..], t);
    }
  }

  /** A word passes through the collapse unchanged. */
  lemma {:induction false} CollapseWord(w: string, t: string)
    requires NoSpace(w)
    ensures Collapse(w + t) == w + Collapse(t)
    decreases |w|
  {
    if w == [] {
      assert w + t == t;
    } else {
      assert (w + t)[1..] == w[1..] + t;
      CollapseWord(w[1..], t);
    }
  }

  /** A gap followed by a non-space (or by nothing) collapses to one space. */
  lemma CollapseGap(g: string, t: string)
    requires Gap(g)
    requires t == [] || !IsSpace(t[0])
    ensures Collapse(g + t) == [' '] + Collapse(t)
  {
    assert (g + t)[1..] == g[1..] + t;
    DropGap(g[1..], t);
  }

  /** Splitting text that starts with a separator-free prefix `w`: `w` is
      glued to the first part of the rest. */
  lemma {:induction false} SplitPrefix(w: string, t: string, sep: char)
    requires sep !in w
    ensures Split(w + t, sep) == [w + Split(t, sep)[0]] + Split(t, sep)[1..]
    decreases |w|
  {
    var tail := Split(t, sep);
    if w == [] {
      assert w + t == t && w + tail[0] == tail[0];
      assert tail == [tail[0]] + tail[1..];
    } else {
      assert (w + t)[1..] == w[1..] + t;
      SplitPrefix(w[1..], t, sep);
      var rest := Split(w[1..] + t, sep);
      assert rest[0] == w[1..] + tail[0] && rest[1..] == tail[1..];
      assert Split(w + t, sep) == [[w[0]] + rest[0]] + rest[1..];
      assert [w[0]] + (w[1..] + tail[0]) == w + tail[0];
    }
  }

  lemma SplitAfter(w: string, t: string, sep: char)
    requires sep !in w
    ensures Split(w + ([sep] + t), sep) == [w] + Split(t, sep)
  {
    SplitPrefix(w, [sep] + t, sep);
    assert ([sep] + t)[1..] == t;
    var u := Split([sep] + t, sep);
    assert u == [[]] + Split(t, sep);
    assert u[0] == [] && u[1..] == Split(t, sep);
    assert w + u[0] == w;
  }

  /** Splitting undoes joining when no part holds the separator. */
  lemma {:induction false} SplitJoin(parts: seq<string>, sep: char)
    requires |parts| >= 1
    requires forall i :: 0 <= i < |parts| ==> sep !in parts[i]
    ensures Split(Join(parts, [sep]), sep) == parts
    decreases |parts|
  {
    if |parts| == 1 {
      SplitPrefix(parts[0], [], sep);
      assert parts[0] + [] == parts[0];
    } else {
      SplitAfter(parts[0], Join(parts[1..], [sep]), sep);
      assert Join(parts, [sep]) == parts[0] + ([sep] + Join(parts[1..], [sep]));
      SplitJoin(parts[1..], sep);
      assert parts == [parts[0]] + parts[1..];
    }
  }

  /** Joining a concatenation of two non-empty lists puts one separator between them. */
  lemma {:induction false} JoinAppend(a: seq<string>, b: seq<string>, sep: string)
    requires |a| > 0 && |b| > 0
    ensures Join(a + b, sep) == Join(a, sep) + sep + Join(b, sep)
    decreases |a|
  {
    if |a| == 1 {
      assert (a + b)[1..] == b;
    } else {
      assert (a + b)[1..] == a[1..] + b;
      JoinAppend(a[1..], b, sep);
    }
  }
}
