/** String operations the core borrows from Rust's `str`: substring search
    (`contains`), lower-casing (`to_lowercase`, over ASCII), trimming (`trim`, with
    Rust's Unicode White_Space set) and line splitting (`lines`). */
module Text {

  // ---------------------------------------------------------------------------
  // Substring search
  // ---------------------------------------------------------------------------

  /** `p` occurs in `s` starting at index `i`. */
  predicate OccursAt(s: string, p: string, i: nat)
  {
    i + |p| <= |s| && s[i..i + |p|] == p
  }

  /** Rust's `str::contains` with a string pattern (the empty pattern is everywhere). */
  predicate Contains(s: string, p: string)
  {
    exists i: nat | i <= |s| - |p| :: OccursAt(s, p, i)
  }

  /** A pattern with a character that `s` lacks does not occur in `s`. */
  lemma NotContainsByChar(s: string, p: string, c: char)
    requires c in p && c !in s
    ensures !Contains(s, p)
  {
    forall i: nat | i + |p| <= |s| ensures !OccursAt(s, p, i) {
      var j :| 0 <= j < |p| && p[j] == c;
      assert s[i..i + |p|][j] == s[i + j];
    }
  }

  /** If two adjacent characters of `p` never stand side by side in `s`, then `p`
      does not occur in `s`. Used to refute concrete substring facts. */
  lemma NotContainsByPair(s: string, p: string, j: nat)
    requires j + 1 < |p|
    requires forall i :: 0 <= i < |s| - 1 ==> !(s[i] == p[j] && s[i + 1] == p[j + 1])
    ensures !Contains(s, p)
  {
    forall i: nat | i + |p| <= |s| ensures !OccursAt(s, p, i) {
      assert s[i..i + |p|][j] == s[i + j] && s[i..i + |p|][j + 1] == s[i + j + 1];
    }
  }

  /** No character of `s` is in `cs`. */
  predicate Avoids(s: string, cs: set<char>)
  {
    forall i :: 0 <= i < |s| ==> s[i] !in cs
  }

  /** No two adjacent characters of `s` form a pair in `ps`. */
  predicate AvoidsPairs(s: string, ps: set<(char, char)>)
  {
    forall i :: 0 <= i < |s| - 1 ==> (s[i], s[i + 1]) !in ps
  }

  /** A pattern holding a character `s` avoids does not occur in `s`. */
  lemma NotContainsAvoided(s: string, p: string, j: nat, cs: set<char>)
    requires Avoids(s, cs) && j < |p| && p[j] in cs
    ensures !Contains(s, p)
  {
    NotContainsByChar(s, p, p[j]);
  }

  /** A pattern holding a pair of adjacent characters `s` avoids does not occur in `s`. */
  lemma NotContainsAvoidedPair(s: string, p: string, j: nat, ps: set<(char, char)>)
    requires AvoidsPairs(s, ps) && j + 1 < |p| && (p[j], p[j + 1]) in ps
    ensures !Contains(s, p)
  {
    NotContainsByPair(s, p, j);
  }

  /** Avoidance of characters and of pairs carries over to a concatenation whose
      seam is no avoided pair. */
  lemma AvoidsAppend(a: string, b: string, cs: set<char>, ps: set<(char, char)>)
    requires Avoids(a, cs) && Avoids(b, cs) && AvoidsPairs(a, ps) && AvoidsPairs(b, ps)
    requires a != [] && b != [] ==> (a[|a| - 1], b[0]) !in ps
    ensures Avoids(a + b, cs) && AvoidsPairs(a + b, ps)
  {
    var s := a + b;
    forall i | 0 <= i < |s| - 1 ensures (s[i], s[i + 1]) !in ps {
      if i + 1 < |a| {
        assert s[i] == a[i] && s[i + 1] == a[i + 1];
      } else if i >= |a| {
        assert s[i] == b[i - |a|] && s[i + 1] == b[i - |a| + 1];
      }
    }
  }

  /** A pattern in either part of a concatenation is in the concatenation. */
  lemma ContainsAppend(a: string, b: string, p: string)
    ensures Contains(a, p) || Contains(b, p) ==> Contains(a + b, p)
  {
    if Contains(a, p) {
      var i: nat :| i <= |a| - |p| && OccursAt(a, p, i);
      assert (a + b)[i..i + |p|] == a[i..i + |p|];
      assert OccursAt(a + b, p, i);
    } else if Contains(b, p) {
      var i: nat :| i <= |b| - |p| && OccursAt(b, p, i);
      assert (a + b)[|a| + i..|a| + i + |p|] == b[i..i + |p|];
      assert OccursAt(a + b, p, |a| + i);
    }
  }

  /** The same for three parts. */
  lemma ContainsAppend3(a: string, b: string, c: string, p: string)
    ensures Contains(a, p) || Contains(b, p) || Contains(c, p) ==> Contains(a + b + c, p)
  {
    ContainsAppend(a, b, p);
    ContainsAppend(a + b, c, p);
  }

  // ---------------------------------------------------------------------------
  // Lower-casing
  // ---------------------------------------------------------------------------

  predicate IsAsciiUpper(c: char)
  {
    'A' <= c <= 'Z'
  }

  /** Rust's `char::to_lowercase`, restricted to ASCII: other characters are kept. */
  function LowerChar(c: char): (r: char)
    ensures !IsAsciiUpper(r)
    ensures !IsAsciiUpper(c) ==> r == c
  {
    if IsAsciiUpper(c) then (c as int + 32) as char else c
  }

  /** `str::to_lowercase` over ASCII: maps every character by LowerChar. */
  function Lower(s: string): (r: string)
    ensures |r| == |s|
    ensures forall i :: 0 <= i < |s| ==> r[i] == LowerChar(s[i])
  {
    seq(|s|, i requires 0 <= i < |s| => LowerChar(s[i]))
  }

  lemma LowerIdempotent(s: string)
    ensures Lower(Lower(s)) == Lower(s)
  {
    var l := Lower(s);
    assert forall i :: 0 <= i < |l| ==> Lower(l)[i] == l[i];
  }

  /** Pointwise characterisation, for evaluating Lower on a concrete string. */
  lemma LowerIs(s: string, t: string)
    requires |s| == |t|
    requires forall i :: 0 <= i < |s| ==> LowerChar(s[i]) == t[i]
    ensures Lower(s) == t
  {
  }

  lemma LowerAppend(a: string, b: string)
    ensures Lower(a + b) == Lower(a) + Lower(b)
  {
    assert forall i :: 0 <= i < |a + b| ==> Lower(a + b)[i] == (Lower(a) + Lower(b))[i];
  }

  // ---------------------------------------------------------------------------
  // Trimming
  // ---------------------------------------------------------------------------

  /** Rust's `char::is_whitespace`: the Unicode White_Space property. */
  predicate IsWhitespace(c: char)
  {
    || '\t' <= c <= '\r'
    || c == ' '
    || c == '\U{0085}'
    || c == '\U{00A0}'
    || c == '\U{1680}'
    || '\U{2000}' <= c <= '\U{200A}'
    || c == '\U{2028}'
    || c == '\U{2029}'
    || c == '\U{202F}'
    || c == '\U{205F}'
    || c == '\U{3000}'
  }

  predicate IsBlank(s: string)
  {
    forall i :: 0 <= i < |s| ==> IsWhitespace(s[i])
  }

  /** Length of the longest all-whitespace prefix. */
  function LeadingWhitespace(s: string): (n: nat)
    ensures n <= |s|
  {
    if s == [] || !IsWhitespace(s[0]) then 0 else 1 + LeadingWhitespace(s[1..])
  }

  /** Length of the longest all-whitespace suffix. */
  function TrailingWhitespace(s: string): (n: nat)
    ensures n <= |s|
  {
    if s == [] || !IsWhitespace(s[|s| - 1]) then 0
    else 1 + TrailingWhitespace(s[..|s| - 1])
  }

  /** The prefix LeadingWhitespace measures is whitespace and cannot be longer. */
  lemma {:induction false} LeadingWhitespaceSpec(s: string)
    ensures forall i :: 0 <= i < LeadingWhitespace(s) ==> IsWhitespace(s[i])
    ensures LeadingWhitespace(s) < |s| ==> !IsWhitespace(s[LeadingWhitespace(s)])
  {
    if s != [] && IsWhitespace(s[0]) {
      LeadingWhitespaceSpec(s[1..]);
    }
  }

  /** The suffix TrailingWhitespace measures is whitespace and cannot be longer. */
  lemma {:induction false} TrailingWhitespaceSpec(s: string)
    ensures forall i :: |s| - TrailingWhitespace(s) <= i < |s| ==> IsWhitespace(s[i])
    ensures TrailingWhitespace(s) < |s| ==> !IsWhitespace(s[|s| - 1 - TrailingWhitespace(s)])
  {
    if s != [] && IsWhitespace(s[|s| - 1]) {
      TrailingWhitespaceSpec(s[..|s| - 1]);
    }
  }

  /** Rust's `str::trim`: `s` without its leading and trailing whitespace. */
  function Trim(s: string): string
  {
    var rest := s[LeadingWhitespace(s)..];
    rest[..|rest| - TrailingWhitespace(rest)]
  }

  /** Trim removes exactly the whitespace at both ends: the result occurs in `s`,
      everything around it is whitespace, and it neither starts nor ends with
      whitespace; it is empty exactly for a blank `s`. */
  lemma TrimSpec(s: string)
    ensures Trim(s) == [] <==> IsBlank(s)
    ensures Trim(s) != [] ==> !IsWhitespace(Trim(s)[0]) && !IsWhitespace(Trim(s)[|Trim(s)| - 1])
    ensures exists a: nat ::
      && OccursAt(s, Trim(s), a)
      && (forall i :: 0 <= i < a ==> IsWhitespace(s[i]))
      && (forall i :: a + |Trim(s)| <= i < |s| ==> IsWhitespace(s[i]))
  {
    var a := LeadingWhitespace(s);
    var rest := s[a..];
    LeadingWhitespaceSpec(s);
    TrailingWhitespaceSpec(rest);
    var t := Trim(s);
    assert t == s[a..a + |t|];
    assert OccursAt(s, t, a);
    if t == [] {
      assert |rest| - TrailingWhitespace(rest) == 0;
    } else {
      assert !IsWhitespace(s[a]);
      assert t[0] == s[a];
    }
  }

  lemma TrimIdempotent(s: string)
    ensures Trim(Trim(s)) == Trim(s)
  {
    var t := Trim(s);
    TrimSpec(s);
    if t != [] {
      LeadingWhitespaceSpec(t);
      assert LeadingWhitespace(t) == 0;
      assert t[0..] == t;
      TrailingWhitespaceSpec(t);
      assert TrailingWhitespace(t) == 0;
    }
  }

  // ---------------------------------------------------------------------------
  // Line splitting
  // ---------------------------------------------------------------------------

  /** Index of the first `c` in `s`, or `|s|` when there is none. */
  function IndexOf(s: string, c: char): (n: nat)
    ensures n <= |s|
    ensures forall i :: 0 <= i < n ==> s[i] != c
    ensures n < |s| ==> s[n] == c
  {
    if s == [] || s[0] == c then 0 else 1 + IndexOf(s[1..], c)
  }

  /** Drops one trailing carriage return, as `lines` does for "\r\n" endings. */
  function StripCr(line: string): (r: string)
    ensures r == line || (line == r + ['\r'])
  {
    if line != [] && line[|line| - 1] == '\r' then line[..|line| - 1] else line
  }

  /** Rust's `str::lines`: split at each "\n" (a "\r" right before it is dropped);
      the final line ending is optional and does not start an extra empty line. */
  function Lines(s: string): (r: seq<string>)
    ensures forall i :: 0 <= i < |r| ==> '\n' !in r[i]
    ensures r == [] <==> s == []
    decreases |s|
  {
    if s == [] then []
    else
      var n := IndexOf(s, '\n');
      if n == |s| then [s] else [StripCr(s[..n])] + Lines(s[n + 1..])
  }

  /** Joins lines with "\n" between them, the inverse of `Lines` up to line endings. */
  function JoinLines(ls: seq<string>): string
  {
    if ls == [] then [] else if |ls| == 1 then ls[0] else ls[0] + "\n" + JoinLines(ls[1..])
  }

  /** Drops every "\r" that stands right before a "\n". */
  function StripLineCrs(s: string): (r: string)
    ensures |r| <= |s|
    ensures r == [] <==> s == []
  {
    if s == [] then []
    else if |s| >= 2 && s[0] == '\r' && s[1] == '\n' then StripLineCrs(s[1..])
    else [s[0]] + StripLineCrs(s[1..])
  }

  /** Drops one final "\n". */
  function DropFinalLf(s: string): string
  {
    if s != [] && s[|s| - 1] == '\n' then s[..|s| - 1] else s
  }

  /** Text without a "\n" has no line ending to strip. */
  lemma {:induction false} StripLineCrsNoLf(s: string)
    requires '\n' !in s
    ensures StripLineCrs(s) == s
  {
    if s != [] {
      assert s == [s[0]] + s[1..];
      StripLineCrsNoLf(s[1..]);
    }
  }

  /** Stripping splits at a line ending: the line loses its final "\r". */
  lemma {:induction false} StripLineCrsAtLf(p: string, rest: string)
    requires '\n' !in p
    ensures StripLineCrs(p + "\n" + rest) == StripCr(p) + "\n" + StripLineCrs(rest)
  {
    var s := p + "\n" + rest;
    if p == [] {
      assert s == "\n" + rest && s[1..] == rest;
    } else {
      var q := p[1..];
      assert s[0] == p[0] && s[1..] == q + "\n" + rest;
      if p[0] == '\r' && q == [] {
        assert s[1] == '\n';
      } else {
        StripLineCrsAtLf(q, rest);
        if q != [] {
          assert s[1] == q[0] != '\n';
          assert StripCr(p) == [p[0]] + StripCr(q) by {
            assert p == [p[0]] + q;
            assert p[|p| - 1] == q[|q| - 1];
            if q[|q| - 1] == '\r' {
              assert p[..|p| - 1] == [p[0]] + q[..|q| - 1];
            }
          }
        }
      }
    }
  }

  /** A final "\n" after a line ending is the last one, or it is the line ending. */
  lemma DropFinalLfAfterLine(x: string, t: string)
    ensures t == [] ==> DropFinalLf(x + "\n" + t) == x
    ensures t != [] ==> DropFinalLf(x + "\n" + t) == x + "\n" + DropFinalLf(t)
  {
    var s := x + "\n" + t;
    if t == [] {
      assert s[..|s| - 1] == x;
    } else if t[|t| - 1] == '\n' {
      assert s[|s| - 1] == t[|t| - 1];
      assert s[..|s| - 1] == x + "\n" + t[..|t| - 1];
    } else {
      assert s[|s| - 1] == t[|t| - 1];
    }
  }

  /** Joining the lines of `s` gives `s` back, without the "\r" of each "\r\n" and
      without a final "\n". */
  lemma {:induction false} JoinLinesOfLines(s: string)
    ensures JoinLines(Lines(s)) == DropFinalLf(StripLineCrs(s))
    decreases |s|
  {
    if s != [] {
      var n := IndexOf(s, '\n');
      var p := s[..n];
      if n == |s| {
        assert p == s;
        StripLineCrsNoLf(s);
      } else {
        var rest := s[n + 1..];
        assert s == p + "\n" + rest;
        StripLineCrsAtLf(p, rest);
        DropFinalLfAfterLine(StripCr(p), StripLineCrs(rest));
        var ls := Lines(s);
        assert ls == [StripCr(p)] + Lines(rest);
        if rest != [] {
          JoinLinesOfLines(rest);
          assert ls[1..] == Lines(rest);
        }
      }
    }
  }

  function CountChar(s: string, c: char): nat
  {
    if s == [] then 0 else (if s[0] == c then 1 else 0) + CountChar(s[1..], c)
  }

  lemma {:induction false} CountCharAppend(a: string, b: string, c: char)
    ensures CountChar(a + b, c) == CountChar(a, c) + CountChar(b, c)
  {
    if a != [] {
      assert (a + b)[0] == a[0];
      assert (a + b)[1..] == a[1..] + b;
      CountCharAppend(a[1..], b, c);
    } else {
      assert a + b == b;
    }
  }

  lemma {:induction false} CountCharAbsent(s: string, c: char)
    requires forall i :: 0 <= i < |s| ==> s[i] != c
    ensures CountChar(s, c) == 0
  {
    if s != [] {
      CountCharAbsent(s[1..], c);
    }
  }

  /** Counting around position `n`: before it, at it, after it. */
  lemma CountCharSplit(s: string, n: nat, c: char)
    requires n < |s|
    ensures CountChar(s, c) == CountChar(s[..n], c) + (if s[n] == c then 1 else 0) + CountChar(s[n + 1..], c)
  {
    assert s == s[..n] + ([s[n]] + s[n + 1..]);
    CountCharAppend(s[..n], [s[n]] + s[n + 1..], c);
    CountCharAppend([s[n]], s[n + 1..], c);
    assert [s[n]][1..] == [];
  }

  /** One line per "\n", plus one for a last line that has no line ending. */
  lemma {:induction false} LinesCount(s: string)
    ensures |Lines(s)| == CountChar(s, '\n') + (if s != [] && s[|s| - 1] != '\n' then 1 else 0)
    decreases |s|
  {
    if s != [] {
      var n := IndexOf(s, '\n');
      CountCharAbsent(s[..n], '\n');
      if n == |s| {
        assert s[..n] == s;
      } else {
        var rest := s[n + 1..];
        LinesCount(rest);
        CountCharSplit(s, n, '\n');
        if rest != [] {
          assert rest[|rest| - 1] == s[|s| - 1];
        }
      }
    }
  }
}
