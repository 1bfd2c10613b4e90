/** Loose comparison of src/judge/compare.cpp and what it decides: two texts compare equal exactly
    when one can be turned into the other by inserting and deleting whitespace characters next to
    line boundaries. */
module LooseComparison {
  import opened Common
  import opened Normalizer

  /** Position `i` of `a` holds a whitespace character at the start, at the end or beside a newline. */
  predicate Deletable(a: string, i: nat) {
    && i < |a| && IsSpace(a[i])
    && (i == 0 || i == |a| - 1 || IsNewline(a[i - 1]) || IsNewline(a[i + 1]))
  }

  function Delete(a: string, i: nat): string
    requires i < |a|
  {
    a[..i] + a[i + 1..]
  }

  ghost predicate Deletes(a: string, b: string) {
    exists i: nat :: Deletable(a, i) && b == Delete(a, i)
  }

  /** One edit: delete such a character, or insert one. */
  ghost predicate Edit(a: string, b: string) {
    Deletes(a, b) || Deletes(b, a)
  }

  ghost predicate Path(p: seq<string>, a: string, b: string)
    decreases |p|
  {
    if p == [] then a == b else Edit(a, p[0]) && Path(p[1..], p[0], b)
  }

  ghost predicate Equivalent(a: string, b: string) {
    exists p :: Path(p, a, b)
  }

  lemma {:induction false} PathConcat(p: seq<string>, q: seq<string>, a: string, b: string, c: string)
    requires Path(p, a, b) && Path(q, b, c)
    ensures Path(p + q, a, c)
    decreases |p|
  {
    if p == [] {
      assert p + q == q;
    } else {
      PathConcat(p[1..], q, p[0], b, c);
      assert (p + q)[1..] == p[1..] + q;
    }
  }

  lemma EquivalentTransitive(a: string, b: string, c: string)
    requires Equivalent(a, b) && Equivalent(b, c)
    ensures Equivalent(a, c)
  {
    var p :| Path(p, a, b);
    var q :| Path(q, b, c);
    PathConcat(p, q, a, b, c);
  }

  lemma EditIsEquivalent(a: string, b: string)
    requires Edit(a, b)
    ensures Equivalent(a, b)
  {
    assert Path([b][1..], b, b);
    assert Path([b], a, b);
  }

  lemma {:induction false} PathReverses(p: seq<string>, a: string, b: string)
    requires Path(p, a, b)
    ensures Equivalent(b, a)
    decreases |p|
  {
    if p == [] {
      assert Path([], b, a);
    } else {
      PathReverses(p[1..], p[0], b);
      EditIsEquivalent(p[0], a);
      EquivalentTransitive(b, p[0], a);
    }
  }

  lemma EquivalentSymmetric(a: string, b: string)
    requires Equivalent(a, b)
    ensures Equivalent(b, a)
  {
    var p :| Path(p, a, b);
    PathReverses(p, a, b);
  }

  // ---- soundness: an edit does not change the lines

  lemma {:induction false} TrimIgnoresLastSpace(s: string, w: char)
    requires IsSpace(w)
    ensures Trim(s + [w]) == Trim(s)
  {
    if s == [] {
      assert s + [w] == [w] && [w][1..] == [];
    } else if IsSpace(s[0]) {
      assert (s + [w])[1..] == s[1..] + [w];
      TrimIgnoresLastSpace(s[1..], w);
    } else {
      assert (s + [w])[..|s|] == s;
    }
  }

  lemma {:induction false} LeadingSpaceIgnored(w: char, cur: string, text: string)
    requires IsSpace(w)
    ensures LinesFrom([w] + cur, text) == LinesFrom(cur, text)
    decreases |text|
  {
    assert ([w] + cur)[1..] == cur;
    if text != [] && !IsNewline(text[0]) {
      assert [w] + cur + [text[0]] == [w] + (cur + [text[0]]);
      LeadingSpaceIgnored(w, cur + [text[0]], text[1..]);
    }
  }

  /** `cur` is the unfinished line before `x`. */
  predicate Boundary(cur: string, x: string, y: string) {
    || (if x == [] then cur == [] else IsNewline(x[|x| - 1]))
    || y == [] || IsNewline(y[0])
  }

  lemma InsertAtFront(cur: string, w: char, y: string)
    requires IsSpace(w) && Boundary(cur, [], y)
    ensures LinesFrom(cur, [w] + y) == LinesFrom(cur, y)
  {
    assert ([w] + y)[1..] == y;
    TrimIgnoresLastSpace(cur, w);
    if cur == [] && !IsNewline(w) {
      LeadingSpaceIgnored(w, [], y);
      assert [w] + [] == [] + [w];
    }
  }

  lemma {:induction false} InsertKeepsLines(cur: string, x: string, w: char, y: string)
    requires IsSpace(w) && Boundary(cur, x, y)
    ensures LinesFrom(cur, x + [w] + y) == LinesFrom(cur, x + y)
    decreases |x|
  {
    if x == [] {
      InsertAtFront(cur, w, y);
      assert x + [w] + y == [w] + y && x + y == y;
    } else {
      assert (x + [w] + y)[1..] == x[1..] + [w] + y;
      assert (x + y)[1..] == x[1..] + y;
      InsertKeepsLines(if IsNewline(x[0]) then [] else cur + [x[0]], x[1..], w, y);
    }
  }

  lemma DeleteKeepsLines(a: string, i: nat)
    requires Deletable(a, i)
    ensures Lines(Delete(a, i)) == Lines(a)
  {
    InsertKeepsLines([], a[..i], a[i], a[i + 1..]);
    assert a == a[..i] + [a[i]] + a[i + 1..];
  }

  lemma {:induction false} PathKeepsLines(p: seq<string>, a: string, b: string)
    requires Path(p, a, b)
    ensures Lines(a) == Lines(b)
    decreases |p|
  {
    if p != [] {
      if Deletes(a, p[0]) {
        var i: nat :| Deletable(a, i) && p[0] == Delete(a, i);
        DeleteKeepsLines(a, i);
      } else {
        var i: nat :| Deletable(p[0], i) && a == Delete(p[0], i);
        DeleteKeepsLines(p[0], i);
      }
      PathKeepsLines(p[1..], p[0], b);
    }
  }

  // ---- completeness: every text reduces to its lines joined by '\n'

  function Join(lines: seq<string>): string {
    if lines == [] then []
    else if |lines| == 1 then lines[0]
    else lines[0] + ['\n'] + Join(lines[1..])
  }

  ghost predicate Irreducible(a: string) {
    forall i: nat :: !Deletable(a, i)
  }

  lemma TrimOfTight(s: string)
    requires s != [] && !IsSpace(s[0]) && !IsSpace(s[|s| - 1])
    ensures Kept(s) == [s]
  {
  }

  lemma NewlineSplitsIrreducible(u: string, k: nat)
    requires Irreducible(u) && k < |u| && IsNewline(u[k])
    ensures 0 < k < |u| - 1 && !IsSpace(u[0]) && !IsSpace(u[k - 1])
    ensures Irreducible(u[k + 1..])
  {
    assert !Deletable(u, k) && !Deletable(u, 0) && !Deletable(u, k - 1);
    var rest := u[k + 1..];
    forall i: nat
      ensures !Deletable(rest, i)
    {
      assert !Deletable(u, k + 1 + i);
    }
  }

  lemma JoinCons(line: string, lines: seq<string>)
    requires lines != []
    ensures Join([line] + lines) == line + ['\n'] + Join(lines)
  {
    assert ([line] + lines)[1..] == lines;
  }

  lemma JoinedAtNewline(cur: string, text: string, lines: seq<string>)
    requires Irreducible(cur + text) && text != [] && text[0] == '\n'
    ensures Irreducible(text[1..])
    ensures Join(lines) == text[1..] ==> Join(Kept(cur) + lines) == cur + text
  {
    var u := cur + text;
    var rest := text[1..];
    assert u[|cur|] == text[0] && rest == u[|cur| + 1..];
    NewlineSplitsIrreducible(u, |cur|);
    assert u[0] == cur[0] && u[|cur| - 1] == cur[|cur| - 1];
    TrimOfTight(cur);
    if Join(lines) == rest {
      JoinCons(cur, lines);
      assert text == ['\n'] + rest;
    }
  }

  lemma {:induction false} IrreducibleIsJoined(cur: string, text: string)
    requires Irreducible(cur + text) && '\r' !in text
    requires forall c | c in cur :: !IsNewline(c)
    ensures Join(LinesFrom(cur, text)) == cur + text
    decreases |text|
  {
    if text == [] {
      assert cur + text == cur;
      if cur != [] {
        assert !Deletable(cur, 0) && !Deletable(cur, |cur| - 1);
        TrimOfTight(cur);
      }
    } else if IsNewline(text[0]) {
      JoinedAtNewline(cur, text, LinesFrom([], text[1..]));
      assert [] + text[1..] == text[1..];
      IrreducibleIsJoined([], text[1..]);
    } else {
      assert cur + [text[0]] + text[1..] == cur + text;
      IrreducibleIsJoined(cur + [text[0]], text[1..]);
    }
  }

  function Returns(a: string): nat {
    multiset(a)['\r']
  }

  /** A carriage return can be traded for a newline: insert '\n' after it, then delete it. */
  lemma ReturnToNewline(a: string, i: nat)
    requires i < |a| && a[i] == '\r'
    ensures Equivalent(a, a[i := '\n'])
    ensures Returns(a[i := '\n']) < Returns(a)
  {
    var b := a[..i + 1] + ['\n'] + a[i + 1..];
    assert Deletable(b, i + 1) && Delete(b, i + 1) == a;
    assert Deletable(b, i) && Delete(b, i) == a[i := '\n'];
    EditIsEquivalent(a, b);
    EditIsEquivalent(b, a[i := '\n']);
    EquivalentTransitive(a, b, a[i := '\n']);
    assert multiset(a[i := '\n']) == multiset(a) - multiset{'\r'} + multiset{'\n'};
  }

  lemma {:induction false} ReducesToJoined(a: string)
    ensures Equivalent(a, Join(Lines(a)))
    decreases |a|, Returns(a)
  {
    if i: nat :| Deletable(a, i) {
      var b := Delete(a, i);
      EditIsEquivalent(a, b);
      DeleteKeepsLines(a, i);
      ReducesToJoined(b);
      EquivalentTransitive(a, b, Join(Lines(a)));
    } else if '\r' in a {
      var i: nat :| i < |a| && a[i] == '\r';
      var b := a[i := '\n'];
      ReturnToNewline(a, i);
      var p :| Path(p, a, b);
      PathKeepsLines(p, a, b);
      ReducesToJoined(b);
      EquivalentTransitive(a, b, Join(Lines(a)));
    } else {
      assert [] + a == a;
      IrreducibleIsJoined([], a);
      assert Path([], a, a);
    }
  }

  // ---- main results

  /** Soundness and completeness of the comparison. */
  lemma SameLinesIffEquivalent(a: string, b: string)
    ensures Lines(a) == Lines(b) <==> Equivalent(a, b)
  {
    if Equivalent(a, b) {
      var p :| Path(p, a, b);
      PathKeepsLines(p, a, b);
    }
    if Lines(a) == Lines(b) {
      ReducesToJoined(a);
      ReducesToJoined(b);
      EquivalentSymmetric(b, Join(Lines(b)));
      EquivalentTransitive(a, Join(Lines(a)), b);
    }
  }

  /** Normalizing the lines joined by '\n' gives the same lines. */
  lemma NormalizeIsIdempotent(text: string)
    ensures Lines(Join(Lines(text))) == Lines(text)
  {
    ReducesToJoined(text);
    var p :| Path(p, text, Join(Lines(text)));
    PathKeepsLines(p, text, Join(Lines(text)));
  }

  predicate CleanLine(line: string) {
    line != [] && !IsSpace(line[0]) && !IsSpace(line[|line| - 1]) && forall c | c in line :: !IsNewline(c)
  }

  lemma {:induction false} TrimStartShape(s: string)
    ensures TrimStart(s) != [] ==> !IsSpace(TrimStart(s)[0])
    ensures forall c | c in TrimStart(s) :: c in s
  {
    if s != [] && IsSpace(s[0]) {
      TrimStartShape(s[1..]);
    }
  }

  lemma {:induction false} TrimEndShape(s: string)
    ensures TrimEnd(s) <= s
    ensures TrimEnd(s) != [] ==> !IsSpace(TrimEnd(s)[|TrimEnd(s)| - 1])
  {
    if s != [] && IsSpace(s[|s| - 1]) {
      TrimEndShape(s[..|s| - 1]);
    }
  }

  lemma {:induction false} LinesAreClean(cur: string, text: string)
    requires forall c | c in cur :: !IsNewline(c)
    ensures forall line | line in LinesFrom(cur, text) :: CleanLine(line)
    decreases |text|
  {
    TrimStartShape(cur);
    TrimEndShape(TrimStart(cur));
    if text != [] {
      LinesAreClean(if IsNewline(text[0]) then [] else cur + [text[0]], text[1..]);
    }
  }

  /** Sound and complete, so an equivalence relation on texts. */
  method LooseCompare(expected: string, actual: string) returns (same: bool)
    ensures same <==> Lines(expected) == Lines(actual)
    ensures same <==> Equivalent(expected, actual)
  {
    var a := Normalize(expected);
    var b := Normalize(actual);
    same := a == b;
    SameLinesIffEquivalent(expected, actual);
  }
}
