/** The normalizer behind loose output comparison, src/judge/compare.cpp. */
module Normalizer {
  import opened Common

  predicate IsNewline(c: char) {
    c == '\n' || c == '\r'
  }

  /** The six characters of `std::isspace` and the two line ends, by their codes. */
  lemma SpacesAndLineEnds(c: char)
    ensures IsSpace(c) <==> c as int == 32 || 9 <= c as int <= 13
    ensures IsNewline(c) <==> c as int == 10 || c as int == 13
    ensures IsNewline(c) ==> IsSpace(c)
  {
  }

  // ---- specification: split at newlines, trim, drop blank lines

  function TrimStart(s: string): string {
    if s != [] && IsSpace(s[0]) then TrimStart(s[1..]) else s
  }

  function TrimEnd(s: string): string {
    if s != [] && IsSpace(s[|s| - 1]) then TrimEnd(s[..|s| - 1]) else s
  }

  function Trim(s: string): string {
    TrimEnd(TrimStart(s))
  }

  /** The trimmed line, or nothing when it is blank. */
  function Kept(line: string): seq<string> {
    if Trim(line) == [] then [] else [Trim(line)]
  }

  /** The lines of `text` that follow the unfinished line `cur`. */
  function LinesFrom(cur: string, text: string): seq<string>
    decreases |text|
  {
    if text == [] then Kept(cur)
    else if IsNewline(text[0]) then Kept(cur) + LinesFrom([], text[1..])
    else LinesFrom(cur + [text[0]], text[1..])
  }

  function Lines(text: string): seq<string> {
    LinesFrom([], text)
  }

  ghost predicate IsBlank(text: string) {
    forall i | 0 <= i < |text| :: IsSpace(text[i])
  }

  lemma {:induction false} TrimStartOfBlank(s: string)
    ensures TrimStart(s) == [] <==> IsBlank(s)
    ensures TrimStart(s) != [] ==> !IsSpace(TrimStart(s)[0])
  {
    if s != [] && IsSpace(s[0]) {
      TrimStartOfBlank(s[1..]);
      assert IsBlank(s[1..]) ==> forall i | 0 < i < |s| :: s[i] == s[1..][i - 1];
    }
  }

  lemma {:induction false} TrimEndKeepsFirst(s: string)
    requires s != [] && !IsSpace(s[0])
    ensures TrimEnd(s) != []
  {
    if IsSpace(s[|s| - 1]) {
      TrimEndKeepsFirst(s[..|s| - 1]);
    }
  }

  lemma KeptOfBlank(s: string)
    ensures Kept(s) == [] <==> IsBlank(s)
  {
    TrimStartOfBlank(s);
    if TrimStart(s) != [] {
      TrimEndKeepsFirst(TrimStart(s));
    }
  }

  /** No line is left exactly of a text that is all whitespace. */
  lemma {:induction false} NoLinesOfBlank(cur: string, text: string)
    ensures LinesFrom(cur, text) == [] <==> IsBlank(cur) && IsBlank(text)
    decreases |text|
  {
    KeptOfBlank(cur);
    if text != [] {
      BlankFirst(text);
      NoLinesOfBlank([], text[1..]);
      NoLinesOfBlank(cur + [text[0]], text[1..]);
      BlankLast(cur, text[0]);
    }
  }

  lemma BlankFirst(s: string)
    requires s != []
    ensures IsBlank(s) <==> IsSpace(s[0]) && IsBlank(s[1..])
  {
    assert forall i | 0 < i < |s| :: s[i] == s[1..][i - 1];
  }

  lemma BlankLast(s: string, c: char)
    ensures IsBlank(s + [c]) <==> IsBlank(s) && IsSpace(c)
  {
    assert (s + [c])[|s|] == c;
    assert forall i | 0 <= i < |s| :: (s + [c])[i] == s[i];
  }

  // ---- the code

  lemma {:induction false} TrimStartIsSuffix(s: string, b: nat)
    requires b <= |s| && forall i | 0 <= i < b :: IsSpace(s[i])
    ensures TrimStart(s) == TrimStart(s[b..])
  {
    if b > 0 {
      TrimStartIsSuffix(s[1..], b - 1);
      assert s[1..][b - 1..] == s[b..];
    } else {
      assert s[0..] == s;
    }
  }

  lemma {:induction false} TrimEndIsPrefix(s: string, e: nat)
    requires e <= |s| && forall i | e <= i < |s| :: IsSpace(s[i])
    ensures TrimEnd(s) == TrimEnd(s[..e])
    decreases |s|
  {
    if e < |s| {
      TrimEndIsPrefix(s[..|s| - 1], e);
      assert s[..|s| - 1][..e] == s[..e];
    } else {
      assert s[..e] == s;
    }
  }

  /** The two index loops of `flush`. */
  method Flush(cur: string, lines: seq<string>) returns (r: seq<string>)
    ensures r == lines + Kept(cur)
  {
    var b := 0;
    var e := |cur|;
    while b < e && IsSpace(cur[b])
      invariant 0 <= b <= e == |cur|
      invariant forall i | 0 <= i < b :: IsSpace(cur[i])
    {
      b := b + 1;
    }
    while e > b && IsSpace(cur[e - 1])
      invariant b <= e <= |cur|
      invariant forall i | e <= i < |cur| :: IsSpace(cur[i])
    {
      e := e - 1;
    }
    TrimStartIsSuffix(cur, b);
    if b == |cur| {
      assert cur[b..] == [];
    } else {
      assert TrimStart(cur[b..]) == cur[b..];
      TrimEndIsPrefix(cur[b..], e - b);
      assert cur[b..][..e - b] == cur[b..e];
      assert e > b;
      assert TrimEnd(cur[b..e]) == cur[b..e];
    }
    if e > b {
      r := lines + [cur[b..e]];
    } else {
      r := lines;
    }
  }

  method Normalize(text: string) returns (lines: seq<string>)
    ensures lines == Lines(text)
  {
    lines := [];
    var cur: string := [];
    for i := 0 to |text|
      invariant lines + LinesFrom(cur, text[i..]) == Lines(text)
    {
      ghost var rest := text[i..];
      assert rest[0] == text[i] && rest[1..] == text[i + 1..];
      var c := text[i];
      if c == '\n' || c == '\r' {
        ghost var before := lines;
        lines := Flush(cur, lines);
        assert before + (Kept(cur) + LinesFrom([], rest[1..])) == lines + LinesFrom([], rest[1..]);
        cur := [];
      } else {
        cur := cur + [c];
      }
    }
    lines := Flush(cur, lines);
  }
}
