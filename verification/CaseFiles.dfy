/** File names and file formats of a test-case directory: `k.in`, `k.out` and `score`. */
module CaseFiles {
  import opened Common
  import opened Decimal

  const MAX_NUM := 0x7fff_ffff

  const SCORE := "score"

  function InName(n: int): string {
    ToString(n) + ".in"
  }

  function OutName(n: int): string {
    ToString(n) + ".out"
  }

  function LastDot(s: string): (r: Option<nat>)
    ensures r.Some? ==> r.value < |s|
  {
    if s == [] then None
    else if s[|s| - 1] == '.' then Some(|s| - 1)
    else LastDot(s[..|s| - 1])
  }

  /** `path::stem` and `path::extension`: a dot at the very start does not begin an extension. */
  function Stem(name: string): string {
    var d := LastDot(name);
    if d.None? || d.value == 0 then name else name[..d.value]
  }

  function Extension(name: string): string {
    var d := LastDot(name);
    if d.None? || d.value == 0 then "" else name[d.value..]
  }

  /** The number of a directory entry, as `scan_case_nums` reads it. */
  function CaseNum(name: string): Option<int> {
    if Extension(name) != ".in" then None
    else
      var v := ParseLong(Stem(name));
      if v.Some? && v.value > 0 then Some(ToInt32(v.value)) else None
  }

  lemma LastDotOfIn(s: string)
    ensures LastDot(s + ".in") == Some(|s|)
  {
    var t := s + ".in";
    assert t[..|t| - 1] == s + ".i" && (s + ".i")[..|s| + 1] == s + ".";
    assert t[|t| - 1] == 'n' && (s + ".i")[|s| + 1] == 'i' && (s + ".")[|s|] == '.';
    assert LastDot(s + ".") == Some(|s|);
    assert LastDot(s + ".i") == Some(|s|);
  }

  /** The names that count as a case: something before `.in` that reads as a positive number. */
  lemma CaseNumExactlyWhen(name: string)
    ensures CaseNum(name).Some? <==>
            && |name| > 3 && name[|name| - 3..] == ".in"
            && ParseLong(name[..|name| - 3]).Some? && ParseLong(name[..|name| - 3]).value > 0
    ensures CaseNum(name).Some? ==> CaseNum(name).value == ToInt32(ParseLong(name[..|name| - 3]).value)
  {
    if |name| > 3 && name[|name| - 3..] == ".in" {
      var stem := name[..|name| - 3];
      assert name == stem + ".in";
      LastDotOfIn(stem);
    }
    ExtensionAtEnd(name);
  }

  lemma ExtensionAtEnd(name: string)
    ensures Extension(name) == ".in" ==> |name| > 3 && name[|name| - 3..] == ".in"
  {
    var d := LastDot(name);
    assert d.Some? ==> |name[d.value..]| == |name| - d.value;
  }

  lemma CaseNumOfInName(n: int)
    requires 0 < n <= MAX_NUM
    ensures CaseNum(InName(n)) == Some(n)
  {
    LastDotOfIn(ToString(n));
    assert InName(n)[..|ToString(n)|] == ToString(n);
    assert InName(n)[|ToString(n)|..] == ".in";
    ParseOfToString(n);
  }

  lemma CaseNameEndsInN(name: string)
    requires CaseNum(name).Some?
    ensures name != [] && name[|name| - 1] == 'n'
  {
    var d := LastDot(name).value;
    assert name[d..] == ".in" && name[d..][2] == name[d + 2];
  }

  lemma InNameIsInjective(a: int, b: int)
    requires 0 <= a <= LONG_MAX && 0 <= b <= LONG_MAX && InName(a) == InName(b)
    ensures a == b
  {
    assert InName(a)[..|InName(a)| - 3] == ToString(a) && InName(b)[..|InName(b)| - 3] == ToString(b);
    ToStringIsInjective(a, b);
  }

  lemma OutNameIsInjective(a: int, b: int)
    requires 0 <= a <= LONG_MAX && 0 <= b <= LONG_MAX && OutName(a) == OutName(b)
    ensures a == b
  {
    assert OutName(a)[..|OutName(a)| - 4] == ToString(a) && OutName(b)[..|OutName(b)| - 4] == ToString(b);
    ToStringIsInjective(a, b);
  }

  lemma NamesEnd(n: int)
    ensures InName(n)[|InName(n)| - 1] == 'n' && OutName(n)[|OutName(n)| - 1] == 't' && SCORE[|SCORE| - 1] == 'e'
  {
  }

  /** The names of a directory are all different. */
  lemma NamesDiffer(a: int, b: int)
    requires 0 <= a <= LONG_MAX && 0 <= b <= LONG_MAX
    ensures InName(a) == InName(b) <==> a == b
    ensures OutName(a) == OutName(b) <==> a == b
    ensures InName(a) != OutName(b) && InName(a) != SCORE && OutName(a) != SCORE
  {
    if InName(a) == InName(b) {
      InNameIsInjective(a, b);
    }
    if OutName(a) == OutName(b) {
      OutNameIsInjective(a, b);
    }
    NamesEnd(a);
    NamesEnd(b);
  }

  // ---- scanning

  ghost predicate Sorted(s: seq<int>) {
    forall i, j | 0 <= i < j < |s| :: s[i] <= s[j]
  }

  ghost predicate Ascending(s: seq<int>) {
    forall i, j | 0 <= i < j < |s| :: s[i] < s[j]
  }

  function Insert(x: int, s: seq<int>): seq<int> {
    if s == [] || x <= s[0] then [x] + s else [s[0]] + Insert(x, s[1..])
  }

  /** `std::sort`. */
  function Sort(s: seq<int>): seq<int> {
    if s == [] then [] else Insert(s[0], Sort(s[1..]))
  }

  lemma {:induction false} InsertPermutes(x: int, s: seq<int>)
    ensures multiset(Insert(x, s)) == multiset(s) + multiset{x}
  {
    if s != [] && x > s[0] {
      InsertPermutes(x, s[1..]);
      assert s == [s[0]] + s[1..];
    }
  }

  lemma {:induction false} InsertMembers(x: int, s: seq<int>)
    ensures forall v | v in Insert(x, s) :: v == x || v in s
  {
    if s != [] && x > s[0] {
      InsertMembers(x, s[1..]);
    }
  }

  lemma {:induction false} InsertSorts(x: int, s: seq<int>)
    requires Sorted(s)
    ensures Sorted(Insert(x, s))
  {
    if s != [] && x > s[0] {
      InsertSorts(x, s[1..]);
      InsertMembers(x, s[1..]);
      LeastFirst(s[0], Insert(x, s[1..]));
    }
  }

  lemma LeastFirst(x: int, s: seq<int>)
    requires Sorted(s) && forall v | v in s :: x <= v
    ensures Sorted([x] + s)
  {
    assert forall i | 0 <= i < |s| :: s[i] in s;
    assert forall i | 0 < i < |s| + 1 :: ([x] + s)[i] == s[i - 1];
  }

  lemma {:induction false} SortSorts(s: seq<int>)
    ensures multiset(Sort(s)) == multiset(s) && Sorted(Sort(s))
  {
    if s != [] {
      SortSorts(s[1..]);
      InsertPermutes(s[0], Sort(s[1..]));
      InsertSorts(s[0], Sort(s[1..]));
      assert s == [s[0]] + s[1..];
    }
  }

  function Named(names: set<string>, v: int): set<string> {
    set k | k in names && CaseNum(k) == Some(v)
  }

  /** The scan of a directory: one entry for every name that reads as a number, in numeric order. */
  ghost predicate IsScan(names: set<string>, nums: seq<int>) {
    Sorted(nums) && forall v :: multiset(nums)[v] == |Named(names, v)|
  }

  lemma NamedGrows(names: set<string>, k: string, v: int)
    requires k !in names
    ensures |Named(names + {k}, v)| == |Named(names, v)| + if CaseNum(k) == Some(v) then 1 else 0
  {
    if CaseNum(k) == Some(v) {
      assert Named(names + {k}, v) == Named(names, v) + {k};
    } else {
      assert Named(names + {k}, v) == Named(names, v);
    }
  }

  /** `scan_case_nums` and `scan_test_cases`: the entries come in any order. */
  method ScanCaseNums(names: set<string>) returns (nums: seq<int>)
    ensures IsScan(names, nums)
  {
    nums := [];
    var rest := names;
    while rest != {}
      invariant rest <= names
      invariant forall v :: multiset(nums)[v] == |Named(names - rest, v)|
      decreases |rest|
    {
      var k :| k in rest;
      assert names - (rest - {k}) == (names - rest) + {k};
      forall v
        ensures |Named(names - (rest - {k}), v)| == |Named(names - rest, v)| + if CaseNum(k) == Some(v) then 1 else 0
      {
        NamedGrows(names - rest, k, v);
      }
      rest := rest - {k};
      var n := CaseNum(k);
      if n.Some? {
        nums := nums + [n.value];
      }
    }
    assert names - rest == names;
    SortSorts(nums);
    nums := Sort(nums);
  }

  /** Every entry that reads as a number is the name `std::to_string` would give it. */
  ghost predicate Canonical(names: set<string>) {
    forall k | k in names && CaseNum(k).Some? :: k == InName(CaseNum(k).value)
  }

  lemma NumberedEntry(names: set<string>, v: int)
    requires Canonical(names)
    ensures Named(names, v) == if 0 < v <= MAX_NUM && InName(v) in names then {InName(v)} else {}
  {
    if 0 < v <= MAX_NUM {
      CaseNumOfInName(v);
    }
    if k :| k in Named(names, v) {
      assert k == InName(v);
      CaseNumInRange(v);
    }
  }

  lemma CaseNumInRange(v: int)
    requires CaseNum(InName(v)) == Some(v)
    ensures 0 < v <= MAX_NUM
  {
    LastDotOfIn(ToString(v));
    assert InName(v)[..|ToString(v)|] == ToString(v);
    if LONG_MIN <= v <= LONG_MAX {
      ParseOfToString(v);
    }
  }

  /** A canonical directory is scanned as its set of numbers, each once. */
  lemma CanonicalScan(names: set<string>, nums: seq<int>)
    requires Canonical(names) && IsScan(names, nums)
    ensures Ascending(nums)
    ensures forall v :: v in nums <==> 0 < v <= MAX_NUM && InName(v) in names
  {
    forall v
      ensures multiset(nums)[v] == if 0 < v <= MAX_NUM && InName(v) in names then 1 else 0
    {
      NumberedEntry(names, v);
    }
    forall v
      ensures v in nums <==> 0 < v <= MAX_NUM && InName(v) in names
    {
      assert v in nums <==> multiset(nums)[v] > 0;
    }
    forall i, j | 0 <= i < j < |nums|
      ensures nums[i] < nums[j]
    {
      if nums[i] == nums[j] {
        TwiceCounts(nums, i, j);
      }
    }
  }

  lemma TwiceCounts(s: seq<int>, i: nat, j: nat)
    requires i < j < |s| && s[i] == s[j]
    ensures multiset(s)[s[i]] >= 2
  {
    assert s == s[..j] + s[j..];
    assert s[i] in s[..j] && s[i] in s[j..];
    assert s[..j][i] == s[i] && s[j..][0] == s[j];
    assert multiset(s) == multiset(s[..j]) + multiset(s[j..]);
  }

  function UpTo(n: nat): seq<int> {
    seq(n, i => i + 1)
  }

  lemma {:induction false} AscendingRange(nums: seq<int>, n: nat)
    requires Ascending(nums) && forall v :: v in nums <==> 1 <= v <= n
    ensures nums == UpTo(n)
  {
    if nums == [] {
      assert n > 0 ==> 1 in nums;
    } else {
      var last := |nums| - 1;
      var init := nums[..last];
      assert nums[last] in nums && nums == init + [nums[last]];
      assert n in nums;
      assert nums[last] == n;
      forall v
        ensures v in init <==> 1 <= v <= n - 1
      {
        assert v in nums <==> v in init || v == n;
      }
      AscendingRange(init, n - 1);
    }
  }

  // ---- the score file

  function PrintScores(scores: seq<int>): string {
    if scores == [] then [] else ToString(scores[0]) + "\n" + PrintScores(scores[1..])
  }

  /** `std::getline` until the end of the text. */
  function FirstLine(text: string): (line: string)
    ensures |line| <= |text|
  {
    if text == [] || text[0] == '\n' then [] else [text[0]] + FirstLine(text[1..])
  }

  function AfterLine(text: string): (rest: string)
    ensures text != [] ==> |rest| < |text|
  {
    if |FirstLine(text)| < |text| then text[|FirstLine(text)| + 1..] else []
  }

  /** A line that is not a number counts as 0. */
  function ScoreOf(line: string): int {
    var v := ParseLong(line);
    if v.Some? then ToInt32(v.value) else 0
  }

  /** A line that is no number scores 0; one that is scores its value cut to 32 bits. */
  lemma LineScore(line: string, spaces: string, sign: string, digits: string)
    requires '\0' !in line
    ensures (forall a, b, c :: !IsNumber(line, a, b, c)) ==> ScoreOf(line) == 0
    ensures IsNumber(line, spaces, sign, digits) && ValueOf(digits) <= MAX_NUM ==>
              ScoreOf(line) == if sign == "-" then 0 - ValueOf(digits) else ValueOf(digits)
  {
    ParsedExactlyWhen(line);
    if IsNumber(line, spaces, sign, digits) {
      ParseOfNumber(line, spaces, sign, digits);
    }
  }

  function ReadScores(text: string): seq<int>
    decreases |text|
  {
    if text == [] then [] else [ScoreOf(FirstLine(text))] + ReadScores(AfterLine(text))
  }

  lemma Regroup(a: seq<int>, x: int, b: seq<int>)
    ensures a + ([x] + b) == a + [x] + b
  {
  }

  method ReadScoreFile(text: string) returns (scores: seq<int>)
    ensures scores == ReadScores(text)
  {
    scores := [];
    var rest := text;
    while rest != []
      invariant scores + ReadScores(rest) == ReadScores(text)
      decreases |rest|
    {
      Regroup(scores, ScoreOf(FirstLine(rest)), ReadScores(AfterLine(rest)));
      scores := scores + [ScoreOf(FirstLine(rest))];
      rest := AfterLine(rest);
    }
  }

  method WriteScoreFile(scores: seq<int>) returns (content: string)
    ensures content == PrintScores(scores)
  {
    content := "";
    for i := 0 to |scores|
      invariant content + PrintScores(scores[i..]) == PrintScores(scores)
    {
      var line := ToString(scores[i]) + "\n";
      assert scores[i..][1..] == scores[i + 1..];
      assert content + (line + PrintScores(scores[i + 1..])) == (content + line) + PrintScores(scores[i + 1..]);
      content := content + line;
    }
    assert scores[|scores|..] == [];
  }

  lemma {:induction false} FirstLineOf(line: string, rest: string)
    requires '\n' !in line
    ensures FirstLine(line + "\n" + rest) == line && AfterLine(line + "\n" + rest) == rest
  {
    var t := line + "\n" + rest;
    if line == [] {
      assert t[1..] == rest;
    } else {
      assert line[0] in line;
      assert t[1..] == line[1..] + "\n" + rest;
      FirstLineOf(line[1..], rest);
      assert line == [line[0]] + line[1..];
      assert t[|line| + 1..] == rest;
    }
  }

  lemma FirstScore(v: int, rest: string)
    requires IsInt32(v)
    ensures var text := ToString(v) + "\n" + rest;
            text != [] && ScoreOf(FirstLine(text)) == v && AfterLine(text) == rest
  {
    FirstLineOf(ToString(v), rest);
    ParseOfToString(v);
  }

  lemma ReadsFirstScore(v: int, rest: string)
    requires IsInt32(v)
    ensures ReadScores(ToString(v) + "\n" + rest) == [v] + ReadScores(rest)
  {
    FirstScore(v, rest);
  }

  /** The score file is read back exactly, negative scores included. */
  lemma {:induction false} ScoresRoundTrip(scores: seq<int>)
    requires forall s | s in scores :: IsInt32(s)
    ensures ReadScores(PrintScores(scores)) == scores
  {
    if scores != [] {
      assert scores[0] in scores;
      ReadsFirstScore(scores[0], PrintScores(scores[1..]));
      ScoresRoundTrip(scores[1..]);
      assert scores == [scores[0]] + scores[1..];
    }
  }
}
