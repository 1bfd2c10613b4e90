/** The hidden test cases of a problem: a directory of `k.in`, `k.out` and an optional `score` file
    (src/admin/admin_problem.cpp, src/problem.cpp). It refines a list of cases with scores. */
module TestStore {
  import opened Common
  import opened Decimal
  import opened CaseFiles

  type Files = map<string, string>

  function Get(files: Files, name: string): Option<string> {
    if name in files then Some(files[name]) else None
  }

  /** `fs::rename`: replaces the target; fails without effect when the source is missing. */
  function Renamed(files: Files, from: string, to: string): Files {
    if from in files then (files - {from})[to := files[from]] else files
  }

  // ---- the abstract store

  datatype Case = Case(input: string, output: string)

  /** The cases in order, and their scores when the problem has a score file. */
  datatype Store = Store(cases: seq<Case>, scores: Option<seq<int>>)

  function InputAt(cases: seq<Case>, k: int): Option<string> {
    if 1 <= k <= |cases| then Some(cases[k - 1].input) else None
  }

  function OutputAt(cases: seq<Case>, k: int): Option<string> {
    if 1 <= k <= |cases| then Some(cases[k - 1].output) else None
  }

  ghost predicate IsCaseFile(name: string) {
    exists k: int :: 1 <= k <= MAX_NUM && (name == InName(k) || name == OutName(k))
  }

  /** Exactly the files 1..n, in pairs. */
  ghost predicate HoldsCases(files: Files, cases: seq<Case>) {
    && |cases| <= MAX_NUM
    && (forall k | 1 <= k <= MAX_NUM :: Get(files, InName(k)) == InputAt(cases, k))
    && (forall k | 1 <= k <= MAX_NUM :: Get(files, OutName(k)) == OutputAt(cases, k))
    && (forall name | name in files :: name == SCORE || IsCaseFile(name))
  }

  /** Absent, or one line for every case. */
  ghost predicate HoldsScores(files: Files, st: Store) {
    match st.scores
    case None => SCORE !in files
    case Some(scores) =>
      && Get(files, SCORE) == Some(PrintScores(scores))
      && |scores| == |st.cases| > 0
      && forall s | s in scores :: IsInt32(s)
  }

  ghost predicate Represents(files: Files, st: Store) {
    HoldsCases(files, st.cases) && HoldsScores(files, st)
  }

  /** The directory determines the abstract store. */
  lemma RepresentsOne(files: Files, s: Store, t: Store)
    requires Represents(files, s) && Represents(files, t)
    ensures s == t
  {
    forall k | 1 <= k <= MAX_NUM
      ensures InputAt(s.cases, k) == InputAt(t.cases, k) && OutputAt(s.cases, k) == OutputAt(t.cases, k)
    {
      assert Get(files, InName(k)) == InputAt(s.cases, k) == InputAt(t.cases, k);
      assert Get(files, OutName(k)) == OutputAt(s.cases, k) == OutputAt(t.cases, k);
    }
    var n := Max(|s.cases|, |t.cases|);
    assert n > 0 ==> InputAt(s.cases, n) == InputAt(t.cases, n);
    forall i | 0 <= i < |s.cases|
      ensures s.cases[i] == t.cases[i]
    {
      assert InputAt(s.cases, i + 1) == InputAt(t.cases, i + 1);
      assert OutputAt(s.cases, i + 1) == OutputAt(t.cases, i + 1);
    }
    if s.scores.Some? && t.scores.Some? {
      ScoresRoundTrip(s.scores.value);
      ScoresRoundTrip(t.scores.value);
    }
  }

  lemma CaseFileNames(name: string)
    requires IsCaseFile(name) && CaseNum(name).Some?
    ensures name == InName(CaseNum(name).value)
  {
    var k :| 1 <= k <= MAX_NUM && (name == InName(k) || name == OutName(k));
    CaseNameEndsInN(name);
    NamesEnd(k);
    CaseNumOfInName(k);
  }

  /** Scanning a well-formed directory gives exactly 1..n in order. */
  lemma ScanOfStore(files: Files, cases: seq<Case>, nums: seq<int>)
    requires HoldsCases(files, cases) && IsScan(files.Keys, nums)
    ensures nums == UpTo(|cases|)
  {
    StoreIsCanonical(files, cases);
    CanonicalScan(files.Keys, nums);
    forall v
      ensures v in nums <==> 1 <= v <= |cases|
    {
      if 0 < v <= MAX_NUM {
        assert Get(files, InName(v)) == InputAt(cases, v);
      }
    }
    AscendingRange(nums, |cases|);
  }

  lemma StoreIsCanonical(files: Files, cases: seq<Case>)
    requires HoldsCases(files, cases)
    ensures Canonical(files.Keys)
  {
    forall name | name in files && CaseNum(name).Some?
      ensures name == InName(CaseNum(name).value)
    {
      if name == SCORE {
        CaseNameEndsInN(name);
      }
      CaseFileNames(name);
    }
  }

  // ---- moving later cases down by one

  /** Where the inputs are once the numbers up to `b` have been moved; `num` has been removed. */
  function InAfter(f: Files, num: int, b: int, k: int): Option<string> {
    if k < num then Get(f, InName(k))
    else if k < b then Get(f, InName(k + 1))
    else if k == b then None
    else Get(f, InName(k))
  }

  function OutAfter(f: Files, num: int, b: int, k: int): Option<string> {
    if k < num then Get(f, OutName(k))
    else if k < b && InName(k + 1) in f && OutName(k + 1) in f then Get(f, OutName(k + 1))
    else if num < k <= b && InName(k) in f then None
    else Get(f, OutName(k))
  }

  ghost predicate Shifted(f: Files, g: Files, num: int, b: int) {
    && (forall k | 1 <= k <= MAX_NUM :: Get(g, InName(k)) == InAfter(f, num, b, k))
    && (forall k | 1 <= k <= MAX_NUM :: Get(g, OutName(k)) == OutAfter(f, num, b, k))
    && (forall name | !IsCaseFile(name) :: Get(g, name) == Get(f, name))
  }

  /** Numbers without a case need no move. */
  lemma ShiftedSkips(f: Files, g: Files, num: int, b: int, c: int)
    requires 1 <= num <= b <= c <= MAX_NUM && Shifted(f, g, num, b)
    requires forall k | b < k <= c :: InName(k) !in f
    ensures Shifted(f, g, num, c)
  {
  }

  lemma RenameInput(g: Files, m: int, k: int)
    requires 1 < m <= MAX_NUM && 1 <= k <= MAX_NUM && InName(m) in g
    ensures var h := Renamed(g, InName(m), InName(m - 1));
            && Get(h, InName(k)) == (if k == m - 1 then Get(g, InName(m))
                                     else if k == m then None else Get(g, InName(k)))
            && Get(h, OutName(k)) == Get(g, OutName(k))
  {
    NamesDiffer(k, m);
    NamesDiffer(k, m - 1);
    NamesDiffer(m, k);
    NamesDiffer(m - 1, k);
  }

  lemma RenameOutput(g: Files, m: int, k: int)
    requires 1 < m <= MAX_NUM && 1 <= k <= MAX_NUM
    ensures var h := Renamed(g, OutName(m), OutName(m - 1));
            && Get(h, InName(k)) == Get(g, InName(k))
            && Get(h, OutName(k)) == (if OutName(m) !in g then Get(g, OutName(k))
                                      else if k == m - 1 then Get(g, OutName(m))
                                      else if k == m then None else Get(g, OutName(k)))
  {
    NamesDiffer(k, m);
    NamesDiffer(k, m - 1);
    NamesDiffer(m, k);
    NamesDiffer(m - 1, k);
  }

  function Moved(g: Files, m: int): Files {
    Renamed(Renamed(g, InName(m), InName(m - 1)), OutName(m), OutName(m - 1))
  }

  lemma MoveShiftsAt(f: Files, g: Files, num: int, m: int, k: int)
    requires 1 <= num < m <= MAX_NUM && InName(m) in f && Shifted(f, g, num, m - 1) && 1 <= k <= MAX_NUM
    ensures Get(Moved(g, m), InName(k)) == InAfter(f, num, m, k)
    ensures Get(Moved(g, m), OutName(k)) == OutAfter(f, num, m, k)
  {
    assert Get(g, InName(m)) == InAfter(f, num, m - 1, m) && Get(g, OutName(m)) == OutAfter(f, num, m - 1, m);
    assert Get(g, InName(k)) == InAfter(f, num, m - 1, k) && Get(g, OutName(k)) == OutAfter(f, num, m - 1, k);
    RenameInput(g, m, k);
    RenameInput(g, m, m);
    RenameOutput(Renamed(g, InName(m), InName(m - 1)), m, k);
  }

  lemma MoveShifts(f: Files, g: Files, num: int, m: int)
    requires 1 <= num < m <= MAX_NUM && InName(m) in f && Shifted(f, g, num, m - 1)
    ensures Shifted(f, Moved(g, m), num, m)
  {
    forall k | 1 <= k <= MAX_NUM
      ensures Get(Moved(g, m), InName(k)) == InAfter(f, num, m, k)
      ensures Get(Moved(g, m), OutName(k)) == OutAfter(f, num, m, k)
    {
      MoveShiftsAt(f, g, num, m, k);
    }
    forall name | !IsCaseFile(name)
      ensures Get(Moved(g, m), name) == Get(f, name)
    {
      assert name != InName(m) && name != InName(m - 1) && name != OutName(m) && name != OutName(m - 1);
    }
  }

  /** The case numbers of a directory, in order. */
  ghost predicate Numbers(files: Files, nums: seq<int>) {
    Ascending(nums) && forall v :: v in nums <==> 0 < v <= MAX_NUM && InName(v) in files
  }

  /** After `i` numbers everything up to `b` has been moved and the rest lies above. */
  ghost predicate Between(nums: seq<int>, i: nat, num: int, b: int)
    requires i <= |nums|
  {
    && (forall j | 0 <= j < i :: nums[j] <= b)
    && (forall j | i <= j < |nums| :: nums[j] > num ==> nums[j] > b)
  }

  lemma NoCaseBetween(f: Files, nums: seq<int>, i: nat, num: int, b: int, c: int)
    requires Numbers(f, nums) && i <= |nums| && Between(nums, i, num, b) && num <= b && c <= MAX_NUM && 0 < num
    requires forall j | i <= j < |nums| :: nums[j] > c
    ensures forall k | b < k <= c :: InName(k) !in f
  {
    forall k | b < k <= c
      ensures k !in nums
    {
    }
  }

  lemma BetweenNext(nums: seq<int>, i: nat, num: int, b: int)
    requires Ascending(nums) && i < |nums| && Between(nums, i, num, b) && nums[i] > num
    ensures nums[i] > b && Between(nums, i + 1, num, nums[i]) && forall j | i <= j < |nums| :: nums[j] > nums[i] - 1
  {
  }

  lemma NextMove(f: Files, g: Files, nums: seq<int>, i: nat, num: int, b: int)
    requires 1 <= num <= b <= MAX_NUM && Numbers(f, nums) && i < |nums| && Between(nums, i, num, b)
    requires Shifted(f, g, num, b) && nums[i] > num
    ensures nums[i] <= MAX_NUM && Shifted(f, Moved(g, nums[i]), num, nums[i]) && Between(nums, i + 1, num, nums[i])
  {
    BetweenNext(nums, i, num, b);
    assert nums[i] in nums;
    NoCaseBetween(f, nums, i, num, b, nums[i] - 1);
    ShiftedSkips(f, g, num, b, nums[i] - 1);
    MoveShifts(f, g, num, nums[i]);
  }

  // ---- effects on the abstract store

  function RemoveAt<T>(s: seq<T>, i: nat): seq<T>
    requires i < |s|
  {
    s[..i] + s[i + 1..]
  }

  function Removed(st: Store, num: int): Store
    requires 1 <= num <= |st.cases| && (st.scores.Some? ==> |st.scores.value| == |st.cases|)
  {
    Store(RemoveAt(st.cases, num - 1),
          if st.scores.None? || |st.cases| == 1 then None else Some(RemoveAt(st.scores.value, num - 1)))
  }

  function ZeroScores(n: nat): seq<int> {
    seq(n, _ => 0)
  }

  function Added(st: Store, c: Case, score: Option<int>): Store {
    var before := if st.scores.Some? then st.scores.value else ZeroScores(|st.cases|);
    Store(st.cases + [c],
          if score.None? && st.scores.None? then None else Some(before + [if score.Some? then score.value else 0]))
  }

  /** `vector::resize(n, 0)`. */
  function Resized(s: seq<int>, n: nat): seq<int> {
    if |s| >= n then s[..n] else s + ZeroScores(n - |s|)
  }

  function WithCase(files: Files, num: int, c: Case): Files {
    files[InName(num) := c.input][OutName(num) := c.output]
  }

  lemma AppendHolds(files: Files, cases: seq<Case>, c: Case)
    requires HoldsCases(files, cases) && |cases| < MAX_NUM
    ensures HoldsCases(WithCase(files, |cases| + 1, c), cases + [c])
    ensures Get(WithCase(files, |cases| + 1, c), SCORE) == Get(files, SCORE)
  {
    var n := |cases| + 1;
    var g := WithCase(files, n, c);
    NamesDiffer(n, n);
    forall k | 1 <= k <= MAX_NUM
      ensures Get(g, InName(k)) == InputAt(cases + [c], k) && Get(g, OutName(k)) == OutputAt(cases + [c], k)
    {
      NamesDiffer(k, n);
      NamesDiffer(n, k);
      assert Get(files, InName(k)) == InputAt(cases, k) && Get(files, OutName(k)) == OutputAt(cases, k);
    }
    assert IsCaseFile(InName(n)) && IsCaseFile(OutName(n));
  }

  lemma RemovedInput(files: Files, num: int, k: int)
    requires 1 <= num <= MAX_NUM && 1 <= k <= MAX_NUM
    ensures Get(files - {InName(num), OutName(num)}, InName(k)) == if k == num then None else Get(files, InName(k))
  {
    NamesDiffer(k, num);
  }

  lemma RemovedOutput(files: Files, num: int, k: int)
    requires 1 <= num <= MAX_NUM && 1 <= k <= MAX_NUM
    ensures Get(files - {InName(num), OutName(num)}, OutName(k)) == if k == num then None else Get(files, OutName(k))
  {
    NamesDiffer(k, num);
    NamesDiffer(num, k);
  }

  lemma CasesAfterRemoval(cases: seq<Case>, num: int, k: int)
    requires 1 <= num <= |cases| && k >= 1
    ensures InputAt(RemoveAt(cases, num - 1), k) == InputAt(cases, if k < num then k else k + 1)
    ensures OutputAt(RemoveAt(cases, num - 1), k) == OutputAt(cases, if k < num then k else k + 1)
  {
  }

  lemma FilesAfterRemoval(files: Files, cases: seq<Case>, num: int, k: int)
    requires HoldsCases(files, cases) && 1 <= num <= |cases| && 1 <= k <= MAX_NUM
    ensures var f := files - {InName(num), OutName(num)};
            && Get(f, InName(k)) == (if k == num then None else InputAt(cases, k))
            && Get(f, OutName(k)) == (if k == num then None else OutputAt(cases, k))
  {
    RemovedInput(files, num, k);
    RemovedOutput(files, num, k);
    assert Get(files, InName(k)) == InputAt(cases, k) && Get(files, OutName(k)) == OutputAt(cases, k);
  }

  lemma RemovalShiftsAt(files: Files, cases: seq<Case>, num: int, f: Files, g: Files, k: int)
    requires HoldsCases(files, cases) && 1 <= num <= |cases| && 1 <= k <= MAX_NUM
    requires f == files - {InName(num), OutName(num)} && Shifted(f, g, num, MAX_NUM)
    ensures Get(g, InName(k)) == InputAt(RemoveAt(cases, num - 1), k)
    ensures Get(g, OutName(k)) == OutputAt(RemoveAt(cases, num - 1), k)
  {
    assert Get(g, InName(k)) == InAfter(f, num, MAX_NUM, k) && Get(g, OutName(k)) == OutAfter(f, num, MAX_NUM, k);
    CasesAfterRemoval(cases, num, k);
    FilesAfterRemoval(files, cases, num, k);
    if k < MAX_NUM {
      FilesAfterRemoval(files, cases, num, k + 1);
    }
  }

  lemma RemovalKeepsOthers(files: Files, cases: seq<Case>, num: int, f: Files, g: Files)
    requires HoldsCases(files, cases) && 1 <= num <= |cases|
    requires f == files - {InName(num), OutName(num)} && Shifted(f, g, num, MAX_NUM)
    ensures Get(g, SCORE) == Get(files, SCORE)
    ensures forall name | name in g :: name == SCORE || IsCaseFile(name)
  {
    NamesDiffer(num, num);
    ScoreIsNoCaseFile();
    assert Get(g, SCORE) == Get(f, SCORE);
    forall name | name in g
      ensures name == SCORE || IsCaseFile(name)
    {
      assert IsCaseFile(name) || Get(g, name) == Get(f, name);
    }
  }

  lemma RemovalShifts(files: Files, cases: seq<Case>, num: int, f: Files, g: Files)
    requires HoldsCases(files, cases) && 1 <= num <= |cases|
    requires f == files - {InName(num), OutName(num)} && Shifted(f, g, num, MAX_NUM)
    ensures HoldsCases(g, RemoveAt(cases, num - 1)) && Get(g, SCORE) == Get(files, SCORE)
  {
    RemovalKeepsOthers(files, cases, num, f, g);
    forall k | 1 <= k <= MAX_NUM
      ensures Get(g, InName(k)) == InputAt(RemoveAt(cases, num - 1), k)
      ensures Get(g, OutName(k)) == OutputAt(RemoveAt(cases, num - 1), k)
    {
      RemovalShiftsAt(files, cases, num, f, g, k);
    }
  }

  lemma ScoreIsNoCaseFile()
    ensures !IsCaseFile(SCORE)
  {
    if k: int :| 1 <= k <= MAX_NUM && (SCORE == InName(k) || SCORE == OutName(k)) {
      NamesDiffer(k, k);
    }
  }

  // ---- the directory

  datatype Listed = Listed(num: int, input: string, output: string, score: Option<int>)

  datatype InlineCase = InlineCase(input: string, output: string, score: int)

  const PREVIEW := 4096
  const INPUT_LIMIT := 4 * 1024 * 1024

  function Truncated(s: string, max: nat): string {
    if |s| <= max then s else s[..max] + "\n...(truncated)"
  }

  function ListOf(st: Store): seq<Listed>
    requires st.scores.Some? ==> |st.scores.value| == |st.cases|
  {
    seq(|st.cases|, i requires 0 <= i < |st.cases| =>
      Listed(i + 1, Truncated(st.cases[i].input, PREVIEW), Truncated(st.cases[i].output, PREVIEW),
             if st.scores.Some? then Some(st.scores.value[i]) else None))
  }

  function CasesOf(data: seq<InlineCase>): seq<Case> {
    seq(|data|, i requires 0 <= i < |data| => Case(data[i].input, data[i].output))
  }

  /** A score below 0 means "not given" and is written as 0. */
  function ScoresOf(data: seq<InlineCase>): seq<int> {
    seq(|data|, i requires 0 <= i < |data| => Max(0, data[i].score))
  }

  predicate AnyScore(data: seq<InlineCase>) {
    exists i :: 0 <= i < |data| && data[i].score >= 0
  }

  ghost function StoreOf(data: seq<InlineCase>): Store {
    Store(CasesOf(data), if AnyScore(data) then Some(ScoresOf(data)) else None)
  }

  // ---- the score file under each operation

  /** After the deletion of case `num`, with `n` cases left: its line goes, the rest is cut or filled
      to one line a case, and an empty file is removed. */
  function ScoresSynced(files: Files, num: int, n: nat): Files
    requires num > 0
  {
    if SCORE !in files then files
    else
      var read := ReadScores(files[SCORE]);
      var kept := LinesKept(read, num, n);
      if kept == [] then files - {SCORE} else files[SCORE := PrintScores(kept)]
  }

  /** After an addition to `n` cases. */
  function ScoresExtended(files: Files, n: nat, score: Option<int>): Files {
    if score.None? && SCORE !in files then files
    else
      var read := if SCORE in files then ReadScores(files[SCORE]) else [];
      files[SCORE := PrintScores(Resized(read, n) + [if score.Some? then score.value else 0])]
  }

  /** Line `k` of a score file; a line that is not there counts as 0. */
  function LineAt(lines: seq<int>, k: nat): int {
    if k < |lines| then lines[k] else 0
  }

  /** Nothing but the score file differs. */
  ghost predicate OnlyScoresDiffer(files: Files, g: Files) {
    forall name | name != SCORE :: Get(g, name) == Get(files, name)
  }

  /** Whatever the score file held, it now has one line for each of `n` cases, every case but the
      deleted one keeps its score, and cases without one get 0; with no case left there is no file. */
  ghost predicate ScoresFollowDeletion(files: Files, g: Files, num: int, n: nat)
    requires num > 0
  {
    && (SCORE in g <==> SCORE in files && n > 0)
    && (SCORE in g ==>
          var was, now := ReadScores(files[SCORE]), ReadScores(g[SCORE]);
          |now| == n && forall i | 0 <= i < n :: now[i] == LineAt(was, if i < num - 1 then i else i + 1))
  }

  /** One line for each of the `n` cases before, unchanged or 0, and one for the new case. */
  ghost predicate ScoresFollowAddition(files: Files, g: Files, n: nat, score: Option<int>) {
    && (SCORE in g <==> SCORE in files || score.Some?)
    && (SCORE in g ==>
          var was := if SCORE in files then ReadScores(files[SCORE]) else [];
          var now := ReadScores(g[SCORE]);
          && |now| == n + 1
          && (forall i | 0 <= i < n :: now[i] == LineAt(was, i))
          && now[n] == if score.Some? then score.value else 0)
  }

  lemma {:induction false} ScoresReadAreInt32(text: string)
    ensures forall v | v in ReadScores(text) :: IsInt32(v)
    decreases |text|
  {
    if text != [] {
      ScoresReadAreInt32(AfterLine(text));
    }
  }

  function LinesKept(read: seq<int>, num: int, n: nat): seq<int>
    requires num > 0
  {
    Resized(if num - 1 < |read| then RemoveAt(read, num - 1) else read, n)
  }

  lemma LinesKeptFollow(read: seq<int>, num: int, n: nat)
    requires num > 0 && forall v | v in read :: IsInt32(v)
    ensures |LinesKept(read, num, n)| == n && forall v | v in LinesKept(read, num, n) :: IsInt32(v)
    ensures forall i | 0 <= i < n :: LinesKept(read, num, n)[i] == LineAt(read, if i < num - 1 then i else i + 1)
  {
  }

  lemma SyncFollowsDeletion(files: Files, num: int, n: nat)
    requires num > 0
    ensures OnlyScoresDiffer(files, ScoresSynced(files, num, n))
    ensures ScoresFollowDeletion(files, ScoresSynced(files, num, n), num, n)
  {
    if SCORE in files {
      var read := ReadScores(files[SCORE]);
      ScoresReadAreInt32(files[SCORE]);
      LinesKeptFollow(read, num, n);
      ScoresRoundTrip(LinesKept(read, num, n));
    }
  }

  lemma ExtendFollowsAddition(files: Files, n: nat, score: Option<int>)
    requires score.Some? ==> IsInt32(score.value)
    ensures OnlyScoresDiffer(files, ScoresExtended(files, n, score))
    ensures ScoresFollowAddition(files, ScoresExtended(files, n, score), n, score)
  {
    var read := if SCORE in files then ReadScores(files[SCORE]) else [];
    if SCORE in files {
      ScoresReadAreInt32(files[SCORE]);
    }
    ScoresRoundTrip(Resized(read, n) + [if score.Some? then score.value else 0]);
  }

  lemma ScoreFileKeepsCases(files: Files, g: Files, cases: seq<Case>)
    requires HoldsCases(files, cases)
    requires forall name | name != SCORE :: Get(g, name) == Get(files, name)
    ensures HoldsCases(g, cases)
  {
    forall k | 1 <= k <= MAX_NUM
      ensures Get(g, InName(k)) == InputAt(cases, k) && Get(g, OutName(k)) == OutputAt(cases, k)
    {
      NamesDiffer(k, k);
      assert Get(files, InName(k)) == InputAt(cases, k) && Get(files, OutName(k)) == OutputAt(cases, k);
    }
    forall name | name in g
      ensures name == SCORE || IsCaseFile(name)
    {
      assert name == SCORE || Get(g, name) == Get(files, name);
    }
  }

  /** Case `num` is gone and `count` cases are left; the scores are still those of `st`. */
  ghost predicate CasesRemoved(g: Files, st: Store, num: int, count: nat) {
    && 1 <= num <= |st.cases| && count == |st.cases| - 1
    && HoldsScores(g, st) && HoldsCases(g, RemoveAt(st.cases, num - 1))
  }

  /** Case `c` has been added to `count` cases; the scores are still those of `st`. */
  ghost predicate CaseAdded(g: Files, st: Store, c: Case, count: nat) {
    count == |st.cases| && HoldsScores(g, st) && HoldsCases(g, st.cases + [c])
  }

  lemma SyncRemoves(g: Files, st: Store, num: int, count: nat)
    requires CasesRemoved(g, st, num, count)
    ensures Represents(ScoresSynced(g, num, count), Removed(st, num))
  {
    ScoreFileKeepsCases(g, ScoresSynced(g, num, count), RemoveAt(st.cases, num - 1));
    if st.scores.Some? {
      ScoresRoundTrip(st.scores.value);
      AllLinesKept(st.scores.value, num);
    }
  }

  lemma AllLinesKept(scores: seq<int>, num: int)
    requires 1 <= num <= |scores|
    ensures LinesKept(scores, num, |scores| - 1) == RemoveAt(scores, num - 1)
  {
  }

  lemma ExtendAdds(g: Files, st: Store, c: Case, score: Option<int>)
    requires score.Some? ==> IsInt32(score.value)
    requires CaseAdded(g, st, c, |st.cases|)
    ensures Represents(ScoresExtended(g, |st.cases|, score), Added(st, c, score))
  {
    var h := ScoresExtended(g, |st.cases|, score);
    ScoreFileKeepsCases(g, h, st.cases + [c]);
    if st.scores.Some? {
      ScoresRoundTrip(st.scores.value);
      assert Resized(st.scores.value, |st.cases|) == st.scores.value;
    } else {
      assert Resized([], |st.cases|) == ZeroScores(|st.cases|);
    }
  }

  lemma DeletionRemoves(before: Files, st: Store, num: int, g: Files, after: seq<int>)
    requires Represents(before, st) && 1 <= num <= MAX_NUM && InName(num) in before && IsScan(g.Keys, after)
    requires Shifted(before - {InName(num), OutName(num)}, g, num, MAX_NUM)
    ensures CasesRemoved(g, st, num, |after|)
  {
    assert Get(before, InName(num)) == InputAt(st.cases, num);
    RemovalShifts(before, st.cases, num, before - {InName(num), OutName(num)}, g);
    ScanOfStore(g, RemoveAt(st.cases, num - 1), after);
  }

  /** The two new files, and no other file but the scores touched. */
  ghost predicate PairAdded(f: Files, g: Files, num: int, input: string, output: string) {
    && Get(g, ToString(num) + ".in") == Some(input) && Get(g, ToString(num) + ".out") == Some(output)
    && forall name | name !in {SCORE, ToString(num) + ".in", ToString(num) + ".out"} :: Get(g, name) == Get(f, name)
  }

  /** The files below `num` are untouched, the others are found under the number before. */
  ghost predicate PairRemoved(f: Files, g: Files, num: int) {
    forall k | 1 <= k < MAX_NUM ::
      var from := if k < num then k else k + 1;
      Get(g, InName(k)) == Get(f, InName(from)) && Get(g, OutName(k)) == Get(f, OutName(from))
  }

  lemma RemovalByName(f: Files, st: Store, num: int, g: Files)
    requires Represents(f, st) && 1 <= num <= |st.cases| && Represents(g, Removed(st, num))
    ensures PairRemoved(f, g, num)
  {
    forall k | 1 <= k < MAX_NUM
      ensures var from := if k < num then k else k + 1;
              Get(g, InName(k)) == Get(f, InName(from)) && Get(g, OutName(k)) == Get(f, OutName(from))
    {
      var from := if k < num then k else k + 1;
      CasesAfterRemoval(st.cases, num, k);
      assert Get(g, InName(k)) == InputAt(Removed(st, num).cases, k);
      assert Get(g, OutName(k)) == OutputAt(Removed(st, num).cases, k);
      assert Get(f, InName(from)) == InputAt(st.cases, from) && Get(f, OutName(from)) == OutputAt(st.cases, from);
    }
  }

  lemma AdditionAppends(before: Files, st: Store, c: Case, nums: seq<int>)
    requires Represents(before, st) && |st.cases| < MAX_NUM && IsScan(before.Keys, nums)
    ensures nums == UpTo(|st.cases|)
    ensures CaseAdded(WithCase(before, |nums| + 1, c), st, c, |nums|)
  {
    ScanOfStore(before, st.cases, nums);
    AppendHolds(before, st.cases, c);
  }

  // ---- the files of an inline set

  function PairFiles(data: seq<InlineCase>): Files {
    if data == [] then map[]
    else
      var n := |data| - 1;
      WithCase(PairFiles(data[..n]), n + 1, Case(data[n].input, data[n].output))
  }

  /** The directory `write_inline_cases` produces. */
  ghost function Written(data: seq<InlineCase>): Files {
    if AnyScore(data) then PairFiles(data)[SCORE := PrintScores(ScoresOf(data))] else PairFiles(data)
  }

  lemma {:induction false} PairFilesHold(data: seq<InlineCase>)
    requires |data| <= MAX_NUM
    ensures HoldsCases(PairFiles(data), CasesOf(data)) && Get(PairFiles(data), SCORE) == None
  {
    if data != [] {
      var n := |data| - 1;
      PairFilesHold(data[..n]);
      CasesOfSnoc(data);
      AppendHolds(PairFiles(data[..n]), CasesOf(data[..n]), Case(data[n].input, data[n].output));
    }
  }

  lemma CasesOfSnoc(data: seq<InlineCase>)
    requires data != []
    ensures var n := |data| - 1; CasesOf(data) == CasesOf(data[..n]) + [Case(data[n].input, data[n].output)]
  {
  }

  lemma WrittenRepresents(data: seq<InlineCase>)
    requires |data| <= MAX_NUM && forall d | d in data :: IsInt32(d.score)
    ensures Represents(Written(data), StoreOf(data))
  {
    PairFilesHold(data);
    ScoreFileKeepsCases(PairFiles(data), Written(data), CasesOf(data));
  }

  /** One score for each case, 0 if none is given. */
  ghost predicate HasScores(scores: seq<int>, data: seq<InlineCase>) {
    && |scores| == |data|
    && forall i | 0 <= i < |data| :: scores[i] == if data[i].score >= 0 then data[i].score else 0
  }

  /** The files under their names, and a score file exactly if a score is given. */
  ghost predicate HoldsInline(files: Files, data: seq<InlineCase>) {
    && (forall i | 0 <= i < |data| :: Get(files, ToString(i + 1) + ".in") == Some(data[i].input))
    && (forall i | 0 <= i < |data| :: Get(files, ToString(i + 1) + ".out") == Some(data[i].output))
    && ("score" in files <==> exists i :: 0 <= i < |data| && data[i].score >= 0)
    && ("score" in files ==> HasScores(ReadScores(files["score"]), data))
  }

  lemma WrittenByName(data: seq<InlineCase>)
    requires Represents(Written(data), StoreOf(data))
    ensures HoldsInline(Written(data), data)
  {
    forall i | 0 <= i < |data|
      ensures Get(Written(data), InName(i + 1)) == Some(data[i].input)
      ensures Get(Written(data), OutName(i + 1)) == Some(data[i].output)
    {
      assert Get(Written(data), InName(i + 1)) == InputAt(CasesOf(data), i + 1);
      assert Get(Written(data), OutName(i + 1)) == OutputAt(CasesOf(data), i + 1);
    }
    if AnyScore(data) {
      ScoresRoundTrip(ScoresOf(data));
    }
  }

  function ScoreAt(scores: seq<int>, i: nat): Option<int> {
    if i < |scores| then Some(scores[i]) else None
  }

  /** One row of the listing: a missing file reads as empty, a long one is cut. */
  function RowOf(files: Files, n: int, score: Option<int>): Listed {
    Listed(n,
           Truncated(if InName(n) in files then files[InName(n)] else "", PREVIEW),
           Truncated(if OutName(n) in files then files[OutName(n)] else "", PREVIEW),
           score)
  }

  lemma RowIsListed(files: Files, st: Store, i: nat)
    requires Represents(files, st) && i < |st.cases|
    ensures RowOf(files, i + 1, if st.scores.Some? then Some(st.scores.value[i]) else None) == ListOf(st)[i]
  {
    assert Get(files, InName(i + 1)) == InputAt(st.cases, i + 1);
    assert Get(files, OutName(i + 1)) == OutputAt(st.cases, i + 1);
  }

  lemma RowsAreListed(files: Files, st: Store, scores: seq<int>, list: seq<Listed>)
    requires Represents(files, st) && scores == ReadScores(if SCORE in files then files[SCORE] else "")
    requires |list| == |st.cases| && forall i | 0 <= i < |list| :: list[i] == RowOf(files, i + 1, ScoreAt(scores, i))
    ensures list == ListOf(st)
  {
    if st.scores.Some? {
      ScoresRoundTrip(st.scores.value);
    }
    forall i | 0 <= i < |list|
      ensures list[i] == ListOf(st)[i]
    {
      RowIsListed(files, st, i);
    }
  }

  /** The whole text, or its first 4096 characters and a mark. */
  ghost predicate IsPreview(shown: string, text: string) {
    if |text| <= 4096 then shown == text else shown == text[..4096] + "\n...(truncated)"
  }

  /** The row shows the two files of case `n` and its score. */
  ghost predicate IsRow(row: Listed, files: Files, n: int, scores: Option<seq<int>>) {
    && row.num == n
    && ToString(n) + ".in" in files && IsPreview(row.input, files[ToString(n) + ".in"])
    && ToString(n) + ".out" in files && IsPreview(row.output, files[ToString(n) + ".out"])
    && (scores.None? ==> row.score == None)
    && (scores.Some? ==> 1 <= n <= |scores.value| && row.score == Some(scores.value[n - 1]))
  }

  lemma RowsShowFiles(files: Files, st: Store)
    requires Represents(files, st)
    ensures forall i | 0 <= i < |st.cases| :: IsRow(ListOf(st)[i], files, i + 1, st.scores)
  {
    forall i | 0 <= i < |st.cases|
      ensures IsRow(ListOf(st)[i], files, i + 1, st.scores)
    {
      assert Get(files, InName(i + 1)) == InputAt(st.cases, i + 1);
      assert Get(files, OutName(i + 1)) == OutputAt(st.cases, i + 1);
    }
  }

  // ---- the directory and its operations

  class TestDir {
    var files: Files

    constructor ()
      ensures files == map[]
    {
      files := map[];
    }

    /** The renaming loop of `delete_test_case`, for any numbering: numbers below `num` stay, each input
        above is found one number lower and none is overwritten; an output moves with its input, and
        one without an input stays where it is and may be overwritten. */
    method ShiftDown(num: int, nums: seq<int>)
      requires num > 0
      modifies this
      ensures num <= MAX_NUM && InName(num) !in old(files) && Numbers(old(files), nums) ==>
                Shifted(old(files), files, num, MAX_NUM)
    {
      ghost var f := files;
      ghost var b := num;
      ghost var proper := num <= MAX_NUM && InName(num) !in f && Numbers(f, nums);
      for i := 0 to |nums|
        invariant proper ==> num <= b <= MAX_NUM && Shifted(f, files, num, b) && Between(nums, i, num, b)
      {
        var n := nums[i];
        if n > num {
          if proper {
            NextMove(f, files, nums, i, num, b);
          }
          files := Renamed(files, InName(n), InName(n - 1));
          files := Renamed(files, OutName(n), OutName(n - 1));
          b := n;
        }
      }
      if proper {
        NoCaseBetween(f, nums, |nums|, num, b, MAX_NUM);
        ShiftedSkips(f, files, num, b, MAX_NUM);
      }
    }

    /** `delete_test_case` up to the score file: remove the pair, close the gap. */
    method RemoveCase(num: int)
      requires num > 0
      modifies this
      ensures num <= MAX_NUM && Canonical(old(files).Keys) ==>
                Shifted(old(files) - {InName(num), OutName(num)}, files, num, MAX_NUM)
    {
      files := files - {InName(num)};
      files := files - {OutName(num)};
      assert files == old(files) - {InName(num), OutName(num)};
      var nums := ScanCaseNums(files.Keys);
      if Canonical(old(files).Keys) {
        CanonicalScan(files.Keys, nums);
      }
      ShiftDown(num, nums);
    }

    method RewriteScores(num: int, count: nat)
      requires num > 0
      modifies this
      ensures files == ScoresSynced(old(files), num, count)
    {
      if SCORE in files {
        var scores := ReadScoreFile(files[SCORE]);
        if num - 1 < |scores| {
          scores := scores[..num - 1] + scores[num..];
        }
        scores := Resized(scores, count);
        if scores == [] {
          files := files - {SCORE};
        } else {
          var content := WriteScoreFile(scores);
          files := files[SCORE := content];
        }
      }
    }

    /** The score file after the deletion of case `num`, `count` cases being left. If the cases are
        already those of the list without `num`, the directory represents that list again. */
    method SyncScoreFile(num: int, count: nat, ghost st: Store)
      requires num > 0
      modifies this
      ensures OnlyScoresDiffer(old(files), files) && ScoresFollowDeletion(old(files), files, num, count)
      ensures CasesRemoved(old(files), st, num, count) ==> Represents(files, Removed(st, num))
    {
      ghost var before := files;
      RewriteScores(num, count);
      SyncFollowsDeletion(before, num, count);
      if CasesRemoved(before, st, num, count) {
        SyncRemoves(before, st, num, count);
      }
    }

    /** `delete_test_case`. On a well-formed directory it removes one element of the list. */
    method DeleteTestCase(num: int, ghost st: Store) returns (ok: bool)
      modifies this
      ensures ok <==> num > 0 && InName(num) in old(files)
      ensures !ok ==> files == old(files)
      ensures ok && num <= MAX_NUM && Represents(old(files), st) ==>
                num <= |st.cases| && Represents(files, Removed(st, num)) && PairRemoved(old(files), files, num)
    {
      if num <= 0 || InName(num) !in files {
        return false;
      }
      ghost var before := files;
      if Represents(before, st) {
        StoreIsCanonical(before, st.cases);
      }
      RemoveCase(num);
      var after := ScanCaseNums(files.Keys);
      if num <= MAX_NUM && Represents(before, st) {
        DeletionRemoves(before, st, num, files, after);
      }
      SyncScoreFile(num, |after|, st);
      if num <= MAX_NUM && Represents(before, st) {
        RemovalByName(before, st, num, files);
      }
      return true;
    }

    method GrowScores(count: nat, score: Option<int>)
      modifies this
      ensures files == ScoresExtended(old(files), count, score)
    {
      if score.Some? || SCORE in files {
        var scores := ReadScoreFile(if SCORE in files then files[SCORE] else "");
        scores := Resized(scores, count);
        scores := scores + [if score.Some? then score.value else 0];
        var content := WriteScoreFile(scores);
        files := files[SCORE := content];
      }
    }

    /** The score file after an addition to `count` cases. If the cases are already those of the list
        with `c`, the directory represents that list again. */
    method ExtendScoreFile(count: nat, score: Option<int>, ghost st: Store, ghost c: Case)
      requires score.Some? ==> IsInt32(score.value)
      modifies this
      ensures OnlyScoresDiffer(old(files), files) && ScoresFollowAddition(old(files), files, count, score)
      ensures CaseAdded(old(files), st, c, count) ==> Represents(files, Added(st, c, score))
    {
      ghost var before := files;
      GrowScores(count, score);
      ExtendFollowsAddition(before, count, score);
      if CaseAdded(before, st, c, count) {
        ExtendAdds(before, st, c, score);
      }
    }

    /** `add_test_case`. On a well-formed directory it appends one element to the list. */
    method AddTestCase(input: string, output: string, score: Option<int>, ghost st: Store) returns (r: Option<int>)
      requires score.Some? ==> IsInt32(score.value)
      modifies this
      ensures r.Some? <==> |input| <= 4194304 && |output| <= 4194304
      ensures r.None? ==> files == old(files)
      ensures r.Some? ==> PairAdded(old(files), files, r.value, input, output)
      ensures r.Some? && Represents(old(files), st) && |st.cases| < MAX_NUM ==>
                r.value == |st.cases| + 1 && Represents(files, Added(st, Case(input, output), score))
    {
      if |input| > INPUT_LIMIT || |output| > INPUT_LIMIT {
        return None;
      }
      var nums := ScanCaseNums(files.Keys);
      var next := if nums == [] then 1 else nums[|nums| - 1] + 1;
      if Represents(files, st) && |st.cases| < MAX_NUM {
        AdditionAppends(files, st, Case(input, output), nums);
      }
      files := files[InName(next) := input];
      files := files[OutName(next) := output];
      NamesEnd(next);
      assert PairAdded(old(files), files, next, input, output);
      ExtendScoreFile(|nums|, score, st, Case(input, output));
      return Some(next);
    }

    /** The loop of `list_test_cases`. */
    method ListRows(nums: seq<int>, scores: seq<int>) returns (list: seq<Listed>)
      ensures |list| == |nums| && forall i | 0 <= i < |nums| :: list[i] == RowOf(files, nums[i], ScoreAt(scores, i))
    {
      list := [];
      for i := 0 to |nums|
        invariant |list| == i && forall j | 0 <= j < i :: list[j] == RowOf(files, nums[j], ScoreAt(scores, j))
      {
        list := list + [RowOf(files, nums[i], ScoreAt(scores, i))];
      }
    }

    /** `list_test_cases`: every case with its preview and score. */
    method ListTestCases(ghost st: Store) returns (list: seq<Listed>)
      ensures Represents(files, st) ==>
                |list| == |st.cases| && forall i | 0 <= i < |list| :: IsRow(list[i], files, i + 1, st.scores)
    {
      var nums := ScanCaseNums(files.Keys);
      var scores := ReadScoreFile(if SCORE in files then files[SCORE] else "");
      list := ListRows(nums, scores);
      if Represents(files, st) {
        ScanOfStore(files, st.cases, nums);
        RowsAreListed(files, st, scores, list);
        RowsShowFiles(files, st);
      }
    }

    /** The loop of `write_inline_cases`. */
    method WritePairs(data: seq<InlineCase>)
      requires files == map[]
      modifies this
      ensures files == PairFiles(data)
    {
      for i := 0 to |data|
        invariant files == PairFiles(data[..i])
      {
        assert data[..i + 1][..i] == data[..i];
        files := files[InName(i + 1) := data[i].input];
        files := files[OutName(i + 1) := data[i].output];
      }
      assert data[..|data|] == data;
    }

    /** `write_inline_cases` into an empty directory. */
    method WriteInlineCases(data: seq<InlineCase>)
      requires files == map[] && |data| <= MAX_NUM && forall d | d in data :: IsInt32(d.score)
      modifies this
      ensures files == Written(data) && Represents(files, StoreOf(data))
      ensures HoldsInline(files, data)
    {
      WrittenRepresents(data);
      WrittenByName(data);
      WritePairs(data);
      var any := exists i :: 0 <= i < |data| && data[i].score >= 0;
      if any {
        var content := WriteScoreFile(ScoresOf(data));
        files := files[SCORE := content];
      }
      assert files == Written(data);
    }
  }

  // ---- histories of the list

  /** Adding a case and deleting it again restores the store, unless the addition created the score
      file of a non-empty store: that file then stays, with a 0 for every case. */
  lemma AddThenDelete(st: Store, c: Case, score: Option<int>)
    requires st.scores.Some? ==> |st.scores.value| == |st.cases| > 0
    ensures var back := Removed(Added(st, c, score), |st.cases| + 1);
            && back.cases == st.cases
            && (back == st <==> score.None? || st.scores.Some? || st.cases == [])
            && (back != st ==> back.scores == Some(ZeroScores(|st.cases|)))
  {
    var before := if st.scores.Some? then st.scores.value else ZeroScores(|st.cases|);
    var back := Removed(Added(st, c, score), |st.cases| + 1);
    assert RemoveAt(st.cases + [c], |st.cases|) == st.cases;
    assert Added(st, c, score).scores.Some? ==> RemoveAt(Added(st, c, score).scores.value, |st.cases|) == before;
  }

  datatype Op = Add(input: string, output: string, score: Option<int>) | Delete(num: int)

  predicate WellTyped(op: Op) {
    match op
    case Add(_, _, score) => score.Some? ==> IsInt32(score.value)
    case Delete(num) => num <= MAX_NUM
  }

  ghost predicate Aligned(st: Store) {
    st.scores.Some? ==> |st.scores.value| == |st.cases| > 0
  }

  /** One request on the list; requests the program refuses change nothing. */
  function Performed(st: Store, op: Op): Store
    requires Aligned(st)
  {
    match op
    case Add(input, output, score) =>
      if |input| <= INPUT_LIMIT && |output| <= INPUT_LIMIT then Added(st, Case(input, output), score) else st
    case Delete(num) => if 1 <= num <= |st.cases| then Removed(st, num) else st
  }

  lemma PerformedIsAligned(st: Store, op: Op)
    requires Aligned(st)
    ensures Aligned(Performed(st, op)) && |Performed(st, op).cases| <= |st.cases| + 1
  {
  }

  function Replayed(st: Store, ops: seq<Op>): (r: Store)
    requires Aligned(st)
    ensures Aligned(r) && |r.cases| <= |st.cases| + |ops|
    decreases |ops|
  {
    if ops == [] then st
    else
      PerformedIsAligned(st, ops[0]);
      Replayed(Performed(st, ops[0]), ops[1..])
  }

  /** Any sequence of additions and deletions on the directory is the same sequence on the list. */
  method Replay(dir: TestDir, ops: seq<Op>, ghost st: Store)
    requires Represents(dir.files, st) && |st.cases| + |ops| <= MAX_NUM && forall op | op in ops :: WellTyped(op)
    modifies dir
    ensures Represents(dir.files, Replayed(st, ops))
  {
    ghost var cur := st;
    for i := 0 to |ops|
      invariant Represents(dir.files, cur) && |cur.cases| <= |st.cases| + i
      invariant Replayed(cur, ops[i..]) == Replayed(st, ops)
    {
      assert ops[i..][1..] == ops[i + 1..];
      assert ops[i] in ops;
      PerformedIsAligned(cur, ops[i]);
      match ops[i] {
        case Add(input, output, score) =>
          var r := dir.AddTestCase(input, output, score, cur);
        case Delete(num) =>
          assert 1 <= num <= MAX_NUM ==> Get(dir.files, InName(num)) == InputAt(cur.cases, num);
          var ok := dir.DeleteTestCase(num, cur);
      }
      cur := Performed(cur, ops[i]);
    }
    assert ops[|ops|..] == [];
  }
}
