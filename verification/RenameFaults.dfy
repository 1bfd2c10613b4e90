/** The renaming loop of `delete_test_case` (src/admin/admin_problem.cpp:265-275) when renames fail,
    when the program crashes, and on directories that an earlier crash left behind. The errors of
    renames are ignored, so the loop goes on after a failure. Inputs and outputs are renamed
    independently of each other; this is either of the two, as files by case number. */
module RenameFaults {
  import opened Common
  import opened CaseFiles
  import T = TestStore

  type Slots = map<nat, string>

  function At(f: Slots, k: nat): Option<string> {
    if k in f then Some(f[k]) else None
  }

  /** `stuck` are the numbers whose rename fails or is not tried. */
  predicate Moves(f: Slots, num: nat, stuck: set<nat>, k: nat) {
    k in f && k > num && k !in stuck
  }

  /** What is at number `j` once the numbers up to `b` have had their turn. */
  function Shifted(f: Slots, num: nat, stuck: set<nat>, b: int, j: nat): Option<string> {
    if j + 1 <= b && Moves(f, num, stuck, j + 1) then Some(f[j + 1])
    else if j <= b && Moves(f, num, stuck, j) then None
    else At(f, j)
  }

  ghost predicate IsShifted(f: Slots, num: nat, stuck: set<nat>, b: int, g: Slots) {
    forall j: nat :: At(g, j) == Shifted(f, num, stuck, b, j)
  }

  /** Every number has had its turn. */
  ghost predicate Complete(f: Slots, num: nat, stuck: set<nat>, g: Slots) {
    exists b :: (forall k | k in f :: k <= b) && IsShifted(f, num, stuck, b, g)
  }

  /** The numbers of `f` that stay: their rename fails, or the scan did not find an input for them. */
  function Stuck(f: Slots, nums: seq<nat>, failed: set<nat>): set<nat> {
    set k | k in f && (k in failed || k !in nums)
  }

  /** Numbers that do not move need no turn. */
  lemma GapChangesNothing(f: Slots, num: nat, stuck: set<nat>, b: int, c: int, g: Slots)
    requires IsShifted(f, num, stuck, b, g) && b <= c && forall k: nat | b < k <= c :: !Moves(f, num, stuck, k)
    ensures IsShifted(f, num, stuck, c, g)
  {
    forall j: nat
      ensures At(g, j) == Shifted(f, num, stuck, c, j)
    {
      assert At(g, j) == Shifted(f, num, stuck, b, j);
    }
  }

  lemma TurnShifts(f: Slots, num: nat, stuck: set<nat>, n: nat, g: Slots, h: Slots)
    requires IsShifted(f, num, stuck, n - 1, g) && num !in f
    requires h == if Moves(f, num, stuck, n) then (g - {n})[n - 1 := f[n]] else g
    ensures IsShifted(f, num, stuck, n, h)
  {
    forall j: nat
      ensures At(h, j) == Shifted(f, num, stuck, n, j)
    {
      assert At(g, j) == Shifted(f, num, stuck, n - 1, j);
    }
  }

  lemma NotScanned(nums: seq<nat>, i: nat, k: nat)
    requires Ascending(nums) && i < |nums| && k < nums[i] && (i > 0 ==> nums[i - 1] < k)
    ensures k !in nums
  {
  }

  /** Renames every scanned number above `num` down by one; renames may fail, and those of missing
      files do. */
  method ShiftSlots(f: Slots, num: nat, nums: seq<nat>, failed: set<nat>) returns (g: Slots)
    requires num !in f && Ascending(nums)
    ensures Complete(f, num, Stuck(f, nums, failed), g)
  {
    g := f;
    ghost var stuck := Stuck(f, nums, failed);
    ghost var b: int := -1;
    for i := 0 to |nums|
      invariant i > 0 ==> b == nums[i - 1]
      invariant i == 0 ==> b == -1
      invariant IsShifted(f, num, stuck, b, g)
    {
      var n := nums[i];
      assert n in nums;
      forall k: nat | b < k <= n - 1
        ensures k !in nums
      {
        NotScanned(nums, i, k);
      }
      GapChangesNothing(f, num, stuck, b, n - 1, g);
      assert At(g, n) == Shifted(f, num, stuck, n - 1, n);
      ghost var before := g;
      if n > num && n in g && n !in failed {
        g := (g - {n})[n - 1 := g[n]];
      }
      TurnShifts(f, num, stuck, n, before, g);
      b := n;
    }
    AllTurns(f, num, nums, failed, b, g);
  }

  lemma AllTurns(f: Slots, num: nat, nums: seq<nat>, failed: set<nat>, b: int, g: Slots)
    requires Ascending(nums) && IsShifted(f, num, Stuck(f, nums, failed), b, g)
    requires b == if nums == [] then -1 else nums[|nums| - 1]
    ensures Complete(f, num, Stuck(f, nums, failed), g)
  {
    var top := UpperBound(f.Keys);
    var c := if b < top then top else b;
    GapChangesNothing(f, num, Stuck(f, nums, failed), b, c, g);
  }

  lemma {:induction false} UpperBound(ks: set<nat>) returns (top: nat)
    ensures forall k | k in ks :: k <= top
    decreases ks
  {
    top := 0;
    if ks != {} {
      var k :| k in ks;
      top := UpperBound(ks - {k});
      top := if k > top then k else top;
      assert forall m | m in ks :: m == k || m in ks - {k};
    }
  }

  // ---- what is lost

  /** Where the file of case `k` ends up, or would. */
  function Place(f: Slots, num: nat, stuck: set<nat>, k: nat): nat {
    if Moves(f, num, stuck, k) then k - 1 else k
  }

  /** A file stays and the next number is renamed onto it. */
  predicate Collides(f: Slots, num: nat, stuck: set<nat>, k: nat) {
    k in f && k > num && k in stuck && Moves(f, num, stuck, k + 1)
  }

  function Places(f: Slots, num: nat, stuck: set<nat>, ks: set<nat>): set<nat> {
    set k | k in ks :: Place(f, num, stuck, k)
  }

  /** The files that are left are those at the places of the cases. */
  lemma LeftAtPlaces(f: Slots, num: nat, stuck: set<nat>, g: Slots)
    requires num !in f && Complete(f, num, stuck, g)
    ensures g.Keys == Places(f, num, stuck, f.Keys)
    ensures forall k | k in f && !Collides(f, num, stuck, k) :: At(g, Place(f, num, stuck, k)) == Some(f[k])
  {
    var b :| (forall k | k in f :: k <= b) && IsShifted(f, num, stuck, b, g);
    forall j: nat
      ensures j in g <==> j in Places(f, num, stuck, f.Keys)
    {
      assert At(g, j) == Shifted(f, num, stuck, b, j);
      if j in g {
        assert Place(f, num, stuck, if Moves(f, num, stuck, j + 1) then j + 1 else j) == j;
      }
    }
    forall k | k in f && !Collides(f, num, stuck, k)
      ensures At(g, Place(f, num, stuck, k)) == Some(f[k])
    {
      var p := Place(f, num, stuck, k);
      assert At(g, p) == Shifted(f, num, stuck, b, p);
    }
  }

  lemma SamePlaceCollides(f: Slots, num: nat, stuck: set<nat>, k: nat, m: nat)
    requires num !in f && k in f && m in f && k != m && Place(f, num, stuck, k) == Place(f, num, stuck, m)
    ensures Collides(f, num, stuck, if k < m then k else m)
  {
  }

  lemma {:induction false} PlacesCount(f: Slots, num: nat, stuck: set<nat>, ks: set<nat>)
    requires num !in f && ks <= f.Keys
    ensures |Places(f, num, stuck, ks)| <= |ks|
    ensures (forall k | k in f :: !Collides(f, num, stuck, k)) ==> |Places(f, num, stuck, ks)| == |ks|
    decreases ks
  {
    if ks != {} {
      var k :| k in ks;
      var p := Place(f, num, stuck, k);
      PlacesCount(f, num, stuck, ks - {k});
      assert Places(f, num, stuck, ks) == Places(f, num, stuck, ks - {k}) + {p};
      if p in Places(f, num, stuck, ks - {k}) {
        var m :| m in ks - {k} && Place(f, num, stuck, m) == p;
        SamePlaceCollides(f, num, stuck, m, k);
      }
    } else {
      assert Places(f, num, stuck, ks) == {};
    }
  }

  lemma CollisionShrinks(f: Slots, num: nat, stuck: set<nat>, k: nat)
    requires num !in f && Collides(f, num, stuck, k)
    ensures |Places(f, num, stuck, f.Keys)| < |f|
  {
    PlacesCount(f, num, stuck, f.Keys - {k});
    assert Place(f, num, stuck, k + 1) == k == Place(f, num, stuck, k);
    assert Places(f, num, stuck, f.Keys) == Places(f, num, stuck, f.Keys - {k});
  }

  ghost predicate AllKept(f: Slots, num: nat, stuck: set<nat>, g: Slots) {
    |g| == |f| && forall k | k in f :: At(g, Place(f, num, stuck, k)) == Some(f[k])
  }

  /** The loop keeps every file exactly if no file that stays is followed by one that moves;
      otherwise a case is overwritten and fewer files are left. */
  lemma NothingLostExactlyWhen(f: Slots, num: nat, stuck: set<nat>, g: Slots)
    requires num !in f && Complete(f, num, stuck, g)
    ensures AllKept(f, num, stuck, g) <==> forall k | k in f :: !Collides(f, num, stuck, k)
    ensures |g| < |f| <==> exists k | k in f :: Collides(f, num, stuck, k)
  {
    LeftAtPlaces(f, num, stuck, g);
    assert |g| == |Places(f, num, stuck, f.Keys)|;
    PlacesCount(f, num, stuck, f.Keys);
    if k :| k in f && Collides(f, num, stuck, k) {
      CollisionShrinks(f, num, stuck, k);
    }
  }

  /** A crash after any number of renames loses nothing: it is as if all later ones had failed. */
  lemma CrashLosesNothing(f: Slots, num: nat, done: nat, stuck: set<nat>, g: Slots)
    requires num !in f && Complete(f, num, stuck, g) && forall k | k in f && k > num :: k in stuck <==> k > done
    ensures AllKept(f, num, stuck, g)
  {
    NothingLostExactlyWhen(f, num, stuck, g);
  }

  // ---- inputs and outputs

  ghost predicate Distinct(f: Slots) {
    forall k, m | k in f && m in f && f[k] == f[m] :: k == m
  }

  ghost predicate Together(gi: Slots, go: Slots, input: string, output: string) {
    exists j: nat :: At(gi, j) == Some(input) && At(go, j) == Some(output)
  }

  predicate PairKept(f: Slots, h: Slots, num: nat, stuckIn: set<nat>, stuckOut: set<nat>, k: nat) {
    && !Collides(f, num, stuckIn, k) && !Collides(h, num, stuckOut, k)
    && (k > num ==> (k in stuckIn <==> k in stuckOut))
  }

  lemma FoundOnlyAtPlace(f: Slots, num: nat, stuck: set<nat>, g: Slots, k: nat, j: nat)
    requires num !in f && Complete(f, num, stuck, g) && Distinct(f) && k in f && At(g, j) == Some(f[k])
    ensures j == Place(f, num, stuck, k) && !Collides(f, num, stuck, k)
  {
    var b :| (forall k | k in f :: k <= b) && IsShifted(f, num, stuck, b, g);
    assert At(g, j) == Shifted(f, num, stuck, b, j);
  }

  /** After both loops the input and the output of a case have the same number exactly if neither is
      overwritten and both moved or both stayed. Files with equal contents cannot be told apart, so
      "only if" is for distinct contents. */
  lemma PairKeptExactlyWhen(f: Slots, h: Slots, num: nat, stuckIn: set<nat>, stuckOut: set<nat>, gi: Slots, go: Slots,
                            k: nat)
    requires num !in f && num !in h && k in f && k in h
    requires Complete(f, num, stuckIn, gi) && Complete(h, num, stuckOut, go)
    ensures PairKept(f, h, num, stuckIn, stuckOut, k) ==> Together(gi, go, f[k], h[k])
    ensures Distinct(f) && Distinct(h) && Together(gi, go, f[k], h[k]) ==> PairKept(f, h, num, stuckIn, stuckOut, k)
  {
    LeftAtPlaces(f, num, stuckIn, gi);
    LeftAtPlaces(h, num, stuckOut, go);
    if Distinct(f) && Distinct(h) && Together(gi, go, f[k], h[k]) {
      var j: nat :| At(gi, j) == Some(f[k]) && At(go, j) == Some(h[k]);
      FoundOnlyAtPlace(f, num, stuckIn, gi, k, j);
      FoundOnlyAtPlace(h, num, stuckOut, go, k, j);
    }
  }

  // ---- directories with unpaired outputs

  /** The outputs that are not renamed for want of an input. */
  function Unpaired(f: Slots, h: Slots): set<nat> {
    h.Keys - f.Keys
  }

  /** An unpaired output followed by a pair. */
  predicate Exposed(f: Slots, h: Slots, k: nat) {
    k in h && k !in f && k + 1 in h && k + 1 in f
  }

  /** If no rename fails, a delete keeps every input; it loses an output exactly if, above the deleted
      number, one without an input is followed by a pair. */
  lemma DeleteLosesOutputExactlyWhen(f: Slots, h: Slots, num: nat, gi: Slots, go: Slots)
    requires num !in f && num !in h && Complete(f, num, {}, gi) && Complete(h, num, Unpaired(f, h), go)
    ensures AllKept(f, num, {}, gi)
    ensures |go| < |h| <==> exists k: nat :: k > num && Exposed(f, h, k)
  {
    NothingLostExactlyWhen(f, num, {}, gi);
    NothingLostExactlyWhen(h, num, Unpaired(f, h), go);
    forall k: nat
      ensures Collides(h, num, Unpaired(f, h), k) <==> k > num && Exposed(f, h, k)
    {
    }
  }

  ghost predicate Numbered(f: Slots, n: nat) {
    forall k: nat :: k in f <==> 1 <= k <= n
  }

  /** A delete of case `d` out of `n` that crashed: the inputs up to `ci` and the outputs up to `co` have
      had their turn. With `co < d` it crashed before the output of `d` was removed. */
  ghost predicate CrashedDelete(f: Slots, h: Slots, n: nat, d: nat, ci: nat, co: nat, gi: Slots, go: Slots) {
    && Numbered(f, n) && Numbered(h, n) && 1 <= d <= ci <= n && ci - 1 <= co <= ci
    && IsShifted(f - {d}, d, {}, ci, gi)
    && if co < d then go == h else IsShifted(h - {d}, d, {}, co, go)
  }

  lemma CrashedNumbers(f: Slots, h: Slots, n: nat, d: nat, ci: nat, co: nat, gi: Slots, go: Slots)
    requires CrashedDelete(f, h, n, d, ci, co, gi, go)
    ensures forall k: nat :: k in gi <==> 1 <= k <= n && k != ci
    ensures forall k: nat :: k in go <==> 1 <= k <= n && (co >= d ==> k != co)
  {
    forall k: nat
      ensures k in gi <==> 1 <= k <= n && k != ci
      ensures k in go <==> 1 <= k <= n && (co >= d ==> k != co)
    {
      assert At(gi, k) == Shifted(f - {d}, d, {}, ci, k);
      assert co >= d ==> At(go, k) == Shifted(h - {d}, d, {}, co, k);
    }
  }

  lemma ExposedAfterCrash(n: nat, d: nat, ci: nat, co: nat, gi: Slots, go: Slots, e: nat)
    requires 1 <= d <= ci <= n && ci - 1 <= co <= ci && 1 <= e <= n
    requires forall k: nat :: k in gi <==> 1 <= k <= n && k != ci
    requires forall k: nat :: k in go <==> 1 <= k <= n && (co >= d ==> k != co)
    ensures (exists k: nat :: k > e && Exposed(gi - {e}, go - {e}, k)) <==> co < ci && e < ci < n
  {
    if co < ci && e < ci < n {
      assert Exposed(gi - {e}, go - {e}, ci);
    }
  }

  /** The crash itself loses nothing, but the next delete may: it overwrites an output exactly if the
      crash fell between the two operations of one number, that number lies above the deleted one,
      and it is not the last. */
  lemma NextDeleteLosesExactlyWhen(f: Slots, h: Slots, n: nat, d: nat, ci: nat, co: nat, gi: Slots, go: Slots,
                                   e: nat, ri: Slots, ro: Slots)
    requires CrashedDelete(f, h, n, d, ci, co, gi, go) && e in gi
    requires Complete(gi - {e}, e, {}, ri) && Complete(go - {e}, e, Unpaired(gi - {e}, go - {e}), ro)
    ensures AllKept(gi - {e}, e, {}, ri)
    ensures |ro| < |go - {e}| <==> co < ci && e < ci < n
  {
    CrashedNumbers(f, h, n, d, ci, co, gi, go);
    DeleteLosesOutputExactlyWhen(gi - {e}, go - {e}, e, ri, ro);
    ExposedAfterCrash(n, d, ci, co, gi, go, e);
  }

  // ---- the same for the directory

  ghost function Inputs(files: T.Files): Slots {
    map k: nat | 1 <= k <= MAX_NUM && InName(k) in files :: files[InName(k)]
  }

  ghost function Outputs(files: T.Files): Slots {
    map k: nat | 1 <= k <= MAX_NUM && OutName(k) in files :: files[OutName(k)]
  }

  lemma SlotsOfFiles(files: T.Files, k: nat)
    ensures At(Inputs(files), k) == if 1 <= k <= MAX_NUM then T.Get(files, InName(k)) else None
    ensures At(Outputs(files), k) == if 1 <= k <= MAX_NUM then T.Get(files, OutName(k)) else None
  {
  }

  /** `TestStore.InAfter` and `TestStore.OutAfter` after the whole loop, on files by number. */
  function InputAfter(f: Slots, num: nat, j: nat): Option<string> {
    if j < num then At(f, j) else At(f, j + 1)
  }

  function OutputAfter(f: Slots, h: Slots, num: nat, j: nat): Option<string> {
    if j < num then At(h, j)
    else if At(f, j + 1).Some? && At(h, j + 1).Some? then At(h, j + 1)
    else if j > num && At(f, j).Some? then None
    else At(h, j)
  }

  lemma InputAfterOnSlots(f: T.Files, num: nat, j: nat)
    requires 1 <= num <= MAX_NUM && 1 <= j <= MAX_NUM
    ensures T.InAfter(f, num, MAX_NUM, j) == InputAfter(Inputs(f), num, j)
  {
    SlotsOfFiles(f, j);
    SlotsOfFiles(f, j + 1);
  }

  /** A number has a file exactly if the directory has one of that name. */
  lemma SlotPresent(files: T.Files, k: nat)
    requires 1 <= k <= MAX_NUM
    ensures At(Inputs(files), k).Some? <==> InName(k) in files
    ensures At(Outputs(files), k).Some? <==> OutName(k) in files
  {
  }

  lemma OutputAfterOnSlots(f: T.Files, num: nat, j: nat)
    requires 1 <= num <= MAX_NUM && 1 <= j <= MAX_NUM && InName(num) !in f
    ensures T.OutAfter(f, num, MAX_NUM, j) == OutputAfter(Inputs(f), Outputs(f), num, j)
  {
    SlotsOfFiles(f, j);
    SlotsOfFiles(f, j + 1);
    SlotPresent(f, j);
    if j < MAX_NUM {
      SlotPresent(f, j + 1);
    }
  }

  lemma AfterIsShifted(f: Slots, h: Slots, num: nat, b: nat, j: nat)
    requires num !in f && num !in h && num <= b && j <= b && forall k: nat | k > b :: k !in f && k !in h
    ensures InputAfter(f, num, j) == Shifted(f, num, {}, b, j)
    ensures OutputAfter(f, h, num, j) == Shifted(h, num, Unpaired(f, h), b, j)
  {
  }

  lemma FilesAfter(f: T.Files, g: T.Files, num: nat, j: nat)
    requires 1 <= num <= MAX_NUM && InName(num) !in f && T.Shifted(f, g, num, MAX_NUM) && 1 <= j <= MAX_NUM
    ensures At(Inputs(g), j) == InputAfter(Inputs(f), num, j)
    ensures At(Outputs(g), j) == OutputAfter(Inputs(f), Outputs(f), num, j)
  {
    SlotsOfFiles(g, j);
    assert T.Get(g, InName(j)) == T.InAfter(f, num, MAX_NUM, j);
    assert T.Get(g, OutName(j)) == T.OutAfter(f, num, MAX_NUM, j);
    InputAfterOnSlots(f, num, j);
    OutputAfterOnSlots(f, num, j);
  }

  lemma ShiftedFilesAreSlots(f: T.Files, g: T.Files, num: nat)
    requires 1 <= num <= MAX_NUM && InName(num) !in f && OutName(num) !in f && T.Shifted(f, g, num, MAX_NUM)
    ensures Complete(Inputs(f), num, {}, Inputs(g))
    ensures Complete(Outputs(f), num, Unpaired(Inputs(f), Outputs(f)), Outputs(g))
  {
    forall j: nat
      ensures At(Inputs(g), j) == Shifted(Inputs(f), num, {}, MAX_NUM, j)
      ensures At(Outputs(g), j) == Shifted(Outputs(f), num, Unpaired(Inputs(f), Outputs(f)), MAX_NUM, j)
    {
      if 1 <= j <= MAX_NUM {
        FilesAfter(f, g, num, j);
        AfterIsShifted(Inputs(f), Outputs(f), num, MAX_NUM, j);
      }
    }
    assert IsShifted(Inputs(f), num, {}, MAX_NUM, Inputs(g));
    assert IsShifted(Outputs(f), num, Unpaired(Inputs(f), Outputs(f)), MAX_NUM, Outputs(g));
  }

  /** What `TestDir.RemoveCase` keeps, for every directory with canonical names. */
  lemma RemoveCaseLosesExactlyWhen(files: T.Files, g: T.Files, num: nat)
    requires 1 <= num <= MAX_NUM && T.Shifted(files - {InName(num), OutName(num)}, g, num, MAX_NUM)
    ensures var f := files - {InName(num), OutName(num)};
            && AllKept(Inputs(f), num, {}, Inputs(g))
            && (|Outputs(g)| < |Outputs(f)| <==> exists k: nat :: k > num && Exposed(Inputs(f), Outputs(f), k))
  {
    var f := files - {InName(num), OutName(num)};
    ShiftedFilesAreSlots(f, g, num);
    DeleteLosesOutputExactlyWhen(Inputs(f), Outputs(f), num, Inputs(g), Outputs(g));
  }
}
