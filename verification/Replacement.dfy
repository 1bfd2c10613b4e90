/** `update_problem`'s replacement of the test cases in the program's own order (src/problem.cpp:349-387),
    recorded as a run of the step system, so that what holds of every run holds of it. */
module Replacement {
  import opened Common
  import opened CaseFiles
  import opened TestStore
  import opened DirSwap

  /** The files in the order `write_inline_cases` writes them. */
  function PairWrites(data: seq<InlineCase>): (ws: seq<Write>)
    ensures |ws| == 2 * |data|
  {
    if data == [] then []
    else
      var n := |data| - 1;
      PairWrites(data[..n]) + [Write(InName(n + 1), data[n].input), Write(OutName(n + 1), data[n].output)]
  }

  function Writes(data: seq<InlineCase>): seq<Write> {
    if AnyScore(data) then PairWrites(data) + [Write(SCORE, PrintScores(ScoresOf(data)))] else PairWrites(data)
  }

  lemma {:induction false} PairWritesMakePairFiles(data: seq<InlineCase>)
    ensures Applied(PairWrites(data)) == PairFiles(data)
  {
    if data != [] {
      var n := |data| - 1;
      var ws := PairWrites(data[..n]);
      var a := Write(InName(n + 1), data[n].input);
      var b := Write(OutName(n + 1), data[n].output);
      PairWritesMakePairFiles(data[..n]);
      AppliedSnoc(ws, a);
      AppliedSnoc(ws + [a], b);
      assert ws + [a] + [b] == PairWrites(data);
    }
  }

  lemma WritesMakeWritten(data: seq<InlineCase>)
    ensures Applied(Writes(data)) == Written(data)
  {
    PairWritesMakePairFiles(data);
    if AnyScore(data) {
      AppliedSnoc(PairWrites(data), Write(SCORE, PrintScores(ScoresOf(data))));
    }
  }

  /** The writes of a set, one after the other, make the directory that represents the set. */
  lemma WritesMakeTheSet(data: seq<InlineCase>)
    requires |data| <= MAX_NUM && forall d | d in data :: Decimal.IsInt32(d.score)
    ensures Applied(Writes(data)) == Written(data) && Represents(Applied(Writes(data)), StoreOf(data))
  {
    WritesMakeWritten(data);
    WrittenRepresents(data);
  }

  lemma {:induction false} PairWritesAt(data: seq<InlineCase>, i: nat)
    requires i < |data|
    ensures PairWrites(data)[2 * i] == Write(InName(i + 1), data[i].input)
    ensures PairWrites(data)[2 * i + 1] == Write(OutName(i + 1), data[i].output)
  {
    var n := |data| - 1;
    if i < n {
      PairWritesAt(data[..n], i);
    }
  }

  ghost predicate StartsWithPairs(ws: seq<Write>, data: seq<InlineCase>) {
    && |ws| >= 2 * |data|
    && forall i | 0 <= i < |data| ::
         ws[2 * i] == Write(InName(i + 1), data[i].input) && ws[2 * i + 1] == Write(OutName(i + 1), data[i].output)
  }

  /** `ws` are the files of `data`: the pairs in order, then the score file if a score is given. */
  ghost predicate AreWrites(ws: seq<Write>, data: seq<InlineCase>) {
    && StartsWithPairs(ws, data)
    && |ws| == 2 * |data| + (if AnyScore(data) then 1 else 0)
    && (AnyScore(data) ==> ws[2 * |data|] == Write(SCORE, PrintScores(ScoresOf(data))))
  }

  lemma WritesAreWrites(data: seq<InlineCase>)
    ensures AreWrites(Writes(data), data)
  {
    forall i | 0 <= i < |data|
      ensures Writes(data)[2 * i] == Write(InName(i + 1), data[i].input)
      ensures Writes(data)[2 * i + 1] == Write(OutName(i + 1), data[i].output)
    {
      PairWritesAt(data, i);
    }
  }

  /** What a request can contain. */
  predicate IsWellFormed(data: seq<InlineCase>) {
    |data| <= MAX_NUM && forall d | d in data :: Decimal.IsInt32(d.score)
  }

  // ---- names

  /** The number of the case write `k` belongs to. */
  function NumOf(k: nat): nat {
    k / 2 + 1
  }

  lemma NameOf(ws: seq<Write>, data: seq<InlineCase>, k: nat)
    requires AreWrites(ws, data) && k < |ws|
    ensures ws[k].name == if k == 2 * |data| then SCORE
                          else if k % 2 == 0 then InName(NumOf(k)) else OutName(NumOf(k))
  {
    var i := k / 2;
    if k < 2 * |data| {
      assert ws[2 * i].name == InName(i + 1) && ws[2 * i + 1].name == OutName(i + 1);
      assert k == 2 * i || k == 2 * i + 1;
    }
  }

  /** No two files of a set have the same name. */
  lemma WritesHaveDistinctNames(data: seq<InlineCase>)
    requires |data| <= MAX_NUM
    ensures DistinctNames(Writes(data))
  {
    WritesAreWrites(data);
    NamesAreDistinct(Writes(data), data);
  }

  lemma NamesAreDistinct(ws: seq<Write>, data: seq<InlineCase>)
    requires |data| <= MAX_NUM && AreWrites(ws, data)
    ensures DistinctNames(ws)
  {
    forall i, j | 0 <= i < j < |ws|
      ensures ws[i].name != ws[j].name
    {
      NameOf(ws, data, i);
      NameOf(ws, data, j);
      NamesDiffer(NumOf(i), NumOf(j));
      NamesDiffer(NumOf(j), NumOf(i));
    }
  }

  // ---- failures

  /** Which file operations fail: `writes` of them succeed, as far as the program can see, before one
      fails and leaves `partial`. Write `k in cuts` stores only `cuts[k]`, unnoticed. */
  datatype Faults = Faults(mkdir: bool, writes: nat, partial: string, cuts: map<nat, string>,
                           backup: bool, install: bool, restore: bool)

  predicate IsCut(w: Write, k: nat, cuts: map<nat, string>) {
    k in cuts && cuts[k] < w.content
  }

  function StoredContent(w: Write, k: nat, cuts: map<nat, string>): string {
    if IsCut(w, k, cuts) then cuts[k] else w.content
  }

  /** The files as they are stored. */
  function AsStored(ws: seq<Write>, cuts: map<nat, string>): (v: seq<Write>)
    ensures AreStored(v, ws, cuts)
  {
    seq(|ws|, k requires 0 <= k < |ws| => Write(ws[k].name, StoredContent(ws[k], k, cuts)))
  }

  ghost predicate AreStored(v: seq<Write>, ws: seq<Write>, cuts: map<nat, string>) {
    |v| == |ws| && forall k | 0 <= k < |ws| :: v[k] == Write(ws[k].name, StoredContent(ws[k], k, cuts))
  }

  predicate NoCuts(ws: seq<Write>, cuts: map<nat, string>) {
    forall k | 0 <= k < |ws| :: !IsCut(ws[k], k, cuts)
  }

  /** The stored files are the wanted set exactly if none is cut short. */
  lemma StoredExactlyWhen(data: seq<InlineCase>, cuts: map<nat, string>)
    requires |data| <= MAX_NUM
    ensures Applied(AsStored(Writes(data), cuts)) == Applied(Writes(data)) <==> NoCuts(Writes(data), cuts)
  {
    var ws := Writes(data);
    var v := AsStored(ws, cuts);
    WritesHaveDistinctNames(data);
    StoredInFullExactlyWhen(v, ws);
    if v == ws {
      forall k | 0 <= k < |ws|
        ensures !IsCut(ws[k], k, cuts)
      {
        assert v[k].content == ws[k].content;
      }
    }
  }

  /** The new directory is complete, as far as the program can see. */
  predicate Staged(ws: seq<Write>, io: Faults) {
    io.mkdir && io.writes >= |ws|
  }

  /** The directory is made and every file written: two for each case, and one if a score is given. */
  predicate ReachesRenames(data: seq<InlineCase>, io: Faults) {
    io.mkdir && io.writes >= 2 * |data| + if exists i :: 0 <= i < |data| && data[i].score >= 0 then 1 else 0
  }

  predicate Succeeds(d: Disk, ws: seq<Write>, io: Faults) {
    Staged(ws, io) && (d.live.Present? ==> io.backup) && io.install
  }

  /** What one call leaves on disk, in terms of the operations that fail. */
  function Outcome(d: Disk, ws: seq<Write>, io: Faults): Disk {
    if Succeeds(d, ws, io) then Disk(Present(Applied(AsStored(ws, io.cuts))), Absent, Absent)
    else if !Staged(ws, io) then Disk(d.live, Absent, d.bak)
    else if d.live.Present? && !io.backup then Disk(d.live, Absent, Absent)
    else if io.restore then Disk(Origin(d), Absent, Absent)
    else Disk(Absent, Absent, Origin(d))
  }

  /** Case by case what a call leaves: the new set under its names; the disk as it was, apart from
      temporary and stale backup directories; or, if the last rename and the restoration fail too, the
      old set as the backup. */
  ghost predicate Leaves(d: Disk, data: seq<InlineCase>, io: Faults, ok: bool, e: Disk) {
    var held := if d.live.Present? then d.live else d.bak;
    && e.tmp == Absent
    && (ok <==> ReachesRenames(data, io) && (d.live.Present? ==> io.backup) && io.install)
    && (ok ==> e.live.Present? && e.bak == Absent)
    && (ok && IsWellFormed(data) && NoCuts(Writes(data), io.cuts) ==> HoldsInline(e.live.files, data))
    && (!ReachesRenames(data, io) ==> e.live == d.live && e.bak == d.bak)
    && (ReachesRenames(data, io) && d.live.Present? && !io.backup ==> e.live == d.live && e.bak == Absent)
    && (ReachesRenames(data, io) && (d.live.Present? ==> io.backup) && !io.install && io.restore ==>
          e.live == held && e.bak == Absent)
    && (ReachesRenames(data, io) && (d.live.Present? ==> io.backup) && !io.install && !io.restore ==>
          e.live == Absent && e.bak == held)
  }

  lemma OutcomeLeaves(d: Disk, data: seq<InlineCase>, io: Faults)
    ensures Leaves(d, data, io, Succeeds(d, Writes(data), io), Outcome(d, Writes(data), io))
  {
    StagedExactlyWhen(data, io);
    if IsWellFormed(data) && NoCuts(Writes(data), io.cuts) {
      FullSetStored(data, io.cuts);
    }
  }

  lemma StagedExactlyWhen(data: seq<InlineCase>, io: Faults)
    ensures Staged(Writes(data), io) <==> ReachesRenames(data, io)
  {
    WritesAreWrites(data);
  }

  lemma FullSetStored(data: seq<InlineCase>, cuts: map<nat, string>)
    requires IsWellFormed(data) && NoCuts(Writes(data), cuts)
    ensures HoldsInline(Applied(AsStored(Writes(data), cuts)), data)
  {
    StoredExactlyWhen(data, cuts);
    WritesMakeTheSet(data);
    WrittenByName(data);
  }

  class ProblemDir {
    var live: Dir
    var tmp: Dir
    var bak: Dir
    ghost var began: State
    ghost var trace: seq<Event>
    ghost var now: State

    ghost function OnDisk(): Disk
      reads this
    {
      Disk(live, tmp, bak)
    }

    /** The disk is where the recorded events lead. */
    ghost predicate Valid()
      reads this
    {
      now.disk == OnDisk() && Run(began, trace, now) && CallEnds(trace)
    }

    constructor (d: Disk)
      ensures Valid() && OnDisk() == d && now.pc == Idle
    {
      live, tmp, bak := d.live, d.tmp, d.bak;
      began, trace, now := AtRest(d), [], AtRest(d);
    }

    ghost method Record(e: Event)
      requires Run(began, trace, now) && CallEnds(trace) && Enabled(now, e) && Apply(now, e).disk == OnDisk()
      requires !e.Crash? && !e.Begin? && !e.Finish?
      modifies this`trace, this`now
      ensures Valid() && now == Apply(old(now), e)
    {
      RunSnoc(began, trace, now, e);
      trace := trace + [e];
      now := Apply(now, e);
    }

    /** `k` files have been stored, as `v` says. */
    ghost predicate WritingAt(ws: seq<Write>, v: seq<Write>, k: nat)
      reads this
    {
      && Valid() && now.pc == Writing(k) && now.writes == ws && Progress(now)
      && k <= |ws| == |v| && now.stored == v[..k]
    }

    /** `write_file`. */
    method WriteFile(ghost ws: seq<Write>, ghost v: seq<Write>, k: nat, name: string, content: string, io: Faults)
      returns (ok: bool)
      requires WritingAt(ws, v, k) && k < |ws| && io.writes >= k
      requires ws[k] == Write(name, content) && v[k] == Write(name, StoredContent(ws[k], k, io.cuts))
      modifies this`tmp, this`trace, this`now
      ensures ok <==> io.writes > k
      ensures now.writes == ws && now.origin == old(now.origin)
      ensures ok ==> WritingAt(ws, v, k + 1)
      ensures !ok ==> Valid() && now.pc == Undoing
    {
      ok := io.writes > k;
      if !ok {
        tmp := Present(tmp.files[name := io.partial]);
        Record(Scribble(io.partial));
        Record(Fail);
        return;
      }
      StoreAdvances(now, v[k]);
      assert v[..k + 1] == v[..k] + [v[k]];
      if k in io.cuts && io.cuts[k] < content {
        tmp := Present(tmp.files[name := io.cuts[k]]);
        Record(CutShort(io.cuts[k]));
      } else {
        tmp := Present(tmp.files[name := content]);
        Record(Succeed);
      }
    }

    /** The loop over the cases. */
    method WritePairs(ghost ws: seq<Write>, ghost v: seq<Write>, data: seq<InlineCase>, io: Faults) returns (ok: bool)
      requires WritingAt(ws, v, 0) && StartsWithPairs(ws, data) && AreStored(v, ws, io.cuts)
      modifies this`tmp, this`trace, this`now
      ensures ok <==> io.writes >= 2 * |data|
      ensures now.writes == ws && now.origin == old(now.origin)
      ensures ok ==> WritingAt(ws, v, 2 * |data|)
      ensures !ok ==> Valid() && now.pc == Undoing
    {
      for i := 0 to |data|
        invariant WritingAt(ws, v, 2 * i) && now.origin == old(now.origin) && io.writes >= 2 * i
      {
        ok := WriteFile(ws, v, 2 * i, InName(i + 1), data[i].input, io);
        if !ok {
          return;
        }
        ok := WriteFile(ws, v, 2 * i + 1, OutName(i + 1), data[i].output, io);
        if !ok {
          return;
        }
      }
      return true;
    }

    /** `write_inline_cases` into `id.tmp`. */
    method WriteCases(ghost ws: seq<Write>, ghost v: seq<Write>, data: seq<InlineCase>, io: Faults) returns (ok: bool)
      requires WritingAt(ws, v, 0) && AreWrites(ws, data) && AreStored(v, ws, io.cuts)
      modifies this`tmp, this`trace, this`now
      ensures ok <==> io.writes >= |ws|
      ensures now.writes == ws && now.origin == old(now.origin)
      ensures ok ==> WritingAt(ws, v, |ws|)
      ensures !ok ==> Valid() && now.pc == Undoing
    {
      ok := WritePairs(ws, v, data, io);
      if ok && exists i :: 0 <= i < |data| && data[i].score >= 0 {
        ok := WriteFile(ws, v, 2 * |data|, SCORE, PrintScores(ScoresOf(data)), io);
      }
    }

    /** The steps up to the complete `id.tmp`. */
    method Stage(ghost ws: seq<Write>, ghost v: seq<Write>, data: seq<InlineCase>, io: Faults) returns (ok: bool)
      requires Valid() && now == Called(OnDisk(), ws) && AreWrites(ws, data) && AreStored(v, ws, io.cuts)
      modifies this`tmp, this`trace, this`now
      ensures Valid() && now.writes == ws && now.origin == Origin(old(OnDisk()))
      ensures ok <==> Staged(ws, io)
      ensures now.pc == if ok then CheckLive else Undoing
      ensures ok ==> tmp == Present(Applied(v))
    {
      ok := MakeEmpty(io);
      if ok {
        ok := WriteCases(ws, v, data, io);
      }
      if ok {
        AllStored(now);
        assert v[..|ws|] == v;
        Record(Succeed);
      }
    }

    /** An empty `id.tmp`. */
    method MakeEmpty(io: Faults) returns (ok: bool)
      requires Valid() && now.pc == ClearTmp && now.stored == []
      modifies this`tmp, this`trace, this`now
      ensures Valid() && now.writes == old(now.writes) && now.origin == old(now.origin) && now.stored == []
      ensures ok <==> io.mkdir
      ensures now.pc == if ok then Writing(0) else Undoing
      ensures ok ==> Progress(now)
    {
      tmp := Absent;
      Record(RemoveDone);
      if !io.mkdir {
        Record(Fail);
        return false;
      }
      tmp := Present(map[]);
      Record(Succeed);
      return true;
    }

    /** Moves the live directory, if there is one, to the backup. */
    method BackUp(io: Faults) returns (ok: bool)
      requires Valid() && now.pc == CheckLive && tmp.Present?
      modifies this`live, this`bak, this`trace, this`now
      ensures Valid() && now.writes == old(now.writes) && now.origin == old(now.origin)
      ensures ok <==> (old(live).Present? ==> io.backup)
      ensures now.pc == if ok then DirSwap.Install else Undoing
      ensures ok ==> live == Absent && bak == Origin(old(OnDisk()))
      ensures !ok ==> live == old(live) && bak == Absent
    {
      Record(Succeed);
      if live.Present? {
        bak := Absent;
        Record(RemoveDone);
        if !io.backup {
          Record(Fail);
          return false;
        }
        live, bak := Absent, live;
        Record(Succeed);
      }
      return true;
    }

    /** The two renames and the restoration of the backup. */
    method Install(io: Faults) returns (ok: bool)
      requires Valid() && now.pc == CheckLive && tmp.Present?
      modifies this
      ensures Valid() && now.writes == old(now.writes) && now.origin == old(now.origin) && began == old(began)
      ensures ok <==> (old(live).Present? ==> io.backup) && io.install
      ensures now.pc == if ok then DropBak else Undoing
      ensures ok ==> live == old(tmp) && tmp == Absent
      ensures !ok && old(live).Present? && !io.backup ==> live == old(live) && bak == Absent
      ensures !ok && (old(live).Present? ==> io.backup) ==>
                Disk(live, Absent, bak) == if io.restore then Disk(Origin(old(OnDisk())), Absent, Absent)
                                           else Disk(Absent, Absent, Origin(old(OnDisk())))
    {
      ok := BackUp(io);
      if !ok {
        return;
      }
      if !io.install {
        Record(Fail);
        if bak.Present? {
          if io.restore {
            live, bak := bak, Absent;
            Record(Succeed);
          } else {
            Record(Fail);
          }
        }
        return false;
      }
      live, tmp := tmp, Absent;
      Record(Succeed);
      return true;
    }

    /** The replacement of the cases in one call. A call that returns leaves exactly the new set if and
        only if no write was cut short. */
    method ReplaceCases(data: seq<InlineCase>, io: Faults) returns (ok: bool)
      modifies this
      ensures Valid() && began == Called(old(OnDisk()), Writes(data))
      ensures now.pc == if ok then Returned else Threw
      ensures ok <==> Succeeds(old(OnDisk()), Writes(data), io)
      ensures OnDisk() == Outcome(old(OnDisk()), Writes(data), io)
      ensures Leaves(old(OnDisk()), data, io, ok, OnDisk())
      ensures ok && |data| <= MAX_NUM ==> (live == Present(Written(data)) <==> NoCuts(Writes(data), io.cuts))
    {
      ghost var ws := Writes(data);
      WritesAreWrites(data);
      began, trace := Called(OnDisk(), ws), [];
      now := began;
      ok := Stage(ws, AsStored(ws, io.cuts), data, io);
      if ok {
        ok := Install(io);
      }
      bak := if ok then Absent else bak;
      tmp := Absent;
      Record(RemoveDone);
      if ok && |data| <= MAX_NUM {
        StoredExactlyWhen(data, io.cuts);
        WritesMakeWritten(data);
      }
      OutcomeLeaves(old(OnDisk()), data, io);
    }
  }
}
