/** Creating and deleting problems, src/problem.cpp:259-315 and 392-411: a row and a directory that
    have to come and go together. */
module ProblemImport {
  import opened Common
  import opened CaseFiles
  import opened TestStore
  import opened DirSwap
  import opened Replacement

  /** The live, temporary and backup directory of a problem. */
  datatype DirName = Live(id: nat) | Tmp(id: nat) | Bak(id: nat)

  /** `testDir` is empty until the directory is complete. */
  datatype ProblemRow = ProblemRow(title: string, creator: Option<nat>, testDir: Option<DirName>)

  datatype Failed = DeleteFailed

  type Rows = map<nat, ProblemRow>
  type Dirs = map<DirName, Files>

  datatype World = World(rows: Rows, dirs: Dirs)

  /** Which steps fail; `undo` is the DELETE of the roll-back, and `cuts` the writes that store less than
      they should without being noticed. */
  datatype ImportFaults =
    ImportFaults(insert: bool, mkdir: bool, writes: nat, partial: string, cuts: map<nat, string>, backfill: bool,
                 undo: bool)

  predicate TitleTaken(rows: Rows, title: string) {
    exists p :: p in rows && rows[p].title == title
  }

  /** What is in a directory already; `create_directories` accepts one that exists. */
  function FilesIn(dirs: Dirs, dir: DirName): Files {
    if dir in dirs then dirs[dir] else map[]
  }

  predicate Created(ws: seq<Write>, io: ImportFaults) {
    io.mkdir && io.writes >= |ws|
  }

  /** `stored` are the files as they came to be stored. */
  function Imported(w: World, id: nat, title: string, creator: Option<nat>, stored: seq<Write>): World {
    World(w.rows[id := ProblemRow(title, creator, Some(Live(id)))],
          w.dirs[Live(id) := FilesIn(w.dirs, Live(id)) + Applied(stored)])
  }

  function Deleted(w: World, id: nat): World {
    World(w.rows - {id}, w.dirs - {Live(id), Tmp(id), Bak(id)})
  }

  /** Stored over `was`, the files are the wanted set exactly if none is cut short and nothing that was
      there before has another name. */
  lemma ImportExactlyWhen(was: Files, data: seq<InlineCase>, cuts: map<nat, string>)
    requires |data| <= MAX_NUM
    ensures was + Applied(AsStored(Writes(data), cuts)) == Written(data) <==>
            NoCuts(Writes(data), cuts) && was.Keys <= Written(data).Keys
  {
    var now := Applied(AsStored(Writes(data), cuts));
    StoredExactlyWhen(data, cuts);
    WritesMakeWritten(data);
    SameNames(AsStored(Writes(data), cuts), Writes(data));
    OverwritesExactlyWhen(was, now, Written(data));
  }

  lemma OverwritesExactlyWhen(was: Files, now: Files, want: Files)
    requires now.Keys == want.Keys
    ensures was + now == want <==> now == want && was.Keys <= want.Keys
  {
    assert (was + now).Keys == was.Keys + now.Keys;
    if was + now == want {
      forall name | name in now
        ensures now[name] == want[name]
      {
        assert (was + now)[name] == now[name];
      }
    }
  }

  lemma ExactImportHolds(dirs: Dirs, id: nat, data: seq<InlineCase>, cuts: map<nat, string>)
    requires IsWellFormed(data)
    ensures ExactImport(dirs, id, data, cuts) ==>
              HoldsInline(FilesIn(dirs, Live(id)) + Applied(AsStored(Writes(data), cuts)), data)
  {
    ImportExactlyWhen(FilesIn(dirs, Live(id)), data, cuts);
    WrittenRepresents(data);
    WrittenByName(data);
  }

  /** No write was cut short and nothing under the id had another name. */
  ghost predicate ExactImport(dirs: Dirs, id: nat, data: seq<InlineCase>, cuts: map<nat, string>) {
    NoCuts(Writes(data), cuts) && FilesIn(dirs, Live(id)).Keys <= Written(data).Keys
  }

  lemma {:induction false} SameNames(v: seq<Write>, ws: seq<Write>)
    requires |v| == |ws| && forall k | 0 <= k < |ws| :: v[k].name == ws[k].name
    ensures Applied(v).Keys == Applied(ws).Keys
  {
    if ws != [] {
      SameNames(v[..|v| - 1], ws[..|ws| - 1]);
    }
  }

  /** Deleting a new problem leaves nothing of it, and nothing that was left under its id before. */
  lemma DeleteUndoesImport(w: World, id: nat, title: string, creator: Option<nat>, stored: seq<Write>)
    requires id !in w.rows
    ensures Deleted(Imported(w, id, title, creator, stored), id) == World(w.rows, w.dirs - {Live(id), Tmp(id), Bak(id)})
  {
  }

  class Problems {
    var rows: Rows
    var dirs: Dirs

    ghost function Now(): World
      reads this
    {
      World(rows, dirs)
    }

    constructor ()
      ensures Now() == World(map[], map[])
    {
      rows, dirs := map[], map[];
    }

    /** The directory with its files; a write that fails leaves the files before it and a part of its own. */
    method CreateDir(id: nat, ws: seq<Write>, io: ImportFaults) returns (ok: bool)
      modifies this`dirs
      ensures ok <==> Created(ws, io)
      ensures dirs - {Live(id)} == old(dirs) - {Live(id)}
      ensures ok ==> dirs == old(dirs)[Live(id) := FilesIn(old(dirs), Live(id)) + Applied(AsStored(ws, io.cuts))]
    {
      if !io.mkdir {
        return false;
      }
      var files := FilesIn(dirs, Live(id));
      var stored := AsStored(ws, io.cuts);
      if io.writes < |ws| {
        files := files + Applied(stored[..io.writes]);
        dirs := dirs[Live(id) := files[ws[io.writes].name := io.partial]];
        return false;
      }
      dirs := dirs[Live(id) := files + Applied(stored)];
      return true;
    }

    /** Removes the directory and, if the statement succeeds, the row. */
    method RollBack(id: nat, undo: bool)
      modifies this
      ensures dirs == old(dirs) - {Live(id)}
      ensures rows == if undo then old(rows) - {id} else old(rows)
    {
      dirs := dirs - {Live(id)};
      if undo {
        rows := rows - {id};
      }
    }

    /** The steps after the row has been inserted. */
    method CompleteImport(id: nat, ws: seq<Write>, io: ImportFaults) returns (ok: bool)
      requires id in rows
      modifies this
      ensures ok <==> Created(ws, io) && io.backfill
      ensures dirs == if ok then old(dirs)[Live(id) := FilesIn(old(dirs), Live(id)) + Applied(AsStored(ws, io.cuts))]
                      else old(dirs) - {Live(id)}
      ensures rows == if ok then old(rows)[id := old(rows)[id].(testDir := Some(Live(id)))]
                      else if io.undo then old(rows) - {id} else old(rows)
    {
      ok := CreateDir(id, ws, io);
      ok := ok && io.backfill;
      if !ok {
        RollBack(id, io.undo);
        return;
      }
      rows := rows[id := rows[id].(testDir := Some(Live(id)))];
    }

    /** `import_problem` for the given files, whatever an earlier problem left under the id. A failed
        import leaves no directory, and no row unless the roll-back itself failed: then the row stays,
        without a directory. */
    method ImportFiles(id: nat, title: string, creator: Option<nat>, ws: seq<Write>, io: ImportFaults)
      returns (ok: bool)
      requires id !in rows
      modifies this
      ensures ok <==> !TitleTaken(old(rows), title) && io.insert && Created(ws, io) && io.backfill
      ensures ok ==> Now() == Imported(old(Now()), id, title, creator, AsStored(ws, io.cuts))
      ensures !ok ==> dirs == if TitleTaken(old(rows), title) || !io.insert then old(dirs) else old(dirs) - {Live(id)}
      ensures !ok ==> rows == if TitleTaken(old(rows), title) || !io.insert || io.undo then old(rows)
                              else old(rows)[id := ProblemRow(title, creator, None)]
    {
      if exists p :: p in rows && rows[p].title == title {
        return false;
      }
      if !io.insert {
        return false;
      }
      rows := rows[id := ProblemRow(title, creator, None)];
      ok := CompleteImport(id, ws, io);
    }

    /** `import_problem` with inline cases: as `ImportFiles`, and a new problem has exactly the given
        files if and only if no write was cut short and no other name was left under its id. */
    method ImportProblem(id: nat, title: string, creator: Option<nat>, data: seq<InlineCase>, io: ImportFaults)
      returns (ok: bool)
      requires id !in rows
      modifies this
      ensures ok <==> !TitleTaken(old(rows), title) && io.insert && Created(Writes(data), io) && io.backfill
      ensures ok ==> Now() == Imported(old(Now()), id, title, creator, AsStored(Writes(data), io.cuts))
      ensures ok ==> rows == old(rows)[id := ProblemRow(title, creator, Some(Live(id)))]
      ensures ok ==> Live(id) in dirs && dirs - {Live(id)} == old(dirs) - {Live(id)}
      ensures ok && |data| <= MAX_NUM ==>
                (dirs[Live(id)] == Written(data) <==> ExactImport(old(dirs), id, data, io.cuts))
      ensures ok && IsWellFormed(data) && ExactImport(old(dirs), id, data, io.cuts) ==>
                HoldsInline(dirs[Live(id)], data)
      ensures !ok ==> dirs == if TitleTaken(old(rows), title) || !io.insert then old(dirs) else old(dirs) - {Live(id)}
      ensures !ok ==> rows == if TitleTaken(old(rows), title) || !io.insert || io.undo then old(rows)
                              else old(rows)[id := ProblemRow(title, creator, None)]
    {
      ok := ImportFiles(id, title, creator, Writes(data), io);
      if ok && |data| <= MAX_NUM {
        ImportExactlyWhen(FilesIn(old(dirs), Live(id)), data, io.cuts);
      }
      if ok && IsWellFormed(data) {
        ExactImportHolds(old(dirs), id, data, io.cuts);
      }
    }

    /** `delete_problem`: the row, its directory and whatever a replacement left. If the DELETE fails
        it throws, and nothing changes. */
    method DeleteProblem(id: nat, deletes: bool) returns (r: Result<bool, Failed>)
      requires id in rows && rows[id].testDir.Some? ==> rows[id].testDir.value == Live(id)
      modifies this
      ensures r == if id !in old(rows) then Ok(false) else if deletes then Ok(true) else Err(DeleteFailed)
      ensures Now() == if r == Ok(true) then Deleted(old(Now()), id) else old(Now())
      ensures r == Ok(true) ==> rows == old(rows) - {id} && dirs == old(dirs) - {Live(id), Tmp(id), Bak(id)}
    {
      if id !in rows {
        return Ok(false);
      }
      var dir := if rows[id].testDir.None? then Live(id) else rows[id].testDir.value;
      if !deletes {
        return Err(DeleteFailed);
      }
      rows := rows - {id};
      dirs := dirs - {dir};
      dirs := dirs - {Tmp(id)};
      dirs := dirs - {Bak(id)};
      return Ok(true);
    }
  }
}
