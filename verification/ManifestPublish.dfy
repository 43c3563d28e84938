/**
 Publication of a reconciliation plan (internal/architecturemanifest/reconcile.go,
 `applyReconciliation` and `checkReconcileFile`).

 The disk is shared with the rest of the world: before every atomic operation other
 programs may edit any file, and the operation itself may fail, in which case it has no
 effect.  Both are read from `world`, an arbitrary schedule, so a statement proved here
 holds for every interleaving and every pattern of failures.
 */
module ManifestPublish {
  import opened Wrappers

  type Bytes = string

  type Files = map<string, Bytes>

  /** One entry of the plan.  `before` is empty when the file did not exist, and `after` is
      empty when it is to be removed. */
  datatype PlannedFile = PlannedFile(path: string, before: Bytes, after: Bytes, existed: bool, remove: bool)
  {
    function Before(): Option<Bytes> {
      if existed then Some(before) else None
    }

    function After(): Option<Bytes> {
      if remove then None else Some(after)
    }

    /** The file is as planned, and the step can be carried out. */
    predicate Ready(files: Files) {
      ContentOf(files, path) == Before() && (existed || before == "") && WellFormed()
    }

    /** What the planner produces: only existing files are removed, and nothing is left of them. */
    predicate WellFormed() {
      remove ==> existed && after == ""
    }
  }

  /** What happens around one operation: edits by others just before it, and its own failure. */
  datatype Turn = Turn(edits: map<string, Option<Bytes>>, fault: bool)

  function ContentOf(files: Files, path: string): Option<Bytes> {
    if path in files then Some(files[path]) else None
  }

  function Put(files: Files, path: string, content: Option<Bytes>): (r: Files)
    ensures ContentOf(r, path) == content
    ensures forall p | p != path :: ContentOf(r, p) == ContentOf(files, p)
  {
    match content
    case Some(bytes) => files[path := bytes]
    case None => files - {path}
  }

  function Edited(files: Files, edits: map<string, Option<Bytes>>): (r: Files)
    ensures forall p :: ContentOf(r, p) == if p in edits then edits[p] else ContentOf(files, p)
  {
    map p | p in files.Keys + edits.Keys && (p in edits ==> edits[p].Some?) ::
      if p in edits then edits[p].value else files[p]
  }

  /** A write of this run.  `raced` says that another program edited the same path in the
      window between this run's check of it and this write. */
  datatype Write = Write(path: string, expected: Option<Bytes>, found: Option<Bytes>, left: Option<Bytes>,
                         undo: bool, raced: bool)

  class Disk {
    var files: Files
    var clock: nat
    const world: nat -> Turn
    ghost var log: seq<Write>

    constructor (initial: Files, schedule: nat -> Turn)
      ensures files == initial && world == schedule && clock == 0 && log == []
    {
      files, clock, log := initial, 0, [];
      world := schedule;
    }

    /** `scaffoldReadOptional`. */
    method Read(path: string) returns (r: Option<(Bytes, bool)>)
      modifies this
      ensures clock == old(clock) + 1 && log == old(log)
      ensures files == Edited(old(files), world(old(clock)).edits)
      ensures r == if world(old(clock)).fault then None
                   else Some(match ContentOf(files, path) case Some(bytes) => (bytes, true) case None => ("", false))
    {
      var turn := world(clock);
      files, clock := Edited(files, turn.edits), clock + 1;
      if turn.fault {
        r := None;
      } else if path in files {
        r := Some((files[path], true));
      } else {
        r := Some(("", false));
      }
    }

    /** `checkReconcileFile`: the file is as the plan last saw it. */
    method Check(file: PlannedFile) returns (ok: bool)
      modifies this
      ensures clock == old(clock) + 1 && log == old(log)
      ensures files == Edited(old(files), world(old(clock)).edits)
      ensures ok ==> ContentOf(files, file.path) == file.Before()
      ensures ContentOf(files, file.path) == file.Before() && (file.existed || file.before == "")
              ==> ok == !world(old(clock)).fault
    {
      var r := Read(file.path);
      ok := r.Some? && r.value.1 == file.existed && r.value.0 == file.before;
    }

    /** `writeAtomic`: a rename, which replaces whatever is there. */
    method Replace(path: string, content: Bytes, ghost expected: Option<Bytes>, ghost undo: bool) returns (ok: bool)
      modifies this
      ensures clock == old(clock) + 1
      ensures var edited := Edited(old(files), world(old(clock)).edits);
              && ok == !world(old(clock)).fault
              && files == (if ok then Put(edited, path, Some(content)) else edited)
              && log == if ok then
                   old(log) + [Write(path, expected, ContentOf(edited, path), Some(content), undo,
                       path in world(old(clock)).edits)]
                        else old(log)
    {
      var turn := world(clock);
      files, clock := Edited(files, turn.edits), clock + 1;
      ok := !turn.fault;
      if ok {
        log := log + [Write(path, expected, ContentOf(files, path), Some(content), undo, path in turn.edits)];
        files := files[path := content];
      }
    }

    /** `os.Remove`: removes whatever is there and fails on a missing file. */
    method Remove(path: string, ghost expected: Option<Bytes>, ghost undo: bool) returns (ok: bool)
      modifies this
      ensures clock == old(clock) + 1
      ensures var edited := Edited(old(files), world(old(clock)).edits);
              && ok == (!world(old(clock)).fault && ContentOf(edited, path).Some?)
              && files == (if ok then Put(edited, path, None) else edited)
              && log == if ok then
                   old(log) + [Write(path, expected, ContentOf(edited, path), None, undo,
                       path in world(old(clock)).edits)]
                        else old(log)
    {
      var turn := world(clock);
      files, clock := Edited(files, turn.edits), clock + 1;
      ok := !turn.fault && path in files;
      if ok {
        log := log + [Write(path, expected, ContentOf(files, path), None, undo, path in turn.edits)];
        files := files - {path};
      }
    }

    /** `scaffoldCreateNew`: publishes with `Link`, which never replaces a file. */
    method CreateNew(path: string, content: Bytes) returns (ok: bool)
      modifies this
      ensures clock == old(clock) + 1
      ensures var edited := Edited(old(files), world(old(clock)).edits);
              && ok == (!world(old(clock)).fault && ContentOf(edited, path).None?)
              && files == (if ok then Put(edited, path, Some(content)) else edited)
              && log == if ok then
                   old(log) + [Write(path, None, None, Some(content), false, path in world(old(clock)).edits)]
                        else old(log)
    {
      var turn := world(clock);
      files, clock := Edited(files, turn.edits), clock + 1;
      ok := !turn.fault && path !in files;
      if ok {
        log := log + [Write(path, None, None, Some(content), false, path in turn.edits)];
        files := files[path := content];
      }
    }

    /** `scaffoldEnsureParent`: makes directories only. */
    method EnsureParent(path: string) returns (ok: bool)
      modifies this
      ensures clock == old(clock) + 1 && log == old(log)
      ensures files == Edited(old(files), world(old(clock)).edits)
      ensures ok == !world(old(clock)).fault
    {
      var turn := world(clock);
      files, clock := Edited(files, turn.edits), clock + 1;
      ok := !turn.fault;
    }

    /** The publishing step of one file: check it again, then write it. */
    method Publish(file: PlannedFile) returns (ok: bool)
      modifies this
      ensures clock > old(clock)
      ensures StepOutcome(world, old(clock), old(files), files, file.path, file.Before(), file.After(), ok)
      ensures Quiet(world, file.path) && file.Ready(old(files))
              ==> (ok <==> !world(old(clock)).fault && !world(old(clock) + 1).fault)
      ensures if ok then old(log) < log && |log| == |old(log)| + 1 && IsWriteOf(log[|old(log)|], file)
                  else log == old(log)
      ensures Races(world, old(clock), old(files), file)
              ==> && ok && ContentOf(files, file.path) == file.After()
                  && log == old(log)
                       + [Write(file.path, file.Before(), world(old(clock) + 1).edits[file.path], file.After(), false,
                           true)]
    {
      ok := Check(file);
      if ok {
        if file.remove {
          ok := Remove(file.path, file.Before(), false);
        } else if file.existed {
          ok := Replace(file.path, file.after, file.Before(), false);
        } else {
          ok := CreateNew(file.path, file.after);
        }
      }
    }

    /** One step of the rollback: undo a completed file unless it was edited since. */
    method Undo(file: PlannedFile) returns (ok: bool)
      modifies this
      ensures clock > old(clock)
      ensures StepOutcome(world, old(clock), old(files), files, file.path, file.After(), file.Before(), ok)
      ensures Quiet(world, file.path) && file.WellFormed() && ContentOf(old(files), file.path) == file.After()
              ==> (ok <==> !world(old(clock)).fault && !world(old(clock) + 1).fault)
      ensures UndoLogged(old(log), log, file)
    {
      var expected := PlannedFile(file.path, file.after, "", !file.remove, false);
      ok := Check(expected);
      if ok {
        if file.existed {
          ok := Replace(file.path, file.before, file.After(), true);
        } else {
          ok := Remove(file.path, file.After(), true);
        }
      }
    }

    /** `rollback`: undoes the first `count` files, last first.  `stuck` are the paths it could
        not restore, which the joined error names. */
    method Rollback(plan: seq<PlannedFile>, count: nat, ghost initial: Files, ghost from: nat)
      returns (stuck: seq<string>)
      requires count <= |plan|
      requires Agree(world, files, Progress(initial, plan, count), [])
      requires Chained(world, initial, plan, count)
      requires SafeLog(log, from, plan)
      requires from + count <= |log| && Written(log, from, plan, count)
      modifies this
      ensures Agree(world, files, initial, stuck)
      ensures CalmSince(world, plan, old(clock)) ==> stuck == []
      ensures old(log) <= log && SafeLog(log, from, plan)
    {
      stuck := [];
      var i := count;
      while i > 0
        invariant 0 <= i <= count && clock >= old(clock)
        invariant Agree(world, files, Progress(initial, plan, i), stuck)
        invariant CalmSince(world, plan, old(clock)) ==> stuck == []
        invariant old(log) <= log && SafeLog(log, from, plan) && Written(log, from, plan, count)
      {
        i := i - 1;
        stuck := UndoPlanned(plan, count, i, initial, from, old(clock), stuck);
      }
    }

    /** The body of the rollback loop, in terms of the whole plan. */
    method UndoPlanned(plan: seq<PlannedFile>, ghost count: nat, i: nat, ghost initial: Files, ghost from: nat,
                       ghost since: nat,
                       failed: seq<string>) returns (stuck: seq<string>)
      requires i < count <= |plan| && from + count <= |log| && since <= clock
      requires Agree(world, files, Progress(initial, plan, i + 1), failed) && Chained(world, initial, plan, count)
      requires SafeLog(log, from, plan) && Written(log, from, plan, count)
      modifies this
      ensures clock > old(clock)
      ensures Agree(world, files, Progress(initial, plan, i), stuck)
      ensures CalmSince(world, plan, since) && failed == [] ==> stuck == []
      ensures old(log) <= log && SafeLog(log, from, plan) && Written(log, from, plan, count)
    {
      var ok := Undo(plan[i]);
      UndoRestores(world, old(clock), initial, plan, i, old(files), files, failed, ok);
      UndoKeepsLog(old(log), log, from, plan, count, i);
      stuck := if ok then failed else failed + [plan[i].path];
    }

    /** The body of the publishing loop, in terms of the whole plan. */
    method PublishPlanned(plan: seq<PlannedFile>, i: nat, ghost initial: Files, ghost from: nat, ghost since: nat)
      returns (ok: bool)
      requires i < |plan| && |log| == from + i && since <= clock
      requires Agree(world, files, Progress(initial, plan, i), []) && Chained(world, initial, plan, i)
      requires Written(log, from, plan, i)
      modifies this
      ensures clock > old(clock) && old(log) <= log
      ensures Agree(world, files, Progress(initial, plan, if ok then i + 1 else i), [])
      ensures ok ==> Chained(world, initial, plan, i + 1) && |log| == from + i + 1 && Written(log, from, plan, i + 1)
      ensures !ok ==> log == old(log)
      ensures Publishable(initial, plan) && CalmSince(world, plan, since) ==> ok
    {
      if Publishable(initial, plan) && CalmSince(world, plan, since) {
        ReadyInTurn(world, initial, plan, i, files, i);
      }
      ok := Publish(plan[i]);
      PublishAdvances(world, old(clock), initial, plan, i, old(files), files, ok);
      if ok {
        WrittenGrows(old(log), log, from, plan, i);
      }
    }

    /** The first two loops: every file is as planned, and every directory is there. */
    method Prepare(plan: seq<PlannedFile>) returns (ok: bool)
      modifies this
      ensures Agree(world, files, old(files), []) && log == old(log) && clock >= old(clock)
      ensures Publishable(old(files), plan) && CalmSince(world, plan, old(clock)) ==> ok
    {
      for i := 0 to |plan|
        invariant Agree(world, files, old(files), []) && log == old(log) && clock >= old(clock)
      {
        if Publishable(old(files), plan) && CalmSince(world, plan, old(clock)) {
          ReadyInTurn(world, old(files), plan, 0, files, i);
        }
        ok := Check(plan[i]);
        if !ok {
          return;
        }
      }
      for i := 0 to |plan|
        invariant Agree(world, files, old(files), []) && log == old(log) && clock >= old(clock)
      {
        ok := EnsureParent(plan[i].path);
        if !ok {
          return;
        }
      }
      ok := true;
    }

    /** `applyReconciliation`. */
    method Apply(plan: seq<PlannedFile>) returns (outcome: Outcome, ghost since: nat)
      modifies this
      ensures Agree(world, files, if outcome.Published? then Progress(old(files), plan, |plan|)
                  else old(files), outcome.stuck)
      ensures CalmSince(world, plan, since) ==> outcome.stuck == []
      ensures old(log) <= log && SafeLog(log, |old(log)|, plan)
      ensures outcome.Refused? ==> log == old(log)
      ensures outcome.Published? && DistinctPaths(plan) ==>
                forall i | 0 <= i < |plan| && Quiet(world, plan[i].path) ::
                    ContentOf(files, plan[i].path) == plan[i].After()
      ensures Publishable(old(files), plan) && CalmSince(world, plan, old(clock)) ==> outcome.Published?
    {
      since := clock;
      var ok := Prepare(plan);
      if !ok {
        return Refused([]), clock;
      }
      for i := 0 to |plan|
        invariant Agree(world, files, Progress(old(files), plan, i), [])
        invariant Chained(world, old(files), plan, i)
        invariant clock >= old(clock) && old(log) <= log
        invariant |log| == |old(log)| + i && Written(log, |old(log)|, plan, i)
      {
        ok := PublishPlanned(plan, i, old(files), |old(log)|, old(clock));
        if !ok {
          since := clock;
          FirstWritesAreSafe(log, |old(log)|, plan, i);
          var stuck := Rollback(plan, i, old(files), |old(log)|);
          return RolledBack(stuck), since;
        }
      }
      FirstWritesAreSafe(log, |old(log)|, plan, |plan|);
      if DistinctPaths(plan) {
        PublishedPlanHolds(old(files), plan, |plan|);
      }
      return Published([]), clock;
    }
  }

  /** `Refused` is an error before anything was written. */
  datatype Outcome = Published(stuck: seq<string>) | Refused(stuck: seq<string>) | RolledBack(stuck: seq<string>)

  ghost predicate DistinctPaths(plan: seq<PlannedFile>) {
    forall i, j | 0 <= i < j < |plan| :: plan[i].path != plan[j].path
  }

  /** The plan describes the files as they are, one entry a path. */
  ghost predicate Publishable(files: Files, plan: seq<PlannedFile>) {
    DistinctPaths(plan) && forall f | f in plan :: f.Ready(files)
  }

  /** No other program touches this path. */
  ghost predicate Quiet(world: nat -> Turn, path: string) {
    forall t: nat :: path !in world(t).edits
  }

  /** From this turn on nothing fails, and nobody else touches the planned paths. */
  ghost predicate CalmSince(world: nat -> Turn, plan: seq<PlannedFile>, since: nat) {
    && (forall f | f in plan :: f.WellFormed() && Quiet(world, f.path))
    && (forall t: nat | t >= since :: !world(t).fault)
  }

  /** Quiet paths hold what they should, apart from the excepted ones. */
  ghost predicate Agree(world: nat -> Turn, files: Files, target: Files, excepted: seq<string>) {
    forall p | Quiet(world, p) :: p in excepted || ContentOf(files, p) == ContentOf(target, p)
  }

  /** One checked write: other quiet paths keep their content, and on a quiet path success
      means that the expected content was there and was replaced, failure that it stayed. */
  ghost predicate StepOutcome(world: nat -> Turn, clock: nat, before: Files, after: Files,
                              path: string, expected: Option<Bytes>, left: Option<Bytes>, ok: bool)
  {
    && (forall p | Quiet(world, p) && p != path :: ContentOf(after, p) == ContentOf(before, p))
    && (Quiet(world, path) && ok ==> ContentOf(before, path) == expected && ContentOf(after, path) == left)
    && (Quiet(world, path) && !ok ==> ContentOf(after, path) == ContentOf(before, path))
  }

  /** The file to replace is as planned at the check, and another program edits it between the
      check and the write. */
  ghost predicate Races(world: nat -> Turn, clock: nat, files: Files, file: PlannedFile) {
    && file.existed && !file.remove && ContentOf(Edited(files, world(clock).edits), file.path) == file.Before()
    && file.path in world(clock + 1).edits && !world(clock).fault && !world(clock + 1).fault
  }

  /** A schedule in which publishing replaces another program's bytes. */
  method LoseEdit() returns (disk: Disk, ok: bool)
    ensures ok && ContentOf(disk.files, "service.yaml") == Some("planned")
    ensures disk.log == [Write("service.yaml", Some("old"), Some("theirs"), Some("planned"), false, true)]
  {
    var edits: map<string, Option<Bytes>> := map["service.yaml" := Some("theirs")];
    var schedule := (t: nat) => if t == 1 then Turn(edits, false) else Turn(map[], false);
    disk := new Disk(map["service.yaml" := "old"], schedule);
    var file := PlannedFile("service.yaml", "old", "planned", true, false);
    assert Races(disk.world, 0, disk.files, file);
    ok := disk.Publish(file);
  }

  ghost predicate UndoLogged(before: seq<Write>, after: seq<Write>, file: PlannedFile) {
    after == before || (|after| == |before| + 1 && before <= after && IsUndoOf(after[|before|], file))
  }

  lemma UndoRestores(world: nat -> Turn, clock: nat, initial: Files, plan: seq<PlannedFile>, i: nat,
                     before: Files, after: Files, stuck: seq<string>, ok: bool)
    requires i < |plan| && Chained(world, initial, plan, i + 1)
    requires Agree(world, before, Progress(initial, plan, i + 1), stuck)
    requires StepOutcome(world, clock, before, after, plan[i].path, plan[i].After(), plan[i].Before(), ok)
    requires Quiet(world, plan[i].path) && plan[i].WellFormed() && ContentOf(before, plan[i].path) == plan[i].After()
             ==> (ok <==> !world(clock).fault && !world(clock + 1).fault)
    ensures Agree(world, after, Progress(initial, plan, i), if ok then stuck else stuck + [plan[i].path])
    ensures CalmSince(world, plan, clock) && stuck == [] ==> ok
  {
    assert MetAsPlanned(world, initial, plan, i);
  }

  lemma PublishAdvances(world: nat -> Turn, clock: nat, initial: Files, plan: seq<PlannedFile>, i: nat,
                        before: Files, after: Files, ok: bool)
    requires i < |plan| && Chained(world, initial, plan, i)
    requires Agree(world, before, Progress(initial, plan, i), [])
    requires StepOutcome(world, clock, before, after, plan[i].path, plan[i].Before(), plan[i].After(), ok)
    ensures Agree(world, after, Progress(initial, plan, if ok then i + 1 else i), [])
    ensures ok ==> Chained(world, initial, plan, i + 1)
  {
  }

  /** With distinct paths, a file's turn finds it as it was at the start. */
  lemma {:induction false} ReadyInTurn(world: nat -> Turn, initial: Files, plan: seq<PlannedFile>, done: nat,
                                       files: Files, i: nat)
    requires done <= i < |plan| && Publishable(initial, plan)
    requires Agree(world, files, Progress(initial, plan, done), []) && Quiet(world, plan[i].path)
    ensures plan[i].Ready(files)
  {
    PublishedPlanHolds(initial, plan, done);
    assert plan[i] in plan;
  }

  /** The files after the first `k` planned writes, when nothing else happens. */
  ghost function Progress(initial: Files, plan: seq<PlannedFile>, k: nat): Files
    requires k <= |plan|
  {
    if k == 0 then initial else Put(Progress(initial, plan, k - 1), plan[k - 1].path, plan[k - 1].After())
  }

  /** Each of the first `k` files on a quiet path is met in its planned `before` state. */
  ghost predicate Chained(world: nat -> Turn, initial: Files, plan: seq<PlannedFile>, k: nat)
    requires k <= |plan|
  {
    forall i | 0 <= i < k :: MetAsPlanned(world, initial, plan, i)
  }

  ghost predicate MetAsPlanned(world: nat -> Turn, initial: Files, plan: seq<PlannedFile>, i: nat)
    requires i < |plan|
  {
    Quiet(world, plan[i].path) ==> ContentOf(Progress(initial, plan, i), plan[i].path) == plan[i].Before()
  }

  /** With distinct paths, publishing leaves every path in its planned state and no other
      path changed. */
  lemma {:induction false} PublishedPlanHolds(initial: Files, plan: seq<PlannedFile>, k: nat)
    requires k <= |plan| && DistinctPaths(plan)
    ensures forall i | 0 <= i < k :: ContentOf(Progress(initial, plan, k), plan[i].path) == plan[i].After()
    ensures forall p | (forall i | 0 <= i < k :: plan[i].path != p) ::
                ContentOf(Progress(initial, plan, k), p) == ContentOf(initial, p)
  {
    if k > 0 { PublishedPlanHolds(initial, plan, k - 1); }
  }

  /** The log holds one publishing write for each of the first `count` files, in order. */
  ghost predicate Written(log: seq<Write>, from: nat, plan: seq<PlannedFile>, count: nat)
    requires count <= |plan| && from + count <= |log|
  {
    forall k | from <= k < from + count :: IsWriteOf(log[k], plan[k - from])
  }

  lemma WrittenGrows(log: seq<Write>, longer: seq<Write>, from: nat, plan: seq<PlannedFile>, count: nat)
    requires count < |plan| && |log| == from + count && Written(log, from, plan, count)
    requires log < longer && |longer| == |log| + 1 && IsWriteOf(longer[|log|], plan[count])
    ensures Written(longer, from, plan, count + 1)
  {
  }

  lemma FirstWritesAreSafe(log: seq<Write>, from: nat, plan: seq<PlannedFile>, count: nat)
    requires count <= |plan| && |log| == from + count && Written(log, from, plan, count)
    ensures SafeLog(log, from, plan)
  {
    forall k | from <= k < |log| ensures SafeWrite(log, from, k, plan) {
      assert IsWriteOf(log[k], plan[k - from]);
    }
  }

  /** A publishing write: it replaces the planned state unless another program edited the file
      between the check and the write, and a created file replaces nothing in any case. */
  ghost predicate IsWriteOf(w: Write, file: PlannedFile) {
    && !w.undo && w.path == file.path
    && w.expected == file.Before() && w.left == file.After()
    && (w.found == w.expected || w.raced)
    && (!file.existed && !file.remove ==> w.found == None)
  }

  /** A rollback write: it replaces what this run left, with the same one exception. */
  ghost predicate IsUndoOf(w: Write, file: PlannedFile) {
    && w.undo && w.path == file.path
    && w.expected == file.After() && w.left == file.Before()
    && (w.found == w.expected || w.raced)
  }

  /** Every write since `from` belongs to the plan; a rollback write comes after a publishing
      write of the same path that left exactly what the rollback write expects to replace. */
  ghost predicate SafeLog(log: seq<Write>, from: nat, plan: seq<PlannedFile>) {
    forall k | from <= k < |log| :: SafeWrite(log, from, k, plan)
  }

  ghost predicate SafeWrite(log: seq<Write>, from: nat, k: nat, plan: seq<PlannedFile>)
    requires k < |log|
  {
    exists f | f in plan ::
      || IsWriteOf(log[k], f)
      || (IsUndoOf(log[k], f) && exists j | from <= j < k :: IsWriteOf(log[j], f))
  }

  lemma UndoKeepsLog(log: seq<Write>, longer: seq<Write>, from: nat, plan: seq<PlannedFile>, count: nat, i: nat)
    requires i < count <= |plan| && from + count <= |log|
    requires SafeLog(log, from, plan) && Written(log, from, plan, count)
    requires UndoLogged(log, longer, plan[i])
    ensures log <= longer && from + count <= |longer|
    ensures SafeLog(longer, from, plan) && Written(longer, from, plan, count)
  {
    assert IsWriteOf(log[from + i], plan[from + i - from]);
    SafeLogGrows(log, longer, from, plan, i);
  }

  lemma SafeLogGrows(log: seq<Write>, longer: seq<Write>, from: nat, plan: seq<PlannedFile>, i: nat)
    requires i < |plan| && from + i < |log| && SafeLog(log, from, plan)
    requires UndoLogged(log, longer, plan[i])
    requires IsWriteOf(log[from + i], plan[i])
    ensures SafeLog(longer, from, plan)
  {
    forall k | from <= k < |longer| ensures SafeWrite(longer, from, k, plan) {
      if k < |log| {
        assert SafeWrite(log, from, k, plan);
        var f :| f in plan && (IsWriteOf(log[k], f)
          || (IsUndoOf(log[k], f) && exists j | from <= j < k :: IsWriteOf(log[j], f)));
        if !IsWriteOf(log[k], f) {
          var j :| from <= j < k && IsWriteOf(log[j], f);
          assert IsWriteOf(longer[j], f);
        }
      } else {
        assert IsWriteOf(longer[from + i], plan[i]);
      }
    }
  }
}
