/** The task service: download tasks follow their downloader and import what it has fetched. */
module DownloadTasks {
  import opened Common
  import opened Text
  import opened RssModel
  import opened RssTheory
  import opened RssMatching
  import opened RssService

  // ---- Importing a completed download ---------------------------------------------------------

  /** What happens to one staged file: its `stat`, the import, the metadata commit, and whether an
      earlier result can be recovered. */
  datatype StagedFile = StagedFile(stat: Option<Error>, imported: Option<Error>, committed: Result<Id>,
                                   recovered: Result<Option<Id>>)

  datatype Staging = Unreadable(missing: bool, error: Error) | Files(files: seq<StagedFile>)

  /** The outside world of an import. `localTarget` is the answer of `completedLocalTaskTargetExists`;
      a node id of 0 stands for "no node". */
  datatype ImportEnv = ImportEnv(staging: Staging, localTarget: Result<Option<Id>>, driverType: Result<string>,
                                 badBasePath: Option<Error>, isNative: bool, badFilename: Option<Error>,
                                 committed: Result<Id>, cleanup: Option<Error>)

  /** The committer returns nodes that exist, so their ids are not 0. */
  predicate CommitterGivesIds(env: ImportEnv) {
    && env.localTarget != Ok(Some(0)) && env.committed != Ok(0)
    && (env.staging.Files? ==> forall f | f in env.staging.files :: f.committed != Ok(0) && f.recovered != Ok(Some(0)))
  }

  function TakeResult(task: Task, nodeID: Id): Task {
    if nodeID > 0 && task.resultNodeID == 0 then task.(resultNodeID := nodeID) else task
  }

  /** What one staged file does to the task. */
  function ImportFile(task: Task, f: StagedFile): (Task, Option<Error>) {
    if f.stat.Some? then (task, f.stat)
    else if f.imported.Some? then
      (if f.imported.value != FileAlreadyExists then (task, f.imported)
       else Recover(task, f, f.imported.value))
    else if f.committed.Err? then Recover(task, f, f.committed.error)
    else (TakeResult(task, f.committed.value), None)
  }

  function Recover(task: Task, f: StagedFile, error: Error): (Task, Option<Error>) {
    match f.recovered
    case Err(e) => (task, Some(e))
    case Ok(None) => (task, Some(error))
    case Ok(Some(nodeID)) => (TakeResult(task, nodeID), None)
  }

  function ImportFiles(task: Task, files: seq<StagedFile>): (Task, Option<Error>)
    decreases |files|
  {
    if files == [] then (task, None)
    else
      var (next, failed) := ImportFile(task, files[0]);
      if failed.Some? then (next, failed) else ImportFiles(next, files[1..])
  }

  function ImportFromTarget(task: Task, env: ImportEnv, otherwise: Error): (Task, Option<Error>) {
    match env.localTarget
    case Err(e) => (task, Some(e))
    case Ok(None) => (task, Some(otherwise))
    case Ok(Some(nodeID)) => ((if nodeID > 0 then task.(resultNodeID := nodeID) else task).(staged := false), None)
  }

  /** `commitCompletedTaskWithoutStaging`. */
  function CommitWithoutStaging(committerWired: bool, task: Task, env: ImportEnv): (Task, Option<Error>) {
    if task.resultNodeID > 0 || !committerWired then (task, None)
    else match env.driverType
      case Err(e) => (task, Some(e))
      case Ok(driverType) =>
        if driverType == "local" then
          match env.localTarget
          case Err(e) => (task, Some(e))
          case Ok(None) => (task, Some(FileNotFound))
          case Ok(Some(nodeID)) => (task.(resultNodeID := nodeID), None)
        else if !env.isNative then (task, Some(MetadataCommitFailed))
        else if env.badBasePath.Some? then (task, env.badBasePath)
        else if env.badFilename.Some? then (task, env.badFilename)
        else match env.committed
          case Err(e) => (task, Some(e))
          case Ok(nodeID) =>
            if nodeID == 0 then (task, Some(MetadataCommitFailed)) else (task.(resultNodeID := nodeID), None)
  }

  /** `importCompletedTask`. */
  function Imported(committerWired: bool, task: Task, env: ImportEnv): (Task, Option<Error>) {
    if !task.staged then CommitWithoutStaging(committerWired, task, env)
    else match env.staging
      case Unreadable(missing, error) =>
        if missing then ImportFromTarget(task, env, error) else (task, Some(error))
      case Files(files) =>
        if files == [] then ImportFromTarget(task, env, FileNotFound)
        else if env.driverType.Err? then (task, Some(env.driverType.error))
        else if env.badBasePath.Some? then (task, env.badBasePath)
        else
          var (next, failed) := ImportFiles(task, files);
          if failed.Some? then (next, failed)
          else if committerWired && next.resultNodeID == 0 then (next, Some(MetadataCommitFailed))
          else if env.cleanup.Some? then (next, env.cleanup)
          else (next.(staged := false), None)
  }

  lemma {:induction false} FilesKeepResult(task: Task, files: seq<StagedFile>)
    ensures ImportFiles(task, files).0.status == task.status
    ensures task.resultNodeID != 0 ==> ImportFiles(task, files).0.resultNodeID == task.resultNodeID
    decreases |files|
  {
    if files != [] { FilesKeepResult(ImportFile(task, files[0]).0, files[1..]); }
  }

  /** With a committer an import that succeeds leaves a result, whichever way it went. */
  lemma ImportLeavesResult(task: Task, env: ImportEnv)
    requires CommitterGivesIds(env)
    ensures Imported(true, task, env).1.None? ==> Imported(true, task, env).0.resultNodeID != 0
    ensures Imported(true, task, env).0.status == task.status
  {
    if env.staging.Files? { FilesKeepResult(task, env.staging.files); }
  }

  /** A staged file that was imported and committed first decides the result. */
  lemma FirstCommitDecides(task: Task, files: seq<StagedFile>, nodeID: Id)
    requires files != [] && task.resultNodeID == 0 && nodeID > 0
    requires files[0].stat.None? && files[0].imported.None? && files[0].committed == Ok(nodeID)
    ensures ImportFiles(task, files).0.resultNodeID == nodeID
  {
    FilesKeepResult(task.(resultNodeID := nodeID), files[1..]);
  }

  // ---- When an import goes through ------------------------------------------------------------

  /** The import of this file goes on: it was imported and committed, or it was there already or could not be committed,
      and an earlier result is found. */
  predicate GoesOn(f: StagedFile) {
    && f.stat.None?
    && ((f.imported.None? && f.committed.Ok?)
        || ((f.imported == Some(FileAlreadyExists) || (f.imported.None? && f.committed.Err?))
            && f.recovered.Ok? && f.recovered.value.Some?))
  }

  /** The node it brings, 0 for none. */
  function NodeBrought(f: StagedFile): Id
    requires GoesOn(f)
  {
    if f.imported.None? && f.committed.Ok? then f.committed.value else f.recovered.value.value
  }

  /** The error with which it ends the import: of the stat; of an import that did not find the file there already; of
      the search for an earlier result; or, without such a result, the one that made the service look for it. */
  predicate EndsWith(f: StagedFile, error: Error) {
    if f.stat.Some? then error == f.stat.value
    else if f.imported.Some? && f.imported.value != FileAlreadyExists then error == f.imported.value
    else if f.recovered.Err? then error == f.recovered.error
    else if f.imported.Some? then error == FileAlreadyExists
    else f.committed.Err? && error == f.committed.error
  }

  /** Staged files are imported one after the other: all of them exactly if each goes on, else up to the first that does
      not, with its error; the first node brought is the result, unless there was one before. */
  ghost predicate ImportedInTurn(task: Task, files: seq<StagedFile>, next: Task, failed: Option<Error>) {
    && next == task.(resultNodeID := next.resultNodeID)
    && (failed.None? <==> forall i | 0 <= i < |files| :: GoesOn(files[i]))
    && (failed.Some? ==> exists i | 0 <= i < |files| ::
                           && !GoesOn(files[i]) && EndsWith(files[i], failed.value)
                           && forall j | 0 <= j < i :: GoesOn(files[j]))
    && (task.resultNodeID != 0 ==> next.resultNodeID == task.resultNodeID)
    && (task.resultNodeID == 0 && failed.None? && next.resultNodeID == 0 ==>
          forall i | 0 <= i < |files| :: GoesOn(files[i]) && NodeBrought(files[i]) == 0)
    && (task.resultNodeID == 0 && next.resultNodeID != 0 ==>
          exists i | 0 <= i < |files| ::
            && GoesOn(files[i]) && NodeBrought(files[i]) == next.resultNodeID
            && forall j | 0 <= j < i :: GoesOn(files[j]) && NodeBrought(files[j]) == 0)
  }

  lemma OneFileInTurn(task: Task, f: StagedFile)
    ensures
      var (next, failed) := ImportFile(task, f);
      && (failed.None? <==> GoesOn(f)) && (failed.Some? ==> next == task && EndsWith(f, failed.value))
      && (GoesOn(f) ==> next == if task.resultNodeID == 0 then task.(resultNodeID := NodeBrought(f)) else task)
  {
  }

  lemma {:induction false} FilesInTurn(task: Task, files: seq<StagedFile>)
    ensures ImportedInTurn(task, files, ImportFiles(task, files).0, ImportFiles(task, files).1)
    decreases |files|
  {
    if files != [] {
      var (next, failed) := ImportFile(task, files[0]);
      OneFileInTurn(task, files[0]);
      hide ImportFile, GoesOn, EndsWith, NodeBrought;
      if failed.None? {
        var rest := files[1..];
        var (last, end) := ImportFiles(next, rest);
        FilesInTurn(next, rest);
        assert forall i | 0 <= i < |rest| :: rest[i] == files[i + 1];
        InTurnFrom(task, files, next, last, end);
      }
    }
  }

  lemma InTurnFrom(task: Task, files: seq<StagedFile>, next: Task, last: Task, failed: Option<Error>)
    requires files != [] && GoesOn(files[0]) && ImportedInTurn(next, files[1..], last, failed)
    requires next == if task.resultNodeID == 0 then task.(resultNodeID := NodeBrought(files[0])) else task
    ensures ImportedInTurn(task, files, last, failed)
  {
    hide GoesOn, EndsWith, NodeBrought;
    var rest := files[1..];
    assert forall i | 1 <= i < |files| :: files[i] == rest[i - 1];
    if failed.Some? {
      var i :| 0 <= i < |rest| && !GoesOn(rest[i]) && EndsWith(rest[i], failed.value)
               && forall j | 0 <= j < i :: GoesOn(rest[j]);
      assert !GoesOn(files[i + 1]) && EndsWith(files[i + 1], failed.value);
    }
    if task.resultNodeID == 0 && last.resultNodeID != 0 {
      if NodeBrought(files[0]) == 0 {
        var i :| && 0 <= i < |rest| && GoesOn(rest[i]) && NodeBrought(rest[i]) == last.resultNodeID
                 && forall j | 0 <= j < i :: GoesOn(rest[j]) && NodeBrought(rest[j]) == 0;
        assert GoesOn(files[i + 1]) && NodeBrought(files[i + 1]) == last.resultNodeID;
      } else {
        assert GoesOn(files[0]) && NodeBrought(files[0]) == last.resultNodeID;
      }
    }
  }

  /** What an import takes to succeed, by the state of the staging directory. */
  ghost predicate Succeeds(committerWired: bool, task: Task, env: ImportEnv) {
    if !task.staged then
      || task.resultNodeID != 0 || !committerWired
      || (env.driverType == Ok("local") && env.localTarget.Ok? && env.localTarget.value.Some?)
      || (&& env.driverType.Ok? && env.driverType.value != "local" && env.isNative && env.badBasePath.None?
          && env.badFilename.None? && env.committed.Ok? && env.committed.value != 0)
    else if env.staging.Unreadable? && !env.staging.missing then false
    else if env.staging.Unreadable? || env.staging.files == [] then env.localTarget.Ok? && env.localTarget.value.Some?
    else
      && env.driverType.Ok? && env.badBasePath.None? && env.cleanup.None?
      && (forall f | f in env.staging.files :: GoesOn(f))
      && (committerWired && task.resultNodeID == 0 ==>
            exists f | f in env.staging.files :: GoesOn(f) && NodeBrought(f) != 0)
  }

  lemma ImportSucceedsIff(committerWired: bool, task: Task, env: ImportEnv)
    ensures Imported(committerWired, task, env).1.None? <==> Succeeds(committerWired, task, env)
    ensures Imported(committerWired, task, env).1.None? ==>
              Imported(committerWired, task, env).0
              == task.(staged := false, resultNodeID := Imported(committerWired, task, env).0.resultNodeID)
  {
    if env.staging.Files? {
      var files := env.staging.files;
      FilesInTurn(task, files);
      hide GoesOn, NodeBrought, EndsWith, ImportFiles;
      var (next, failed) := ImportFiles(task, files);
      forall f | f in files && failed.None? ensures GoesOn(f) {
        var i :| 0 <= i < |files| && files[i] == f;
      }
      if forall f | f in files :: GoesOn(f) {
        assert forall i | 0 <= i < |files| :: files[i] in files;
      }
    }
  }

  // ---- The service ----------------------------------------------------------------------------

  /** What a downloader reports about a task. */
  datatype Report = Report(status: TaskStatus, errorMessage: Option<string>)

  predicate IsBlankMessage(message: Option<string>) {
    message.None? || TrimSpace(message.value) == ""
  }

  /** The row `refreshTask` writes for a report. */
  function Reported(w: Wiring, task: Task, report: Report, env: ImportEnv): Task {
    var seen := task.(status := report.status, errorMessage := report.errorMessage);
    match report.status
    case TaskFailed => if IsBlankMessage(report.errorMessage) then seen.(errorMessage := Some("download failed"))
      else seen
    case TaskCanceled =>
      if IsBlankMessage(report.errorMessage) then seen.(errorMessage := Some("download canceled by downloader"))
        else seen
    case TaskCompleted =>
      var (next, failed) := Imported(w.committerWired, seen, env);
      if failed.Some? then next.(status := TaskFailed, errorMessage := Some(w.describe(failed.value)))
      else next.(errorMessage := None)
    case _ => seen
  }

  /** The row after a sync: unfinished tasks that have a downloader follow its report. */
  function Synced(w: Wiring, task: Task, told: Result<Report>, env: ImportEnv): Task {
    if !task.hasExternalID || IsTerminal(task.status) || told.Err? then task else Reported(w, task, told.value, env)
  }

  /** A task without a downloader, a finished one and one whose downloader is silent stay. */
  predicate LeftAlone(task: Task, told: Result<Report>) {
    !task.hasExternalID || task.status in {TaskCompleted, TaskFailed, TaskCanceled} || told.Err?
  }

  /** Any other follows the report, with the downloader's message or a standard one, except that a completion whose
      import fails is a failure. */
  lemma SyncIsSpelledOut(w: Wiring, task: Task, told: Result<Report>, env: ImportEnv)
    ensures
      var next := Synced(w, task, told, env);
      if LeftAlone(task, told) then next == task
      else
        var report := told.value;
        var blank := report.errorMessage.None? || TrimSpace(report.errorMessage.value) == "";
        if report.status == TaskCompleted then
          if Succeeds(w.committerWired, task, env) then
            next == task.(status := TaskCompleted, errorMessage := None, staged := false,
                          resultNodeID := next.resultNodeID)
          else next.status == TaskFailed && exists error :: next.errorMessage == Some(w.describe(error))
        else
          next == task.(status := report.status,
                        errorMessage := if report.status == TaskFailed && blank then Some("download failed")
                                        else if report.status == TaskCanceled && blank
                                        then Some("download canceled by downloader") else report.errorMessage)
  {
    if !LeftAlone(task, told) {
      var seen := task.(status := told.value.status, errorMessage := told.value.errorMessage);
      ImportSucceedsIff(w.committerWired, seen, env);
      SameImport(w.committerWired, task, seen, env);
      hide Imported, Succeeds, TrimSpace;
    }
  }

  lemma SameImport(committerWired: bool, task: Task, seen: Task, env: ImportEnv)
    requires seen == task.(status := seen.status, errorMessage := seen.errorMessage)
    ensures Succeeds(committerWired, seen, env) <==> Succeeds(committerWired, task, env)
  {
  }

  /** What the task service did, as events: at most one change of the task, then the items' backlinks. */
  ghost predicate TaskStep(w: Wiring, s: RssState, s': RssState, t: Id, next: Task, events: seq<Event>) {
    && AllAutomatic(events) && s' == Run(w, s, events)
    && t in s.tasks && s'.tasks == s.tasks[t := next]
  }

  class TaskService {
    const db: RssTables
    const rss: RSSService
    const w: Wiring

    constructor (db: RssTables, rss: RSSService)
      requires rss.db == db
      ensures this.db == db && this.rss == rss && this.w == rss.w
    {
      this.db, this.rss, this.w := db, rss, rss.w;
    }

    ghost predicate Wired() {
      rss.db == db && rss.w == w
    }

    method ImportStagedFiles(start: Task, files: seq<StagedFile>) returns (task: Task, failed: Option<Error>)
      ensures (task, failed) == ImportFiles(start, files)
      ensures ImportedInTurn(start, files, task, failed)
    {
      FilesInTurn(start, files);
      hide ImportedInTurn;
      task := start;
      var i := 0;
      while i < |files|
        invariant 0 <= i <= |files|
        invariant ImportFiles(start, files) == ImportFiles(task, files[i..])
      {
        var file := files[i];
        i := i + 1;
        assert files[i - 1..][1..] == files[i..];
        if file.stat.Some? { return task, file.stat; }
        if file.imported.Some? {
          if file.imported.value == FileAlreadyExists {
            if file.recovered.Err? { return task, Some(file.recovered.error); }
            if file.recovered.value.Some? {
              if file.recovered.value.value > 0 && task.resultNodeID == 0 {
                task := task.(resultNodeID := file.recovered.value.value);
              }
              continue;
            }
          }
          return task, file.imported;
        }
        if file.committed.Err? {
          if file.recovered.Err? { return task, Some(file.recovered.error); }
          if file.recovered.value.Some? {
            if file.recovered.value.value > 0 && task.resultNodeID == 0 {
              task := task.(resultNodeID := file.recovered.value.value);
            }
            continue;
          }
          return task, Some(file.committed.error);
        }
        if file.committed.value > 0 && task.resultNodeID == 0 { task := task.(resultNodeID := file.committed.value); }
      }
      return task, None;
    }

    method ImportCompletedTask(start: Task, env: ImportEnv) returns (task: Task, failed: Option<Error>)
      ensures (task, failed) == Imported(w.committerWired, start, env)
      ensures failed.None? <==> Succeeds(w.committerWired, start, env)
    {
      ImportSucceedsIff(w.committerWired, start, env);
      hide Succeeds, ImportedInTurn;
      task := start;
      if !task.staged {
        return CommitWithoutStaging(w.committerWired, task, env).0, CommitWithoutStaging(w.committerWired, task, env).1;
      }
      if env.staging.Unreadable? && !env.staging.missing { return task, Some(env.staging.error); }
      if env.staging.Unreadable? || env.staging.files == [] {
        if env.localTarget.Err? { return task, Some(env.localTarget.error); }
        if env.localTarget.value.Some? {
          task := task.(staged := false);
          if env.localTarget.value.value > 0 { task := task.(resultNodeID := env.localTarget.value.value); }
          return task, None;
        }
        return task, Some(if env.staging.Unreadable? then env.staging.error else FileNotFound);
      }
      if env.driverType.Err? { return task, Some(env.driverType.error); }
      if env.badBasePath.Some? { return task, env.badBasePath; }
      task, failed := ImportStagedFiles(task, env.staging.files);
      if failed.Some? { return; }
      if w.committerWired && task.resultNodeID == 0 { return task, Some(MetadataCommitFailed); }
      if env.cleanup.Some? { return task, env.cleanup; }
      return task.(staged := false), None;
    }

    /** Writes the row of an unfinished task and tells the RSS service if it is finished now. */
    method UpdateAndNotify(t: Id, next: Task, now: int) returns (ghost events: seq<Event>)
      requires Wired() && t in db.tasks && TaskMayBecome(w, db.tasks[t], next)
      modifies db
      ensures TaskStep(w, old(db.State()), db.State(), t, next, events)
    {
      hide Apply, Run;
      ghost var s := db.State();
      db.tasks := db.tasks[t := next];
      ChangeIsEvent(w, s, t, next);
      events := rss.OnTaskTerminalStatus(t, now);
      RunConcat(w, s, [TaskChange(t, next)], events);
      events := [TaskChange(t, next)] + events;
    }

    method Cancel(t: Id, now: int) returns (r: Result<bool>, ghost events: seq<Event>)
      requires Wired()
      modifies db
      ensures t !in old(db.tasks) ==> r == Err(FileNotFound) && db.State() == old(db.State())
      ensures t in old(db.tasks) && IsTerminal(old(db.tasks)[t].status) ==>
                r == Ok(old(db.tasks)[t].status == TaskCanceled) && db.State() == old(db.State())
      ensures t in old(db.tasks) && !IsTerminal(old(db.tasks)[t].status) ==>
                r == Ok(true)
                && TaskStep(w, old(db.State()), db.State(), t,
                            old(db.tasks)[t].(status := TaskCanceled,
                                              errorMessage := Some("download canceled by user")), events)
    {
      hide TaskStep;
      events := [];
      if t !in db.tasks { return Err(FileNotFound), []; }
      var task := db.tasks[t];
      if IsTerminal(task.status) { return Ok(task.status == TaskCanceled), []; }
      task := task.(status := TaskCanceled, errorMessage := Some("download canceled by user"));
      events := UpdateAndNotify(t, task, now);
      return Ok(true), events;
    }

    /** `Pause`; `refused` is the downloader's error, if any. */
    method Pause(t: Id, refused: Option<Error>) returns (r: Option<Error>)
      requires Wired()
      modifies db
      ensures r.None? <==> t in old(db.tasks) && refused.None?
                           && (old(db.tasks)[t].status == TaskPending || old(db.tasks)[t].status == TaskRunning)
      ensures db.State() ==
              if r.None? then Apply(w, old(db.State()), TaskChange(t, old(db.tasks)[t].(status := TaskPaused)))
              else old(db.State())
      ensures r.None? ==> db.tasks == old(db.tasks)[t := old(db.tasks)[t].(status := TaskPaused)]
    {
      if t !in db.tasks { return Some(FileNotFound); }
      var task := db.tasks[t];
      if task.status != TaskPending && task.status != TaskRunning { return Some(TaskInvalidState); }
      if refused.Some? { return refused; }
      task := task.(status := TaskPaused);
      db.tasks := db.tasks[t := task];
      return None;
    }

    method Resume(t: Id, refused: Option<Error>) returns (r: Option<Error>)
      requires Wired()
      modifies db
      ensures r.None? <==> t in old(db.tasks) && refused.None? && old(db.tasks)[t].status == TaskPaused
      ensures db.State() ==
              if r.None? then Apply(w, old(db.State()), TaskChange(t, old(db.tasks)[t].(status := TaskRunning)))
              else old(db.State())
      ensures r.None? ==> db.tasks == old(db.tasks)[t := old(db.tasks)[t].(status := TaskRunning)]
    {
      if t !in db.tasks { return Some(FileNotFound); }
      var task := db.tasks[t];
      if task.status != TaskPaused { return Some(TaskInvalidState); }
      if refused.Some? { return refused; }
      task := task.(status := TaskRunning);
      db.tasks := db.tasks[t := task];
      return None;
    }

    /** `refreshTask`: a finished task is left alone, an unfinished one follows the downloader. */
    method RefreshTask(t: Id, told: Result<Report>, env: ImportEnv, now: int)
      returns (r: Option<Error>, ghost events: seq<Event>)
      requires Wired() && t in db.tasks && (w.committerWired ==> CommitterGivesIds(env))
      modifies db
      ensures
        var task := old(db.tasks)[t];
        if !task.hasExternalID || IsTerminal(task.status) || told.Err? then
          db.State() == old(db.State()) && (r.Some? <==> task.hasExternalID && !IsTerminal(task.status)) && events == []
        else
          r.None? && TaskStep(w, old(db.State()), db.State(), t, Reported(w, task, told.value, env), events)
    {
      hide TaskStep, Imported;
      var task := db.tasks[t];
      if !task.hasExternalID { return None, []; }
      if IsTerminal(task.status) { return None, []; }
      if told.Err? { return Some(told.error), []; }
      var report := told.value;
      ghost var before := task;
      task := task.(status := report.status, errorMessage := report.errorMessage);
      if report.status == TaskFailed && IsBlankMessage(task.errorMessage) {
        task := task.(errorMessage := Some("download failed"));
      }
      if report.status == TaskCanceled && IsBlankMessage(task.errorMessage) {
        task := task.(errorMessage := Some("download canceled by downloader"));
      }
      if report.status == TaskCompleted {
        if w.committerWired { ImportLeavesResult(task, env); }
        ImportKeepsStatus(w.committerWired, task, env);
        var failed;
        task, failed := ImportCompletedTask(task, env);
        if failed.Some? {
          task := task.(status := TaskFailed, errorMessage := Some(w.describe(failed.value)));
        } else {
          task := task.(errorMessage := None);
        }
      }
      events := UpdateAndNotify(t, task, now);
      return None, events;
    }

    /** `SyncAll`: every unfinished task is refreshed. */
    method SyncAll(told: Id -> Result<Report>, env: Id -> ImportEnv, now: int) returns (ghost events: seq<Event>)
      requires Wired() && (w.committerWired ==> forall t :: CommitterGivesIds(env(t)))
      modifies db
      ensures AllAutomatic(events) && db.State() == Run(w, old(db.State()), events)
      ensures db.tasks == map t | t in old(db.tasks) :: Synced(w, old(db.tasks)[t], told(t), env(t))
    {
      hide Run, Reported, CommitterGivesIds;
      events := [];
      RunNothing(w, db.State());
      var listed: set<Id> := db.tasks.Keys;
      while listed != {}
        invariant listed <= db.tasks.Keys == old(db.tasks).Keys
        invariant forall t | t in db.tasks ::
                  db.tasks[t] == if t in listed then old(db.tasks)[t] else Synced(w, old(db.tasks)[t], told(t), env(t))
        invariant AllAutomatic(events) && db.State() == Run(w, old(db.State()), events)
        decreases |listed|
      {
        var t: Id :| t in listed;
        listed := listed - {t};
        ghost var before := db.State();
        var failed, more := RefreshTask(t, told(t), env(t), now);
        RunNothing(w, before);
        RunConcat(w, old(db.State()), events, more);
        events := events + more;
      }
    }
  }

  lemma ImportKeepsStatus(committerWired: bool, task: Task, env: ImportEnv)
    ensures Imported(committerWired, task, env).0.status == task.status
  {
    if env.staging.Files? { FilesKeepResult(task, env.staging.files); }
  }

  lemma ChangeIsEvent(w: Wiring, s: RssState, t: Id, next: Task)
    requires t in s.tasks && TaskMayBecome(w, s.tasks[t], next)
    ensures Run(w, s, [TaskChange(t, next)]) == s.(tasks := s.tasks[t := next])
  {
    assert [TaskChange(t, next)][..0] == [];
    RunNothing(w, s);
  }
}
