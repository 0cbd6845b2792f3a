/** Writing the rule file: render, check a temporary copy, replace the live file, reload, restore when that fails. */
module RuleSync {
  import opened Strings
  import opened RuleRender

  datatype Config = Config(filePath: string, promtool: string, reloadURL: string)

  /** One sync: the rules it is given, the temporary name it draws, and which of its steps work. */
  datatype Attempt = Attempt(rules: seq<Rule>, temp: string, create: bool, write: bool, close: bool, check: bool,
                             read: bool, live: bool, reload: bool, restore: bool, remove: bool)

  datatype Error =
    | NotRendered(problem: Problem)
    | TempNotCreated
    | TempNotWritten
    | TempNotClosed
    | CheckFailed
    | LiveNotRead
    | LiveNotWritten
    | ReloadFailed

  datatype Report = Report(success: bool, validated: bool, reloaded: bool, restored: bool, renderedTo: string,
                           ruleCount: nat, filePath: string, reloadURL: string, promtool: string,
                           error: Option<Error>)

  type Files = map<string, string>

  function FilePath(c: Config): string {
    TrimSpace(c.filePath)
  }

  /** The part before the last slash, "." without one; and the part after it. */
  function Directory(path: string): string {
    if '/' !in path then "." else if path[|path| - 1] == '/' then path[..|path| - 1]
    else Directory(path[..|path| - 1])
  }

  function Base(path: string): string {
    if path == "" || path[|path| - 1] == '/' then "" else Base(path[..|path| - 1]) + [path[|path| - 1]]
  }

  /** A file is known by its directory and its name there. */
  function Located(directory: string, base: string): string {
    directory + "/" + base
  }

  function Path(c: Config): string {
    Located(Directory(FilePath(c)), Base(FilePath(c)))
  }

  function URL(c: Config): string {
    TrimSpace(c.reloadURL)
  }

  function Promtool(c: Config): string {
    if TrimSpace(c.promtool) == "" then "promtool" else TrimSpace(c.promtool)
  }

  function Live(files: Files, path: string): Option<string> {
    if path in files then Some(files[path]) else None
  }

  /** The name os.CreateTemp makes of the pattern ".custom-alerts-*.yml" and a random 32-bit number. */
  function TempName(n: nat): string {
    ".custom-alerts-" + Decimal(n) + ".yml"
  }

  ghost predicate IsTempName(base: string) {
    exists n: nat :: n < 0x1_0000_0000 && base == TempName(n)
  }

  /** A temporary file of the rule file's directory. */
  ghost predicate IsTempFile(name: string, c: Config) {
    exists n: nat :: n < 0x1_0000_0000 && name == Located(Directory(FilePath(c)), TempName(n))
  }

  /** The rule file is one that could be drawn exactly when its own name has that form. */
  lemma LikeTemp(c: Config)
    ensures IsTempFile(Path(c), c) <==> IsTempName(Base(FilePath(c)))
  {
    var dir, base := Directory(FilePath(c)), Base(FilePath(c));
    hide TempName, Directory, Base, FilePath;
    forall n: nat ensures Located(dir, base) == Located(dir, TempName(n)) <==> base == TempName(n) {
      if Located(dir, base) == Located(dir, TempName(n)) {
        SameHead(dir + "/", base, TempName(n));
      }
    }
  }

  /** Only names with digits in the middle are drawn. */
  lemma TempNameHasDigits(middle: string)
    requires middle == "" || exists i :: 0 <= i < |middle| && !IsDigit(middle[i])
    ensures !IsTempName(".custom-alerts-" + middle + ".yml")
  {
    forall n: nat ensures ".custom-alerts-" + middle + ".yml" != TempName(n) {
      DecimalReads(n);
      hide Decimal, Value;
      if ".custom-alerts-" + middle + ".yml" == TempName(n) {
        SameTail(".custom-alerts-" + middle, ".yml", ".custom-alerts-" + Decimal(n), ".yml");
        SameHead(".custom-alerts-", middle, Decimal(n));
      }
    }
  }

  /** os.CreateTemp takes a name of the live file's directory that no file has. */
  ghost predicate Draws(files: Files, a: Attempt, c: Config) {
    a.temp !in files && IsTempFile(a.temp, c)
  }

  ghost predicate Renders(a: Attempt, t: Tables) {
    Rendering(a.rules, t).Rendered?
  }

  ghost function Text(a: Attempt, t: Tables): string
    requires Renders(a, t)
  {
    Rendering(a.rules, t).text
  }

  /** The temporary file holds the whole rendering. */
  ghost predicate TempReady(a: Attempt, t: Tables) {
    Renders(a, t) && a.create && a.write && a.close
  }

  /** The rendering passed promtool. */
  ghost predicate Validated(a: Attempt, t: Tables) {
    TempReady(a, t) && a.check
  }

  /** The live file was replaced. */
  ghost predicate Replaced(a: Attempt, t: Tables) {
    Validated(a, t) && a.read && a.live
  }

  ghost predicate Restored(a: Attempt, c: Config, t: Tables) {
    Replaced(a, t) && URL(c) != "" && !a.reload && a.restore
  }

  ghost predicate Succeeds(a: Attempt, c: Config, t: Tables) {
    Replaced(a, t) && (URL(c) == "" || a.reload)
  }

  /** The new text stays in the live file. */
  ghost predicate Commits(a: Attempt, c: Config, t: Tables) {
    Replaced(a, t) && !Restored(a, c, t)
  }

  ghost predicate LeavesTemp(a: Attempt, t: Tables) {
    Renders(a, t) && a.create && !a.remove
  }

  /** All files after one sync. */
  ghost function After(files: Files, a: Attempt, c: Config, t: Tables): Files {
    var replaced := if Commits(a, c, t) && a.temp != Path(c) then files[Path(c) := Text(a, t)] else files;
    if LeavesTemp(a, t) then replaced[a.temp := if a.write then Text(a, t) else ""] else replaced
  }

  /** The first step that fails. */
  ghost function ErrorOf(a: Attempt, c: Config, t: Tables): Option<Error> {
    if !Renders(a, t) then Some(NotRendered(Rendering(a.rules, t).problem))
    else if !a.create then Some(TempNotCreated)
    else if !a.write then Some(TempNotWritten)
    else if !a.close then Some(TempNotClosed)
    else if !a.check then Some(CheckFailed)
    else if !a.read then Some(LiveNotRead)
    else if !a.live then Some(LiveNotWritten)
    else if URL(c) != "" && !a.reload then Some(ReloadFailed)
    else None
  }

  lemma AfterStopped(files: Files, a: Attempt, c: Config, t: Tables)
    requires !TempReady(a, t)
    ensures After(files, a, c, t)
         == if Renders(a, t) && a.create && !a.remove then files[a.temp := if a.write then Text(a, t) else ""] else files
  {
    hide Renders, Path;
  }

  ghost function Placed(written: Files, a: Attempt, c: Config, t: Tables): Files
    requires Renders(a, t)
  {
    if a.check && a.read && a.live && !(URL(c) != "" && !a.reload && a.restore)
    then written[Path(c) := Text(a, t)] else written
  }

  lemma AfterInstalled(files: Files, a: Attempt, c: Config, t: Tables)
    requires TempReady(a, t) && a.temp !in files
    ensures var placed := Placed(files[a.temp := Text(a, t)], a, c, t);
            After(files, a, c, t) == if a.remove then placed - {a.temp} else placed
  {
    hide Renders, Path, URL;
  }

  /** What the answer to a sync says. */
  ghost predicate Reports(r: Report, a: Attempt, c: Config, t: Tables) {
    && r.error == ErrorOf(a, c, t)
    && r.success == Succeeds(a, c, t)
    && r.validated == Validated(a, t)
    && r.reloaded == (r.success && URL(c) != "")
    && r.restored == Restored(a, c, t)
    && r.renderedTo == (if TempReady(a, t) then a.temp else "")
    && r.ruleCount == |a.rules| && r.filePath == FilePath(c) && r.reloadURL == URL(c) && r.promtool == Promtool(c)
  }

  lemma EarlyReport(r: Report, a: Attempt, c: Config, t: Tables)
    requires !TempReady(a, t)
    requires r == Report(false, false, false, false, "", |a.rules|, FilePath(c), URL(c), Promtool(c), r.error)
    requires r.error == if !Renders(a, t) then Some(NotRendered(Rendering(a.rules, t).problem))
                        else if !a.create then Some(TempNotCreated) else if !a.write then Some(TempNotWritten)
                        else Some(TempNotClosed)
    ensures Reports(r, a, c, t)
  {
    hide FilePath, URL, Promtool, Rendering;
  }

  lemma InstalledReport(r: Report, a: Attempt, c: Config, t: Tables)
    requires TempReady(a, t)
    requires r == InstallReport(Report(false, false, false, false, a.temp, |a.rules|, FilePath(c), URL(c), Promtool(c), None),
                                a, URL(c))
    ensures Reports(r, a, c, t)
  {
    hide FilePath, URL, Promtool, Rendering;
  }

  /** The answer of the steps after the temporary file is there. */
  function InstallReport(start: Report, a: Attempt, url: string): Report {
    var failed := url != "" && !a.reload;
    var replaced := a.check && a.read && a.live;
    start.(success := replaced && !failed, validated := a.check, reloaded := replaced && !failed && url != "",
           restored := replaced && failed && a.restore,
           error := if !a.check then Some(CheckFailed) else if !a.read then Some(LiveNotRead)
                    else if !a.live then Some(LiveNotWritten)
                    else if failed then Some(ReloadFailed) else None)
  }

  class RuleFile {
    var files: Files
    const config: Config
    const tables: Tables

    constructor (files: Files, config: Config, tables: Tables)
      ensures this.files == files && this.config == config && this.tables == tables
    {
      this.files := files;
      this.config := config;
      this.tables := tables;
    }

    method Remove(name: string, works: bool)
      modifies this
      ensures files == if works then old(files) - {name} else old(files)
    {
      if works {
        files := files - {name};
      }
    }

    method WriteTempAlertRulesFile(text: string, a: Attempt) returns (error: Option<Error>)
      modifies this
      requires a.temp !in files
      ensures error == if !a.create then Some(TempNotCreated) else if !a.write then Some(TempNotWritten)
                       else if !a.close then Some(TempNotClosed) else None
      ensures files == if error.None? then old(files)[a.temp := text]
                       else if a.create && !a.remove then old(files)[a.temp := if a.write then text else ""]
                       else old(files)
    {
      if !a.create {
        return Some(TempNotCreated);
      }
      files := files[a.temp := ""];
      if !a.write {
        Remove(a.temp, a.remove);
        return Some(TempNotWritten);
      }
      files := files[a.temp := text];
      if !a.close {
        Remove(a.temp, a.remove);
        return Some(TempNotClosed);
      }
      error := None;
    }

    method RestoreRulesFile(path: string, previous: string, hadPrevious: bool, works: bool) returns (restored: bool)
      modifies this
      ensures restored == (works || (!hadPrevious && path !in old(files)))
      ensures files == if !works then old(files) else if hadPrevious then old(files)[path := previous]
                       else old(files) - {path}
    {
      if hadPrevious {
        if works {
          files := files[path := previous];
        }
        return works;
      }
      restored := works || path !in files;
      Remove(path, works);
    }

    method SyncAlertRules(a: Attempt) returns (report: Report)
      requires a.temp !in files
      modifies this
      ensures files == After(old(files), a, config, tables)
      ensures Reports(report, a, config, tables)
    {
      ghost var before := files;
      hide Rendering, TrimSpace, After, Reports, Directory, Base, ErrorOf;
      var path, url, promtool := TrimSpace(config.filePath), TrimSpace(config.reloadURL), TrimSpace(config.promtool);
      if promtool == "" {
        promtool := "promtool";
      }
      assert path == FilePath(config) && url == URL(config) && promtool == Promtool(config);
      hide FilePath, URL, Promtool;
      var rendered := RenderAlertRules(a.rules, tables);
      report := Report(false, false, false, false, "", |a.rules|, path, url, promtool, None);
      if rendered.Failed? {
        report := report.(error := Some(NotRendered(rendered.problem)));
        AfterStopped(before, a, config, tables);
        EarlyReport(report, a, config, tables);
        return;
      }
      var error := WriteTempAlertRulesFile(rendered.text, a);
      if error.Some? {
        report := report.(error := error);
        AfterStopped(before, a, config, tables);
        EarlyReport(report, a, config, tables);
        return;
      }
      report := report.(renderedTo := a.temp);
      report := Install(a, Located(Directory(path), Base(path)), url, rendered.text, report);
      Remove(a.temp, a.remove);
      AfterInstalled(before, a, config, tables);
      InstalledReport(report, a, config, tables);
    }

    /** From the check of the temporary file to the reload. */
    method Install(a: Attempt, path: string, url: string, text: string, start: Report) returns (report: Report)
      requires a.temp in files && files[a.temp] == text
      requires start.error == None && !start.success && !start.validated && !start.reloaded && !start.restored
      modifies this
      ensures files == if a.check && a.read && a.live && !(url != "" && !a.reload && a.restore)
                       then old(files)[path := text] else old(files)
      ensures report == InstallReport(start, a, url)
    {
      report := start;
      if !a.check {
        return report.(error := Some(CheckFailed));
      }
      report := report.(validated := true);
      if !a.read {
        return report.(error := Some(LiveNotRead));
      }
      var hadPrevious := path in files;
      var previous := if hadPrevious then files[path] else "";
      if !a.live {
        return report.(error := Some(LiveNotWritten));
      }
      files := files[path := text];
      if url != "" {
        if !a.reload {
          var restored := RestoreRulesFile(path, previous, hadPrevious, a.restore);
          return report.(restored := restored, error := Some(ReloadFailed));
        }
        report := report.(reloaded := true);
      }
      report := report.(success := true);
    }
  }

  // ---- Runs of syncs ----

  ghost function Run(files: Files, attempts: seq<Attempt>, c: Config, t: Tables): Files {
    if attempts == [] then files
    else After(Run(files, attempts[..|attempts| - 1], c, t), attempts[|attempts| - 1], c, t)
  }

  ghost predicate AllDraw(files: Files, attempts: seq<Attempt>, c: Config, t: Tables) {
    attempts == []
    || (AllDraw(files, attempts[..|attempts| - 1], c, t)
        && Draws(Run(files, attempts[..|attempts| - 1], c, t), attempts[|attempts| - 1], c))
  }

  ghost predicate IsLastCommit(attempts: seq<Attempt>, k: int, c: Config, t: Tables) {
    && 0 <= k < |attempts| && Commits(attempts[k], c, t)
    && forall j :: k < j < |attempts| ==> !Commits(attempts[j], c, t)
  }

  ghost predicate NoneCommits(attempts: seq<Attempt>, c: Config, t: Tables) {
    forall j :: 0 <= j < |attempts| ==> !Commits(attempts[j], c, t)
  }

  lemma AfterLive(files: Files, a: Attempt, c: Config, t: Tables)
    requires Draws(files, a, c) && !IsTempName(Base(FilePath(c)))
    ensures Live(After(files, a, c, t), Path(c))
         == if Commits(a, c, t) then Some(Text(a, t)) else Live(files, Path(c))
  {
    LikeTemp(c);
    hide Commits, LeavesTemp, IsTempName, IsTempFile, Path, Rendering;
    assert a.temp != Path(c);
  }

  lemma CommitsValidated(a: Attempt, c: Config, t: Tables)
    ensures Commits(a, c, t) ==> Validated(a, t)
    ensures Validated(a, t) ==> Renders(a, t)
  {
    hide Renders;
  }

  /** While no sync commits, the live file is as it was, missing included. */
  lemma {:induction false} LiveStays(files: Files, attempts: seq<Attempt>, c: Config, t: Tables)
    requires AllDraw(files, attempts, c, t) && !IsTempName(Base(FilePath(c))) && NoneCommits(attempts, c, t)
    ensures Live(Run(files, attempts, c, t), Path(c)) == Live(files, Path(c))
  {
    if attempts != [] {
      var front, last := attempts[..|attempts| - 1], attempts[|attempts| - 1];
      hide Commits, Text, After, IsTempName, Path, Draws, Live;
      LiveStays(files, front, c, t);
      AfterLive(Run(files, front, c, t), last, c, t);
    }
  }

  lemma DropOne(attempts: seq<Attempt>, k: nat, c: Config, t: Tables)
    requires IsLastCommit(attempts, k, c, t)
    ensures var front := attempts[..|attempts| - 1];
            if k == |front| then Commits(attempts[|front|], c, t)
            else IsLastCommit(front, k, c, t) && front[k] == attempts[k] && !Commits(attempts[|front|], c, t)
  {
    hide Commits;
  }

  /** Afterwards it is what the last sync to commit rendered, and that passed the check. */
  lemma {:induction false} LiveIsLastCommit(files: Files, attempts: seq<Attempt>, k: nat, c: Config, t: Tables)
    requires AllDraw(files, attempts, c, t) && !IsTempName(Base(FilePath(c))) && IsLastCommit(attempts, k, c, t)
    ensures Validated(attempts[k], t) && Renders(attempts[k], t)
    ensures Live(Run(files, attempts, c, t), Path(c)) == Some(Text(attempts[k], t))
  {
    var front, last := attempts[..|attempts| - 1], attempts[|attempts| - 1];
    CommitsValidated(attempts[k], c, t);
    DropOne(attempts, k, c, t);
    hide Commits, Text, After, IsTempName, Path, Draws, Live, Validated, Renders, IsLastCommit;
    AfterLive(Run(files, front, c, t), last, c, t);
    if k < |front| {
      LiveIsLastCommit(files, front, k, c, t);
    }
  }

  /** So a reader of the rule language finds exactly the enabled rules of that sync, every one of them valid. */
  lemma LiveReadsBack(files: Files, attempts: seq<Attempt>, k: nat, c: Config, t: Tables)
    requires AllDraw(files, attempts, c, t) && !IsTempName(Base(FilePath(c))) && IsLastCommit(attempts, k, c, t)
    ensures Path(c) in Run(files, attempts, c, t)
    ensures ReadDocument(Run(files, attempts, c, t)[Path(c)]) == Some(FieldsOf(Enabled(attempts[k].rules)))
    ensures forall r :: r in attempts[k].rules && r.enabled ==> Verdict(r, t).None?
  {
    LiveIsLastCommit(files, attempts, k, c, t);
    hide Run, AllDraw, IsLastCommit, ReadDocument, Enabled, FieldsOf, Verdict, Path, IsTempName, Rendering;
    RenderingReads(attempts[k].rules, t);
    FailsIffProblem(attempts[k].rules, t);
  }

  /** When every removal works, a run touches no file but the live one. */
  lemma {:induction false} NoTempRemains(files: Files, attempts: seq<Attempt>, c: Config, t: Tables)
    requires AllDraw(files, attempts, c, t)
    requires forall j :: 0 <= j < |attempts| ==> attempts[j].remove
    ensures Run(files, attempts, c, t) - {Path(c)} == files - {Path(c)}
  {
    if attempts != [] {
      NoTempRemains(files, attempts[..|attempts| - 1], c, t);
      hide Path, Commits, Text, Draws, AllDraw, Renders;
    }
  }

  /** A failed reload that is undone leaves every file as before the sync. */
  lemma RestoredIsExact(files: Files, a: Attempt, c: Config, t: Tables)
    requires Restored(a, c, t) && a.remove
    ensures After(files, a, c, t) == files && ErrorOf(a, c, t) == Some(ReloadFailed)
  {
  }

  ghost predicate SuccessInstalls(c: Config, t: Tables) {
    forall files, a :: Draws(files, a, c) && Succeeds(a, c, t) ==> Live(After(files, a, c, t), Path(c)) == Some(Text(a, t))
  }

  ghost function Everything(rules: seq<Rule>, temp: string): Attempt {
    Attempt(rules, temp, true, true, true, true, true, true, true, true, true)
  }

  /** A successful sync installs the rules for sure exactly when the rule file is not named like a temporary one. */
  lemma SuccessInstallsIff(c: Config, t: Tables)
    ensures SuccessInstalls(c, t) <==> !IsTempName(Base(FilePath(c)))
  {
    LikeTemp(c);
    if IsTempName(Base(FilePath(c))) {
      var a := Everything([], Path(c));
      assert Rendering(a.rules, t).Rendered?;
      hide IsTempName, IsTempFile, Path, Rendering;
      assert Draws(map[], a, c) && Succeeds(a, c, t);
      assert Path(c) !in After(map[], a, c, t);
    } else {
      forall files, a | Draws(files, a, c) && Succeeds(a, c, t)
        ensures Live(After(files, a, c, t), Path(c)) == Some(Text(a, t))
      {
        SucceedsCommits(a, c, t);
        AfterLive(files, a, c, t);
      }
    }
  }

  lemma SucceedsCommits(a: Attempt, c: Config, t: Tables)
    ensures Succeeds(a, c, t) ==> Commits(a, c, t)
    ensures Commits(a, c, t) && !Succeeds(a, c, t) ==> ErrorOf(a, c, t) == Some(ReloadFailed) && !a.restore
  {
    hide Rendering;
  }

  /** Which error an unsuccessful sync reports: that of its first step to fail. */
  lemma ErrorIs(a: Attempt, c: Config, t: Tables)
    ensures ErrorOf(a, c, t).None? <==> Succeeds(a, c, t)
    ensures ErrorOf(a, c, t) == Some(TempNotCreated) <==> Renders(a, t) && !a.create
    ensures ErrorOf(a, c, t) == Some(TempNotWritten) <==> Renders(a, t) && a.create && !a.write
    ensures ErrorOf(a, c, t) == Some(TempNotClosed) <==> Renders(a, t) && a.create && a.write && !a.close
    ensures ErrorOf(a, c, t) == Some(CheckFailed) <==> TempReady(a, t) && !a.check
    ensures ErrorOf(a, c, t) == Some(LiveNotRead) <==> Validated(a, t) && !a.read
    ensures ErrorOf(a, c, t) == Some(LiveNotWritten) <==> Validated(a, t) && a.read && !a.live
    ensures ErrorOf(a, c, t) == Some(ReloadFailed) <==> Replaced(a, t) && TrimSpace(c.reloadURL) != "" && !a.reload
    ensures Promtool(c) == "promtool" || Trims(c.promtool, Promtool(c))
  {
    TrimSpaceIs(c.promtool, TrimSpace(c.promtool));
    hide Rendering, TrimSpace, Trims;
  }

  /** A path is its directory, a slash and its base name; without a slash it is a base name in ".". */
  lemma {:induction false} PathSplits(path: string)
    ensures '/' !in Base(path)
    ensures '/' in path ==> path == Directory(path) + "/" + Base(path)
    ensures '/' !in path ==> Directory(path) == "." && Base(path) == path
  {
    if path != "" && path[|path| - 1] != '/' {
      var front := path[..|path| - 1];
      PathSplits(front);
      assert path == front + [path[|path| - 1]];
    } else if path != "" {
      assert path == path[..|path| - 1] + "/";
    }
  }
}
