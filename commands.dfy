/**
 * The command processor (internal/command.go): a command string becomes an
 * install, uninstall or unknown job; jobs wait in one FIFO queue and a single
 * worker runs them one at a time. Filesystem and network steps are abstract
 * fallible effects; the worker records every effect it performs.
 */
module Commands {
  import opened Wrappers
  import opened Text
  import opened Data
  import opened Clients

  const CommandOk := 0
  const CommandError := 1

  /** The three job kinds; install and uninstall carry the processor's application directory. */
  datatype Command =
    | Install(xrn: string, appDir: string)
    | Uninstall(xrn: string, appDir: string)
    | Unknown(name: string)

  datatype CommandResult = CommandResult(code: int, reason: string, command: Command)

  function GoodResult(cmd: Command): CommandResult
  {
    CommandResult(CommandOk, "Ok", cmd)
  }

  function BadResult(cmd: Command, reason: string): CommandResult
  {
    CommandResult(CommandError, reason, cmd)
  }

  function UnknownReason(name: string): string
  {
    "Unknown command: '" + name + "'."
  }

  /** The switch in CommandProcessor.Invoke. */
  function Parse(command: string, xrn: string, appDir: string): (cmd: Command)
    ensures cmd.Install? <==> command == "install"
    ensures cmd.Uninstall? <==> command == "uninstall"
    ensures cmd.Unknown? ==> cmd.name == command
    ensures !cmd.Unknown? ==> cmd.xrn == xrn && cmd.appDir == appDir
  {
    if command == "install" then Install(xrn, appDir)
    else if command == "uninstall" then Uninstall(xrn, appDir)
    else Unknown(command)
  }

  // ---------------------------------------------------------------------------
  // Effects

  /** A side effect a job performs, in the order it performs them. */
  datatype Effect =
    | Download(url: string, target: string)   // os.Create, http.Get and io.Copy into target
    | Extract(archive: string, dir: string)   // unzip
    | RemoveFile(path: string)                // os.Remove
    | RemoveTree(path: string)                // os.RemoveAll
    | NotifyRefresh                           // ClientHub.NotifyRefresh

  /** The outcome of a filesystem or network step: `None` on success, `Some(error)` otherwise. */
  type FileSystem = Effect -> Option<string>

  /** filepath.Abs, left abstract. */
  type AbsPath = string -> Result<string>

  function RefreshCount(effects: seq<Effect>): nat
    decreases |effects|
  {
    if effects == [] then 0
    else RefreshCount(effects[..|effects| - 1]) + (if effects[|effects| - 1] == NotifyRefresh then 1 else 0)
  }

  lemma {:induction false} RefreshCountAppend(a: seq<Effect>, b: seq<Effect>)
    ensures RefreshCount(a + b) == RefreshCount(a) + RefreshCount(b)
    decreases |b|
  {
    if b == [] {
      assert a + b == a;
    } else {
      assert (a + b)[..|a + b| - 1] == a + b[..|b| - 1];
      RefreshCountAppend(a, b[..|b| - 1]);
    }
  }

  lemma {:induction false} RefreshCountNone(a: seq<Effect>)
    requires NotifyRefresh !in a
    ensures RefreshCount(a) == 0
    decreases |a|
  {
    if a != [] {
      assert a[..|a| - 1] <= a;
      RefreshCountNone(a[..|a| - 1]);
    }
  }

  datatype StepsOutcome = StepsOutcome(error: Option<string>, attempted: seq<Effect>)

  /** Runs steps in order and stops at the first that fails, which is the last one attempted. */
  function RunSteps(steps: seq<Effect>, fs: FileSystem): (r: StepsOutcome)
    ensures |r.attempted| <= |steps| && r.attempted == steps[..|r.attempted|]
    ensures steps != [] ==> |r.attempted| >= 1
    ensures r.error.None? <==> r.attempted == steps && forall i :: 0 <= i < |steps| ==> fs(steps[i]).None?
    ensures r.error.Some? ==> |r.attempted| >= 1 && r.error == fs(r.attempted[|r.attempted| - 1])
    ensures forall i :: 0 <= i < |r.attempted| - 1 ==> fs(r.attempted[i]).None?
    decreases |steps|
  {
    if steps == [] then StepsOutcome(None, [])
    else
      match fs(steps[0])
      case Some(e) => StepsOutcome(Some(e), [steps[0]])
      case None =>
        var rest := RunSteps(steps[1..], fs);
        assert steps == [steps[0]] + steps[1..];
        StepsOutcome(rest.error, [steps[0]] + rest.attempted)
  }

  /** Where an install downloads the archive: the URL's last element, under the public directory. */
  function ArchivePath(publicDir: string, url: string): string
  {
    PathJoin(publicDir, Base(url))
  }

  function InstallSteps(publicDir: string, url: string): (steps: seq<Effect>)
    ensures NotifyRefresh !in steps
  {
    var target := ArchivePath(publicDir, url);
    [Download(url, target), Extract(target, publicDir), RemoveFile(target)]
  }

  function UninstallSteps(publicDir: string, context: string): (steps: seq<Effect>)
    ensures NotifyRefresh !in steps
  {
    [RemoveTree(PathJoin(publicDir, context))]
  }

  datatype Outcome = Outcome(result: CommandResult, effects: seq<Effect>)

  /** The steps a looked-up install or uninstall goes through. */
  function StepsOf(cmd: Command, sku: Sku, publicDir: string): (steps: seq<Effect>)
    ensures NotifyRefresh !in steps
  {
    if cmd.Install? then InstallSteps(publicDir, sku.downloadUrl) else UninstallSteps(publicDir, sku.context)
  }

  /** A run with no failed step refreshes and reports "Ok"; otherwise the failed step's error. */
  function Conclude(cmd: Command, run: StepsOutcome): Outcome
  {
    if run.error.Some? then Outcome(BadResult(cmd, run.error.value), run.attempted)
    else Outcome(GoodResult(cmd), run.attempted + [NotifyRefresh])
  }

  /** When step k is the first to fail, the run stops right after it with its error. */
  lemma {:induction false} RunStepsFailsAt(steps: seq<Effect>, fs: FileSystem, k: nat)
    requires k < |steps|
    requires forall i :: 0 <= i < k ==> fs(steps[i]).None?
    requires fs(steps[k]).Some?
    ensures RunSteps(steps, fs) == StepsOutcome(fs(steps[k]), steps[..k + 1])
    decreases k
  {
    if k > 0 {
      RunStepsFailsAt(steps[1..], fs, k - 1);
      assert steps[..k + 1] == [steps[0]] + steps[1..][..k];
    }
  }

  /**
   * What a job does: the result it reports and the effects it performs, given
   * the catalog snapshot, filepath.Abs and the outcome of each effect.
   */
  function Execute(cmd: Command, skus: seq<Sku>, abs: AbsPath, fs: FileSystem): (o: Outcome)
    ensures o.result.command == cmd
    ensures o.result.code == CommandOk || o.result.code == CommandError
  {
    match cmd
    case Unknown(name) => Outcome(BadResult(cmd, UnknownReason(name)), [])
    case _ =>
      match FindSku(skus, cmd.xrn)
      case Err(e) => Outcome(BadResult(cmd, e), [])
      case Ok(sku) =>
        match abs(cmd.appDir)
        case Err(e) => Outcome(BadResult(cmd, e), [])
        case Ok(publicDir) => Conclude(cmd, RunSteps(StepsOf(cmd, sku, publicDir), fs))
  }

  /**
   * What every job promises: "Ok" exactly when the refresh was sent, the
   * refresh sent at most once and only as the last effect, every effect before
   * the last one succeeded, and the error cases touch nothing.
   */
  lemma ExecuteOutcome(cmd: Command, skus: seq<Sku>, abs: AbsPath, fs: FileSystem)
    ensures var o := Execute(cmd, skus, abs, fs);
      && (o.result.code == CommandOk ==> o.result.reason == "Ok")
      && (o.result.code == CommandOk <==> NotifyRefresh in o.effects)
      && RefreshCount(o.effects) == (if o.result.code == CommandOk then 1 else 0)
      && (NotifyRefresh in o.effects ==> o.effects[|o.effects| - 1] == NotifyRefresh)
      && (cmd.Unknown? ==> o == Outcome(BadResult(cmd, UnknownReason(cmd.name)), []))
      && (!cmd.Unknown? && FindSku(skus, cmd.xrn).Err? ==>
            o == Outcome(BadResult(cmd, FindSku(skus, cmd.xrn).error), []))
      && (!cmd.Unknown? && FindSku(skus, cmd.xrn).Ok? && abs(cmd.appDir).Err? ==>
            o == Outcome(BadResult(cmd, abs(cmd.appDir).error), []))
      && (cmd.Uninstall? && FindSku(skus, cmd.xrn).Ok? && abs(cmd.appDir).Ok? ==>
            |o.effects| >= 1 &&
            o.effects[0] == RemoveTree(PathJoin(abs(cmd.appDir).value, FindSku(skus, cmd.xrn).value.context)))
      && (forall i :: 0 <= i < |o.effects| - 1 ==> fs(o.effects[i]).None?)
  {
    if !cmd.Unknown? && FindSku(skus, cmd.xrn).Ok? && abs(cmd.appDir).Ok? {
      var steps := StepsOf(cmd, FindSku(skus, cmd.xrn).value, abs(cmd.appDir).value);
      var run := RunSteps(steps, fs);
      assert Execute(cmd, skus, abs, fs) == Conclude(cmd, run);
      ConcludeFacts(cmd, steps, fs);
      assert run.attempted[0] == steps[0];
    } else if !cmd.Unknown? && FindSku(skus, cmd.xrn).Ok? {
      assert Execute(cmd, skus, abs, fs) == Outcome(BadResult(cmd, abs(cmd.appDir).error), []);
    }
  }

  /** The refresh and error facts of a looked-up job, over the run of its steps alone. */
  lemma ConcludeFacts(cmd: Command, steps: seq<Effect>, fs: FileSystem)
    requires NotifyRefresh !in steps
    ensures var o := Conclude(cmd, RunSteps(steps, fs));
      && (o.result.code == CommandOk ==> o.result.reason == "Ok")
      && (o.result.code == CommandOk <==> NotifyRefresh in o.effects)
      && RefreshCount(o.effects) == (if o.result.code == CommandOk then 1 else 0)
      && (NotifyRefresh in o.effects ==> o.effects[|o.effects| - 1] == NotifyRefresh)
      && (forall i :: 0 <= i < |o.effects| - 1 ==> fs(o.effects[i]).None?)
  {
    var run := RunSteps(steps, fs);
    var o := Conclude(cmd, run);
    assert NotifyRefresh !in run.attempted by {
      assert run.attempted <= steps;
    }
    RefreshCountNone(run.attempted);
    if run.error.None? {
      assert run.attempted == steps;
      assert o == Outcome(GoodResult(cmd), steps + [NotifyRefresh]);
      RefreshCountAppend(steps, [NotifyRefresh]);
      forall i | 0 <= i < |o.effects| - 1
        ensures fs(o.effects[i]).None?
      {
        assert o.effects[i] == steps[i];
      }
    } else {
      assert o == Outcome(BadResult(cmd, run.error.value), run.attempted);
      forall i | 0 <= i < |o.effects| - 1
        ensures fs(o.effects[i]).None?
      {
        assert o.effects[i] == run.attempted[i];
      }
    }
  }

  /** The writes the hub attempts for a job: a refresh broadcast exactly when the job succeeded. */
  function HubWrites(o: Outcome, clients: seq<Client>): seq<Delivery>
  {
    if NotifyRefresh in o.effects then Broadcast(clients, Refresh) else []
  }

  // ---------------------------------------------------------------------------
  // A queue of jobs, run in order

  /** The results of running `cmds` one after another, in order. */
  function ResultsOf(cmds: seq<Command>, skus: seq<Sku>, abs: AbsPath, fs: FileSystem): (rs: seq<CommandResult>)
    ensures |rs| == |cmds|
    decreases |cmds|
  {
    if cmds == [] then []
    else ResultsOf(cmds[..|cmds| - 1], skus, abs, fs) + [Execute(cmds[|cmds| - 1], skus, abs, fs).result]
  }

  /** Jobs finish in the order they were queued: the i-th result is the i-th job's. */
  lemma {:induction false} ResultsInOrder(cmds: seq<Command>, i: nat, skus: seq<Sku>, abs: AbsPath, fs: FileSystem)
    requires i < |cmds|
    ensures ResultsOf(cmds, skus, abs, fs)[i] == Execute(cmds[i], skus, abs, fs).result
    decreases |cmds|
  {
    var init, last := cmds[..|cmds| - 1], cmds[|cmds| - 1];
    var rs0 := ResultsOf(init, skus, abs, fs);
    assert ResultsOf(cmds, skus, abs, fs) == rs0 + [Execute(last, skus, abs, fs).result];
    if i < |cmds| - 1 {
      ResultsInOrder(init, i, skus, abs, fs);
      assert init[i] == cmds[i];
    }
  }

  function OkCount(rs: seq<CommandResult>): nat
    decreases |rs|
  {
    if rs == [] then 0
    else OkCount(rs[..|rs| - 1]) + (if rs[|rs| - 1].code == CommandOk then 1 else 0)
  }

  /** The effects of running `cmds` one after another: each job's effects, never interleaved. */
  function EffectsOf(cmds: seq<Command>, skus: seq<Sku>, abs: AbsPath, fs: FileSystem): (es: seq<Effect>)
    decreases |cmds|
  {
    if cmds == [] then []
    else EffectsOf(cmds[..|cmds| - 1], skus, abs, fs) + Execute(cmds[|cmds| - 1], skus, abs, fs).effects
  }

  /** Over a whole queue, the clients are told to refresh once per job that succeeded. */
  lemma {:induction false} RefreshOncePerSuccess(cmds: seq<Command>, skus: seq<Sku>, abs: AbsPath, fs: FileSystem)
    ensures RefreshCount(EffectsOf(cmds, skus, abs, fs)) == OkCount(ResultsOf(cmds, skus, abs, fs))
    decreases |cmds|
  {
    if cmds != [] {
      var init, last := cmds[..|cmds| - 1], cmds[|cmds| - 1];
      var rs := ResultsOf(cmds, skus, abs, fs);
      assert rs[..|rs| - 1] == ResultsOf(init, skus, abs, fs);
      RefreshOncePerSuccess(init, skus, abs, fs);
      ExecuteOutcome(last, skus, abs, fs);
      RefreshCountAppend(EffectsOf(init, skus, abs, fs), Execute(last, skus, abs, fs).effects);
    }
  }

  function WritesOf(cmds: seq<Command>, skus: seq<Sku>, abs: AbsPath, fs: FileSystem, clients: seq<Client>): seq<Delivery>
    decreases |cmds|
  {
    if cmds == [] then []
    else
      WritesOf(cmds[..|cmds| - 1], skus, abs, fs, clients)
      + HubWrites(Execute(cmds[|cmds| - 1], skus, abs, fs), clients)
  }

  /** An unknown command fails the same way wherever it stands in the queue and touches nothing. */
  lemma UnknownJobHasNoEffect(cmds: seq<Command>, i: nat, skus: seq<Sku>, abs: AbsPath, fs: FileSystem)
    requires i < |cmds| && cmds[i].Unknown?
    ensures ResultsOf(cmds, skus, abs, fs)[i] == BadResult(cmds[i], UnknownReason(cmds[i].name))
    ensures Execute(cmds[i], skus, abs, fs).effects == []
  {
    ResultsInOrder(cmds, i, skus, abs, fs);
  }

  /** A looked-up job that fails acts out its attempted steps; one that succeeds also broadcasts the refresh. */
  lemma LookedUpOutcome(cmd: Command, skus: seq<Sku>, abs: AbsPath, fs: FileSystem, clients: seq<Client>, transport: Transport)
    requires !cmd.Unknown? && FindSku(skus, cmd.xrn).Ok? && abs(cmd.appDir).Ok?
    ensures var o := Execute(cmd, skus, abs, fs);
      var run := RunSteps(StepsOf(cmd, FindSku(skus, cmd.xrn).value, abs(cmd.appDir).value), fs);
      && (run.error.Some? ==>
            o == Outcome(BadResult(cmd, run.error.value), run.attempted) &&
            HubWrites(o, clients) == [] && FailureLog(HubWrites(o, clients), transport) == [])
      && (run.error.None? ==>
            o == Outcome(GoodResult(cmd), run.attempted + [NotifyRefresh]) &&
            HubWrites(o, clients) == Broadcast(clients, Refresh))
  {
    ConcludeMeaning(cmd, StepsOf(cmd, FindSku(skus, cmd.xrn).value, abs(cmd.appDir).value), fs, clients);
  }

  lemma QueueStep(done: seq<Command>, job: Command, skus: seq<Sku>, abs: AbsPath, fs: FileSystem, clients: seq<Client>)
    ensures ResultsOf(done + [job], skus, abs, fs) == ResultsOf(done, skus, abs, fs) + [Execute(job, skus, abs, fs).result]
    ensures EffectsOf(done + [job], skus, abs, fs) == EffectsOf(done, skus, abs, fs) + Execute(job, skus, abs, fs).effects
    ensures WritesOf(done + [job], skus, abs, fs, clients) ==
            WritesOf(done, skus, abs, fs, clients) + HubWrites(Execute(job, skus, abs, fs), clients)
  {
    assert (done + [job])[..|done|] == done;
  }

  /** Three steps, run: each failure ends the run where it happens. */
  lemma InstallRun(download: Effect, extract: Effect, remove: Effect, fs: FileSystem)
    ensures RunSteps([download, extract, remove], fs) ==
            if fs(download).Some? then StepsOutcome(fs(download), [download])
            else if fs(extract).Some? then StepsOutcome(fs(extract), [download, extract])
            else StepsOutcome(fs(remove), [download, extract, remove])
  {
    var steps := [download, extract, remove];
    assert [remove][1..] == [];
    assert RunSteps([remove], fs) == StepsOutcome(fs(remove), [remove]) by {
      assert [remove] + [] == [remove];
    }
    assert [extract, remove][1..] == [remove];
    assert fs(extract).None? ==> RunSteps([extract, remove], fs) == StepsOutcome(fs(remove), [extract, remove]) by {
      assert [extract] + [remove] == [extract, remove];
    }
    assert steps[1..] == [extract, remove];
    if fs(download).None? {
      if fs(extract).Some? {
        assert [download] + [extract] == [download, extract];
      } else {
        assert [download] + [extract, remove] == steps;
      }
    }
  }

  /** The invariants of the job loop, carried over one more job. */
  lemma QueueAdvance(jobs: seq<Command>, n: nat, skus: seq<Sku>, abs: AbsPath, fs: FileSystem, clients: seq<Client>,
                     transport: Transport, results: seq<CommandResult>, performed: seq<Effect>, sent: seq<Delivery>,
                     log: seq<string>)
    requires n < |jobs|
    ensures var o := Execute(jobs[n], skus, abs, fs);
      && results + ResultsOf(jobs[..n], skus, abs, fs) + [o.result] == results + ResultsOf(jobs[..n + 1], skus, abs, fs)
      && performed + EffectsOf(jobs[..n], skus, abs, fs) + o.effects == performed + EffectsOf(jobs[..n + 1], skus, abs, fs)
      && sent + WritesOf(jobs[..n], skus, abs, fs, clients) + HubWrites(o, clients) ==
         sent + WritesOf(jobs[..n + 1], skus, abs, fs, clients)
      && log + FailureLog(WritesOf(jobs[..n], skus, abs, fs, clients), transport) + FailureLog(HubWrites(o, clients), transport) ==
         log + FailureLog(WritesOf(jobs[..n + 1], skus, abs, fs, clients), transport)
  {
    var o := Execute(jobs[n], skus, abs, fs);
    assert jobs[..n + 1] == jobs[..n] + [jobs[n]];
    QueueStep(jobs[..n], jobs[n], skus, abs, fs, clients);
    var done, writes := WritesOf(jobs[..n], skus, abs, fs, clients), HubWrites(o, clients);
    FailureLogAppend(done, writes, transport);
    AppendAssoc(results, ResultsOf(jobs[..n], skus, abs, fs), [o.result]);
    AppendAssoc(performed, EffectsOf(jobs[..n], skus, abs, fs), o.effects);
    AppendAssoc(sent, done, writes);
    AppendAssoc(log, FailureLog(done, transport), FailureLog(writes, transport));
  }

  lemma AppendAssoc<T>(a: seq<T>, b: seq<T>, c: seq<T>)
    ensures a + (b + c) == (a + b) + c
  {
  }

  /**
   * A looked-up job that fails leaves the steps it attempted and no refresh;
   * one that succeeds adds the refresh after all its steps and reports "Ok".
   */
  lemma ConcludeMeaning(cmd: Command, steps: seq<Effect>, fs: FileSystem, clients: seq<Client>)
    requires NotifyRefresh !in steps
    ensures var run, o := RunSteps(steps, fs), Conclude(cmd, RunSteps(steps, fs));
      && (run.error.Some? ==> o == Outcome(BadResult(cmd, run.error.value), run.attempted) && HubWrites(o, clients) == [])
      && (run.error.None? ==> o == Outcome(GoodResult(cmd), run.attempted + [NotifyRefresh]) &&
                               HubWrites(o, clients) == Broadcast(clients, Refresh))
  {
    var run := RunSteps(steps, fs);
    assert NotifyRefresh !in run.attempted by {
      assert run.attempted <= steps;
    }
  }

  class CommandProcessor {
    const appDir: string
    const database: Database
    const hub: ClientHub
    /** Jobs sent to the worker and not yet run, oldest first. */
    var queue: seq<Command>
    var closed: bool
    /** Every effect the worker has performed, in order. */
    var performed: seq<Effect>
    /** The results the worker has logged, in order. */
    var results: seq<CommandResult>

    constructor (appDir: string, database: Database, hub: ClientHub)
      ensures this.appDir == appDir && this.database == database && this.hub == hub
      ensures queue == [] && !closed && performed == [] && results == []
    {
      this.appDir, this.database, this.hub := appDir, database, hub;
      queue, closed, performed, results := [], false, [], [];
    }

    /**
     * CommandProcessor.Invoke: exactly one job joins the end of the queue.
     * Once the queue is closed the send on the closed channel panics instead:
     * `sent` is false and nothing is queued.
     */
    method Invoke(clientId: string, command: string, xrn: string) returns (sent: bool)
      modifies this
      ensures sent <==> !old(closed)
      ensures sent ==> queue == old(queue) + [Parse(command, xrn, appDir)]
      ensures !sent ==> queue == old(queue)
      ensures closed == old(closed) && performed == old(performed) && results == old(results)
    {
      if closed {
        return false;
      }
      queue := queue + [Parse(command, xrn, appDir)];
      sent := true;
    }

    /** CommandProcessor.Stop closes the queue; a job sent after it panics. */
    method Stop()
      modifies this
      ensures closed
      ensures queue == old(queue) && performed == old(performed) && results == old(results)
    {
      closed := true;
    }

    method Perform(step: Effect, fs: FileSystem) returns (err: Option<string>)
      modifies this
      ensures err == fs(step)
      ensures performed == old(performed) + [step]
      ensures queue == old(queue) && closed == old(closed) && results == old(results)
    {
      performed := performed + [step];
      err := fs(step);
    }

    /**
     * The filesystem half of installCmd.invoke: download the archive, unzip it
     * into the public directory, delete the archive, stopping at the first error.
     */
    method InstallFiles(url: string, publicDir: string, fs: FileSystem) returns (err: Option<string>)
      modifies this
      ensures var run := RunSteps(InstallSteps(publicDir, url), fs);
              err == run.error && performed == old(performed) + run.attempted
      ensures queue == old(queue) && closed == old(closed) && results == old(results)
    {
      var target := ArchivePath(publicDir, url);
      var download, extract, remove := Download(url, target), Extract(target, publicDir), RemoveFile(target);
      ghost var steps := [download, extract, remove];
      assert InstallSteps(publicDir, url) == steps;
      ghost var run := RunSteps(steps, fs);
      InstallRun(download, extract, remove, fs);
      ghost var before := performed;
      err := Perform(download, fs);
      if err.Some? {
        assert run == StepsOutcome(err, [download]);
        return;
      }
      err := Perform(extract, fs);
      if err.Some? {
        assert run == StepsOutcome(err, [download, extract]);
        assert performed == before + [download, extract];
        return;
      }
      err := Perform(remove, fs);
      assert run == StepsOutcome(err, steps);
      assert performed == before + steps;
    }

    /** The end of an install or uninstall: the error result, or the refresh and the good result. */
    method Finish(cmd: Command, err: Option<string>, transport: Transport) returns (r: CommandResult)
      modifies this, hub
      ensures err.Some? ==> r == BadResult(cmd, err.value) && performed == old(performed) &&
                            hub.sent == old(hub.sent) && hub.errorLog == old(hub.errorLog)
      ensures err.None? ==> r == GoodResult(cmd) && performed == old(performed) + [NotifyRefresh] &&
                            hub.sent == old(hub.sent) + Broadcast(hub.clients, Refresh) &&
                            hub.errorLog == old(hub.errorLog) + FailureLog(Broadcast(hub.clients, Refresh), transport)
      ensures hub.clients == old(hub.clients)
      ensures queue == old(queue) && closed == old(closed) && results == old(results)
    {
      if err.Some? {
        return BadResult(cmd, err.value);
      }
      performed := performed + [NotifyRefresh];
      hub.NotifyRefresh(transport);
      r := GoodResult(cmd);
    }

    /** installCmd.invoke: look up the SKU, resolve the directory, install the files, then refresh. */
    method RunInstall(cmd: Command, abs: AbsPath, fs: FileSystem, transport: Transport) returns (r: CommandResult)
      requires cmd.Install?
      modifies this, hub
      ensures var o, clients := old(Execute(cmd, database.skus, abs, fs)), old(hub.clients);
              r == o.result && performed == old(performed) + o.effects &&
              hub.sent == old(hub.sent) + HubWrites(o, clients) &&
              hub.errorLog == old(hub.errorLog) + FailureLog(HubWrites(o, clients), transport)
      ensures hub.clients == old(hub.clients)
      ensures queue == old(queue) && closed == old(closed) && results == old(results)
    {
      var found := FindSku(database.skus, cmd.xrn);
      if found.Err? {
        return BadResult(cmd, found.error);
      }
      var publicDir := abs(cmd.appDir);
      if publicDir.Err? {
        return BadResult(cmd, publicDir.error);
      }
      LookedUpOutcome(cmd, database.skus, abs, fs, hub.clients, transport);
      assert StepsOf(cmd, found.value, publicDir.value) == InstallSteps(publicDir.value, found.value.downloadUrl);
      var err := InstallFiles(found.value.downloadUrl, publicDir.value, fs);
      r := Finish(cmd, err, transport);
    }

    /** uninstallCmd.invoke: look up, remove the SKU's context directory, then refresh. */
    method RunUninstall(cmd: Command, abs: AbsPath, fs: FileSystem, transport: Transport) returns (r: CommandResult)
      requires cmd.Uninstall?
      modifies this, hub
      ensures var o, clients := old(Execute(cmd, database.skus, abs, fs)), old(hub.clients);
              r == o.result && performed == old(performed) + o.effects &&
              hub.sent == old(hub.sent) + HubWrites(o, clients) &&
              hub.errorLog == old(hub.errorLog) + FailureLog(HubWrites(o, clients), transport)
      ensures hub.clients == old(hub.clients)
      ensures queue == old(queue) && closed == old(closed) && results == old(results)
    {
      var found := FindSku(database.skus, cmd.xrn);
      if found.Err? {
        return BadResult(cmd, found.error);
      }
      var publicDir := abs(cmd.appDir);
      if publicDir.Err? {
        return BadResult(cmd, publicDir.error);
      }
      LookedUpOutcome(cmd, database.skus, abs, fs, hub.clients, transport);
      var path := PathJoin(publicDir.value, found.value.context);
      assert StepsOf(cmd, found.value, publicDir.value) == [RemoveTree(path)];
      assert RunSteps([RemoveTree(path)], fs) == StepsOutcome(fs(RemoveTree(path)), [RemoveTree(path)]);
      var err := Perform(RemoveTree(path), fs);
      r := Finish(cmd, err, transport);
    }

    /** Command.invoke, dispatched on the job's kind; unknownCmd fails at once. */
    method Run(cmd: Command, abs: AbsPath, fs: FileSystem, transport: Transport) returns (r: CommandResult)
      modifies this, hub
      ensures var o := Execute(cmd, database.skus, abs, fs);
              r == o.result && performed == old(performed) + o.effects &&
              hub.sent == old(hub.sent) + HubWrites(o, hub.clients) &&
              hub.errorLog == old(hub.errorLog) + FailureLog(HubWrites(o, hub.clients), transport)
      ensures hub.clients == old(hub.clients)
      ensures queue == old(queue) && closed == old(closed) && results == old(results)
    {
      match cmd
      case Install(_, _) => r := RunInstall(cmd, abs, fs, transport);
      case Uninstall(_, _) => r := RunUninstall(cmd, abs, fs, transport);
      case Unknown(name) => r := BadResult(cmd, UnknownReason(name));
    }

    /** One turn of the worker: the oldest job leaves the queue, runs, and its result is logged. */
    method RunNext(abs: AbsPath, fs: FileSystem, transport: Transport) returns (r: CommandResult)
      requires queue != []
      modifies this, hub
      ensures var o := old(Execute(queue[0], database.skus, abs, fs));
        && r == o.result && queue == old(queue[1..]) && results == old(results) + [r]
        && performed == old(performed) + o.effects
        && hub.sent == old(hub.sent) + HubWrites(o, old(hub.clients))
        && hub.errorLog == old(hub.errorLog) + FailureLog(HubWrites(o, old(hub.clients)), transport)
      ensures hub.clients == old(hub.clients) && closed == old(closed)
    {
      var job := queue[0];
      queue := queue[1..];
      r := Run(job, abs, fs, transport);
      results := results + [r];
    }

    /**
     * CommandProcessor.processJobs: takes jobs from the front of the queue and
     * runs each to completion before the next; a failed job does not stop it.
     */
    method ProcessJobs(abs: AbsPath, fs: FileSystem, transport: Transport)
      modifies this, hub
      ensures queue == []
      ensures results == old(results) + ResultsOf(old(queue), database.skus, abs, fs)
      ensures performed == old(performed) + EffectsOf(old(queue), database.skus, abs, fs)
      ensures hub.clients == old(hub.clients)
      ensures hub.sent == old(hub.sent) + WritesOf(old(queue), database.skus, abs, fs, hub.clients)
      ensures hub.errorLog == old(hub.errorLog) + FailureLog(WritesOf(old(queue), database.skus, abs, fs, hub.clients), transport)
      ensures closed == old(closed)
    {
      ghost var jobs, n := queue, 0;
      ghost var skus, clients := database.skus, hub.clients;
      while queue != []
        invariant n <= |jobs| && queue == jobs[n..]
        invariant database.skus == skus && hub.clients == clients
        invariant results == old(results) + ResultsOf(jobs[..n], skus, abs, fs)
        invariant performed == old(performed) + EffectsOf(jobs[..n], skus, abs, fs)
        invariant hub.sent == old(hub.sent) + WritesOf(jobs[..n], skus, abs, fs, clients)
        invariant hub.errorLog == old(hub.errorLog) + FailureLog(WritesOf(jobs[..n], skus, abs, fs, clients), transport)
        invariant closed == old(closed)
        decreases |queue|
      {
        assert queue[0] == jobs[n] && queue[1..] == jobs[n + 1..];
        QueueAdvance(jobs, n, skus, abs, fs, clients, transport, old(results), old(performed), old(hub.sent), old(hub.errorLog));
        var _ := RunNext(abs, fs, transport);
        n := n + 1;
      }
      assert jobs[..n] == jobs;
    }
  }
}
