/** The lifecycle manager of internal/auth/kiro/refresh_manager.go: it owns at most one
    background refresher, starts it under a cancellable context and stops it again. The
    mutex only serialises the methods, so each method is one atomic step here. */
module RefreshManager {
  import opened Wrappers
  import opened GoStrings
  import opened GoTime
  import opened TokenRepository

  /** A token-refreshed callback; distinct names stand for distinct function values. */
  datatype Callback = Callback(name: string)

  /** A `context.Context` made by `context.WithCancel`; `Cancel` is its cancel function. */
  class Context {
    var cancelled: bool

    constructor ()
      ensures !cancelled
    {
      cancelled := false;
    }

    method Cancel()
      modifies this
      ensures cancelled
    {
      cancelled := true;
    }
  }

  /** The part of a `BackgroundRefresher` the manager configures and drives. */
  class BackgroundRefresher {
    var tokenRepo: FileTokenRepository?
    var interval: int
    var batchSize: int
    var concurrency: int
    var onTokenRefreshed: Option<Callback>
    var running: bool

    /** `NewBackgroundRefresher(repo, WithInterval, WithBatchSize, WithConcurrency, ...)`. */
    constructor (repo: FileTokenRepository, interval: int, batchSize: int, concurrency: int,
                 callback: Option<Callback>)
      ensures tokenRepo == repo && this.interval == interval && this.batchSize == batchSize
      ensures this.concurrency == concurrency && onTokenRefreshed == callback && !running
    {
      tokenRepo := repo;
      this.interval := interval;
      this.batchSize := batchSize;
      this.concurrency := concurrency;
      onTokenRefreshed := callback;
      running := false;
    }

    method Start()
      modifies this
      ensures running
      ensures tokenRepo == old(tokenRepo) && onTokenRefreshed == old(onTokenRefreshed)
    {
      running := true;
    }

    method Stop()
      modifies this
      ensures !running
      ensures tokenRepo == old(tokenRepo) && onTokenRefreshed == old(onTokenRefreshed)
    {
      running := false;
    }
  }

  /** What the manager's state amounts to: whether a refresher exists and the directory
      its repository reads, whether it runs, and the registered callback. */
  datatype ManagerState = ManagerState(refresherDir: Option<string>, started: bool, callback: Option<Callback>)

  /** A manager never runs without a refresher. */
  predicate Coherent(s: ManagerState) {
    s.started ==> s.refresherDir.Some?
  }

  /** `Initialize(baseDir)`, `resolved` being what `util.ResolveAuthDir` returned (""
      on error): a no-op while started or for an empty directory, otherwise a new
      refresher on the resolved directory, or on `baseDir` when that resolved to "". */
  function InitializeStep(s: ManagerState, baseDir: string, resolved: string): (t: ManagerState)
    ensures t.started == s.started && t.callback == s.callback
    ensures s.started || baseDir == "" ==> t == s
    ensures !s.started && baseDir != "" ==> t.refresherDir == Some(if resolved != "" then resolved else baseDir)
  {
    if s.started || baseDir == "" then s
    else s.(refresherDir := Some(if resolved != "" then resolved else baseDir))
  }

  /** `Start`: a no-op when started or not initialized; otherwise the manager runs. */
  function StartStep(s: ManagerState): (t: ManagerState)
    ensures t.refresherDir == s.refresherDir && t.callback == s.callback
    ensures t.started <==> s.started || s.refresherDir.Some?
  {
    if s.started || s.refresherDir.None? then s else s.(started := true)
  }

  /** `Stop`: a no-op unless started; afterwards the manager is not running. */
  function StopStep(s: ManagerState): (t: ManagerState)
    ensures t == s.(started := false)
  {
    if !s.started then s else s.(started := false)
  }

  /** `UpdateBaseDir`: only an existing refresher's repository is redirected, to the
      trimmed directory. */
  function UpdateBaseDirStep(s: ManagerState, baseDir: string): (t: ManagerState)
    ensures t.started == s.started && t.callback == s.callback
    ensures s.refresherDir.None? ==> t == s
    ensures s.refresherDir.Some? ==> t.refresherDir == Some(TrimSpace(baseDir))
  {
    if s.refresherDir.Some? then s.(refresherDir := Some(TrimSpace(baseDir))) else s
  }

  /** Every step keeps the manager coherent. */
  lemma StepsPreserveCoherence(s: ManagerState, baseDir: string, resolved: string, cb: Option<Callback>)
    requires Coherent(s)
    ensures Coherent(InitializeStep(s, baseDir, resolved))
    ensures Coherent(StartStep(s)) && Coherent(StopStep(s))
    ensures Coherent(UpdateBaseDirStep(s, baseDir)) && Coherent(s.(callback := cb))
  {
  }

  /** Repeated `Start` and `Stop` calls do what one call does. */
  lemma StartStopIdempotent(s: ManagerState)
    ensures StartStep(StartStep(s)) == StartStep(s)
    ensures StopStep(StopStep(s)) == StopStep(s)
  {
  }

  /** Starting and then stopping an initialized manager that was not running returns it
      to where it was, and a second `Initialize` then replaces the refresher. */
  lemma StartThenStop(s: ManagerState, baseDir: string, resolved: string)
    requires s.refresherDir.Some? && !s.started
    ensures StartStep(s).started
    ensures StopStep(StartStep(s)) == s
    ensures baseDir != "" ==> InitializeStep(StopStep(StartStep(s)), baseDir, resolved).refresherDir
                              == Some(if resolved != "" then resolved else baseDir)
  {
  }

  /** A running manager ignores `Initialize`. */
  lemma InitializeWhileStartedIgnored(s: ManagerState, baseDir: string, resolved: string)
    requires s.started
    ensures InitializeStep(s, baseDir, resolved) == s
  {
  }

  /** `InitializeAndStart` with a non-empty directory on a stopped manager leaves it
      running on the resolved directory. */
  lemma InitializeAndStartRuns(s: ManagerState, baseDir: string, resolved: string)
    requires baseDir != ""
    ensures StartStep(InitializeStep(s, baseDir, resolved)).started
    ensures !s.started ==> StartStep(InitializeStep(s, baseDir, resolved)).refresherDir
                           == Some(if resolved != "" then resolved else baseDir)
  {
  }

  class RefreshManager {
    var refresher: BackgroundRefresher?
    var ctx: Context?
    var started: bool
    var onTokenRefreshed: Option<Callback>

    /** Every refresher the manager creates has a file repository and carries the
        manager's callback; it runs exactly while the manager is started, inside a live
        context. */
    ghost predicate Valid()
      reads this, refresher, ctx
    {
      (refresher != null ==> refresher.tokenRepo != null
                             && refresher.onTokenRefreshed == onTokenRefreshed
                             && refresher.running == started)
      && (started ==> refresher != null && ctx != null && !ctx.cancelled)
    }

    ghost function State(): ManagerState
      reads this, refresher, if refresher != null then {refresher.tokenRepo} else {}
    {
      ManagerState(if refresher != null && refresher.tokenRepo != null then Some(refresher.tokenRepo.baseDir) else None,
                   started, onTokenRefreshed)
    }

    /** The zero `RefreshManager{}` that `GetRefreshManager` allocates once. */
    constructor ()
      ensures Valid() && refresher == null && ctx == null && !started && onTokenRefreshed == None
      ensures State() == ManagerState(None, false, None)
    {
      refresher := null;
      ctx := null;
      started := false;
      onTokenRefreshed := None;
    }

    /** `Initialize(baseDir, cfg)`; it returns nil on every path. A new refresher polls
        every minute, 50 tokens per batch, 10 at a time. */
    method Initialize(baseDir: string, resolveAuthDir: string -> string) returns (err: Option<string>)
      requires Valid()
      modifies this
      ensures Valid() && err == None
      ensures State() == InitializeStep(old(State()), baseDir, resolveAuthDir(baseDir))
      ensures started == old(started) && ctx == old(ctx)
      ensures old(started) || baseDir == "" ==> refresher == old(refresher)
      ensures !old(started) && baseDir != "" ==>
        refresher != null && fresh(refresher) && fresh(refresher.tokenRepo)
        && refresher.interval == Minute && refresher.batchSize == 50 && refresher.concurrency == 10
    {
      if started {
        return None;
      }
      if baseDir == "" {
        return None;
      }
      var dir := baseDir;
      var resolvedBaseDir := resolveAuthDir(baseDir);
      if resolvedBaseDir != "" {
        dir := resolvedBaseDir;
      }
      var repo := new FileTokenRepository(dir);
      var callback := None;
      if onTokenRefreshed.Some? {
        callback := onTokenRefreshed;
      }
      refresher := new BackgroundRefresher(repo, Minute, 50, 10, callback);
      return None;
    }

    method Start()
      requires Valid()
      modifies this, refresher
      ensures Valid()
      ensures State() == StartStep(old(State()))
      ensures refresher == old(refresher)
      ensures old(started) || old(refresher) == null ==> ctx == old(ctx)
      ensures !old(started) && old(refresher) != null ==> ctx != null && fresh(ctx)
    {
      if started {
        return;
      }
      if refresher == null {
        return;
      }
      ctx := new Context();
      refresher.Start();
      started := true;
    }

    method Stop()
      requires Valid()
      modifies this, refresher, ctx
      ensures Valid()
      ensures State() == StopStep(old(State()))
      ensures refresher == old(refresher) && ctx == old(ctx)
      ensures old(started) ==> ctx.cancelled
    {
      if !started {
        return;
      }
      if ctx != null {
        ctx.Cancel();
      }
      if refresher != null {
        refresher.Stop();
      }
      started := false;
    }

    method IsRunning() returns (running: bool)
      ensures running == State().started
    {
      running := started;
    }

    method UpdateBaseDir(baseDir: string)
      requires Valid()
      modifies if refresher != null then {refresher.tokenRepo} else {}
      ensures Valid()
      ensures State() == UpdateBaseDirStep(old(State()), baseDir)
    {
      if refresher != null && refresher.tokenRepo != null {
        refresher.tokenRepo.SetBaseDir(baseDir);
      }
    }

    /** Stores the callback and hands it to an existing refresher. */
    method SetOnTokenRefreshed(callback: Option<Callback>)
      requires Valid()
      modifies this, refresher
      ensures Valid()
      ensures State() == old(State()).(callback := callback)
      ensures refresher == old(refresher) && ctx == old(ctx)
      ensures refresher != null ==> refresher.onTokenRefreshed == callback
    {
      onTokenRefreshed := callback;
      if refresher != null {
        refresher.onTokenRefreshed := callback;
      }
    }
  }
}
