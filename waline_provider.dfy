/** The supervisor of the comment-service child process (`WalineProvider`'s
    `run`, `stop`, `restart`, `init` and exit handler). The child process is
    known only by its process id; spawning it, killing its process group and
    its exit are the effects recorded in `trace`. */
module WalineSupervisor {
  import opened Js
  import opened WalineEnv

  datatype Effect =
    | Spawn(pid: int, env: Assoc)   // `spawn('node', [base], { env, detached: true })`
    | KillGroup(pid: int)           // `process.kill(-pid)`
    | Exited(pid: int)              // the child's `exit` event

  /** The children started and not yet killed or exited. */
  function Running(t: seq<Effect>): set<int>
    decreases |t|
  {
    if t == [] then {}
    else
      var r := Running(t[..|t| - 1]);
      match t[|t| - 1]
      case Spawn(p, _) => r + {p}
      case KillGroup(p) => r - {p}
      case Exited(p) => r - {p}
  }

  /** The handle tells the truth: absent when no child runs, and the one running child otherwise. */
  predicate Tracks(ctx: Option<int>, t: seq<Effect>) {
    if ctx.None? then Running(t) == {} else Running(t) == {ctx.value}
  }

  /** What `stop` does to the process group: kill it when there is a handle. */
  function StopEffects(ctx: Option<int>): (r: seq<Effect>)
    ensures ctx.None? ==> r == []
    ensures ctx.Some? ==> r == [KillGroup(ctx.value)]
  {
    if ctx.Some? then [KillGroup(ctx.value)] else []
  }

  /** The handle after an exit event of child `pid`, as the handler is
      written: it clears the handle whichever child exited. */
  function ExitAsWritten(ctx: Option<int>, pid: int): (r: Option<int>)
    ensures r.None?
  {
    None
  }

  /** The handle after an exit event, clearing it only when the child that
      exited is the one it names. */
  function ExitChecked(ctx: Option<int>, pid: int): (r: Option<int>)
    ensures ctx == Some(pid) ==> r.None?
    ensures ctx != Some(pid) ==> r == ctx
  {
    if ctx == Some(pid) then None else ctx
  }

  lemma RunningSpawn(t: seq<Effect>, pid: int, env: Assoc)
    ensures Running(t + [Spawn(pid, env)]) == Running(t) + {pid}
  {
    assert (t + [Spawn(pid, env)])[..|t|] == t;
  }

  lemma RunningKill(t: seq<Effect>, pid: int)
    ensures Running(t + [KillGroup(pid)]) == Running(t) - {pid}
  {
    assert (t + [KillGroup(pid)])[..|t|] == t;
  }

  lemma RunningExit(t: seq<Effect>, pid: int)
    ensures Running(t + [Exited(pid)]) == Running(t) - {pid}
  {
    assert (t + [Exited(pid)])[..|t|] == t;
  }

  /** `stop` leaves no child running. */
  lemma StopTracks(ctx: Option<int>, t: seq<Effect>)
    requires Tracks(ctx, t)
    ensures Tracks(None, t + StopEffects(ctx))
  {
    if ctx.Some? {
      RunningKill(t, ctx.value);
    } else {
      assert t + StopEffects(ctx) == t;
    }
  }

  /** `run` (and so `restart`) leaves exactly the new child running: an old
      one is killed first, so there is never a second server. */
  lemma RunTracks(ctx: Option<int>, t: seq<Effect>, pid: int, env: Assoc)
    requires Tracks(ctx, t)
    ensures Tracks(Some(pid), t + StopEffects(ctx) + [Spawn(pid, env)])
  {
    StopTracks(ctx, t);
    RunningSpawn(t + StopEffects(ctx), pid, env);
  }

  /** With the checked handler an exit event, from the current child or a
      stale one, keeps the handle truthful. */
  lemma ExitCheckedTracks(ctx: Option<int>, t: seq<Effect>, pid: int)
    requires Tracks(ctx, t)
    ensures Tracks(ExitChecked(ctx, pid), t + [Exited(pid)])
  {
    RunningExit(t, pid);
  }

  /** With the handler as written, a restart whose old child reports its exit
      only after the new child has been spawned loses the handle of the new
      child; the next restart then starts a second server beside it. */
  lemma LateExitStartsSecondServer(env: Assoc)
    ensures var t1 := [Spawn(1, env)];
            var t2 := t1 + StopEffects(Some(1)) + [Spawn(2, env)];
            var t3 := t2 + [Exited(1)];
            var ctx3 := ExitAsWritten(Some(2), 1);
            var t4 := t3 + StopEffects(ctx3) + [Spawn(3, env)];
            Tracks(Some(2), t2) && !Tracks(ctx3, t3) && Running(t4) == {2, 3}
  {
    var t1 := [Spawn(1, env)];
    RunningSpawn([], 1, env);
    assert [] + t1 == t1;
    RunTracks(Some(1), t1, 2, env);
    var t2 := t1 + StopEffects(Some(1)) + [Spawn(2, env)];
    assert Running(t2) == {2};
    var t3 := t2 + [Exited(1)];
    RunningExit(t2, 1);
    var t4 := t3 + StopEffects(None) + [Spawn(3, env)];
    assert t4 == t3 + [Spawn(3, env)];
    RunningSpawn(t3, 3, env);
  }

  /** Where `loadEnv` reads its layers from: the database address, whether this
      is a development run, the comment database name, the site information,
      the token secret, the salt `makeSalt` would give, and the stored
      comment settings. */
  datatype EnvSources = EnvSources(
    url: MongoUrl, isDev: bool, walineDB: string,
    siteInfo: Option<SiteInfo>, jwtSecret: Json, salt: string,
    settings: Option<Assoc>)

  /** The environment `loadEnv` computes from its sources. */
  function EnvFrom(parse: Parser, src: EnvSources): (r: Assoc)
    ensures Truthy(Prop(r, "AKISMET_KEY"))
  {
    LoadedEnv(MongoEnv(src.url, src.isDev, src.walineDB),
              SiteEnv(src.siteInfo, src.jwtSecret, src.salt),
              EnvOfSettings(parse, src.settings))
  }

  class WalineProvider {
    /** The child process, by process id; `null` in the source is `None`. */
    var ctx: Option<int>
    /** The environment the next child is given. */
    var env: Assoc
    /** Every effect on child processes so far. */
    var trace: seq<Effect>

    ghost predicate Valid()
      reads this
    {
      Tracks(ctx, trace)
    }

    constructor ()
      ensures ctx.None? && env == [] && trace == []
      ensures Valid()
    {
      ctx := None;
      env := [];
      trace := [];
    }

    /** `loadEnv`: recompute the environment from its sources. */
    method LoadEnv(parse: Parser, src: EnvSources)
      modifies this
      ensures env == EnvFrom(parse, src)
      ensures ctx == old(ctx) && trace == old(trace)
    {
      var mongoEnv := MongoEnv(src.url, src.isDev, src.walineDB);
      var otherEnv := SiteEnv(src.siteInfo, src.jwtSecret, src.salt);
      var walineConfigEnv := MapConfig2Env(parse, src.settings);
      var e := Spread(Spread(Spread([], mongoEnv), otherEnv), walineConfigEnv);
      if !Truthy(Prop(e, "AKISMET_KEY")) {
        e := Assign(e, "AKISMET_KEY", JStr("false"));
      }
      env := e;
    }

    /** `stop`: kill the child's process group and drop the handle. */
    method Stop()
      modifies this
      ensures ctx.None? && env == old(env)
      ensures trace == old(trace) + StopEffects(old(ctx))
      ensures old(Valid()) ==> Valid()
    {
      if ctx.Some? {
        if Valid() {
          StopTracks(ctx, trace);
        }
        trace := trace + [KillGroup(ctx.value)];
        ctx := None;
      }
    }

    /** `run`: reload the environment, then spawn the child with the
        process environment overlaid by it; when a child is already running,
        stop it and run again. `pid` is the process id the system gives the
        new child. */
    method Run(parse: Parser, src: EnvSources, procEnv: Assoc, pid: int)
      modifies this
      ensures env == EnvFrom(parse, src) && ctx == Some(pid)
      ensures trace == old(trace) + StopEffects(old(ctx)) + [Spawn(pid, Spread(procEnv, env))]
      ensures old(Valid()) ==> Valid()
      decreases if ctx.Some? then 1 else 0
    {
      LoadEnv(parse, src);
      if ctx.None? {
        if Valid() {
          RunTracks(None, trace, pid, Spread(procEnv, env));
        }
        trace := trace + [Spawn(pid, Spread(procEnv, env))];
        ctx := Some(pid);
      } else {
        Stop();
        Run(parse, src, procEnv, pid);
      }
    }

    /** `init`: start the child. */
    method Init(parse: Parser, src: EnvSources, procEnv: Assoc, pid: int)
      modifies this
      ensures env == EnvFrom(parse, src) && ctx == Some(pid)
      ensures trace == old(trace) + StopEffects(old(ctx)) + [Spawn(pid, Spread(procEnv, env))]
      ensures old(Valid()) ==> Valid()
    {
      Run(parse, src, procEnv, pid);
    }

    /** `restart`: stop a running child, then run a new one. */
    method Restart(parse: Parser, src: EnvSources, procEnv: Assoc, pid: int)
      modifies this
      ensures env == EnvFrom(parse, src) && ctx == Some(pid)
      ensures trace == old(trace) + StopEffects(old(ctx)) + [Spawn(pid, Spread(procEnv, env))]
      ensures old(Valid()) ==> Valid()
    {
      if ctx.Some? {
        Stop();
      }
      Run(parse, src, procEnv, pid);
    }

    /** The `exit` handler for child `pid`, clearing the handle only when it
        names that child. */
    method OnExit(pid: int)
      modifies this
      ensures ctx == ExitChecked(old(ctx), pid) && env == old(env)
      ensures trace == old(trace) + [Exited(pid)]
      ensures old(Valid()) ==> Valid()
    {
      if Valid() {
        ExitCheckedTracks(ctx, trace, pid);
      }
      if ctx == Some(pid) {
        ctx := None;
      }
      trace := trace + [Exited(pid)];
    }
  }
}
