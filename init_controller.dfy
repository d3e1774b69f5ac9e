/** The first-run endpoints of the admin API (`InitController`): initialising
    the site, uploading an image before initialisation, and the older restore
    from a backup file, each guarded against a site that is already
    initialised and against a second request while one is in flight. */
module InitController {
  import opened Js
  import opened Restore

  /** What a request observably does to the outside. */
  datatype Effect =
    | SiteInit                      // initProvider.init
    | Upload(isFavicon: bool)       // staticProvider.upload(file, 'img', isFavicon)
    | Provider(c: Call)             // a provider call of the restore, or the render trigger

  /** How a request ends. `Pending` is a request suspended at its `await`
      of the site initialisation; `Threw` an exception that escapes. */
  datatype Response =
    | Ok(body: Assoc)
    | Http(status: int, message: string)
    | Threw
    | Pending

  const AlreadyInited: Response := Http(500, "已初始化")
  const Busy: Response := Http(429, "处理中")
  const InitBody: Assoc := [("statusCode", JNum(200)), ("message", JStr("初始化成功!"))]
  const RestoreBody: Assoc := [("statusCode", JNum(200)), ("data", JStr("恢复成功！"))]

  /** The reason the older restore gives when it restarts the comment service. */
  const SettingsReason: string := "初始化恢复评论设置"

  /** `favicon && favicon == 'true'` on the query value, absent when not given. */
  function IsFavicon(favicon: Option<string>): (r: bool)
    ensures r <==> favicon == Some("true")
  {
    favicon.Some? && favicon.value != "" && favicon.value == "true"
  }

  function Lift(cs: seq<Call>): (r: seq<Effect>)
    ensures |r| == |cs|
    ensures forall i :: 0 <= i < |cs| ==> r[i] == Provider(cs[i])
  {
    seq(|cs|, i requires 0 <= i < |cs| => Provider(cs[i]))
  }

  // ---------------------------------------------------------------------
  // The provider calls of the older restore.

  /** The first ten stages, from the admin to the viewer logs. Unlike
      `restoreBackup` it always creates the admin, never writes the menus,
      restarts the comment service only for its settings, never imports
      comments, and imports visit and viewer logs whenever they are truthy. */
  function LegacyFront(p: Snapshot, hasOldMeta: bool): seq<seq<Call>> {
    [UserStep(p.user, InitMode),
     MetaStep(p.meta, hasOldMeta, false),
     [ImportArticles(Or(p.articles, EmptyArr))],
     [ImportDrafts(Or(p.drafts, EmptyArr))],
     CategoryStep(p.categories),
     [ImportSetting(Or(p.setting, JObj([])))],
     if Truthy(p.setting) && Truthy(Member(p.setting, "waline")) then [RestartWaline(SettingsReason)] else [],
     [ImportStatic(Or(p.staticItems, EmptyArr))],
     if Truthy(p.visit) then [ImportVisit(p.visit)] else [],
     if Truthy(p.viewer) then [ImportViewer(p.viewer)] else []]
  }

  /** All stages: the ten above, then rendering. */
  function LegacySegments(p: Snapshot, hasOldMeta: bool): seq<seq<Call>> {
    LegacyFront(p, hasOldMeta) + [[ActivateAll]]
  }

  /** The provider calls of a complete older restore of snapshot `s`. */
  function LegacyCalls(s: Snapshot, removeId: Json -> Json, hasOldMeta: bool): seq<Call> {
    Concat(LegacySegments(Prepare(s, removeId), hasOldMeta))
  }

  lemma StagedSnoc(ss: seq<seq<Call>>, seg: seq<Call>)
    requires Staged(ss) && InStage(seg, |ss|)
    ensures Staged(ss + [seg])
  {
    forall i | 0 <= i < |ss| + 1 ensures InStage((ss + [seg])[i], i) {
      if i < |ss| {
        assert (ss + [seg])[i] == ss[i];
      }
    }
  }

  lemma LegacyFrontStaged(p: Snapshot, hasOldMeta: bool)
    ensures Staged(LegacyFront(p, hasOldMeta))
  {
    LegacyStagedLow(p, hasOldMeta);
    LegacyStagedHigh(p);
    StagedTen(LegacyFront(p, hasOldMeta));
  }

  lemma LegacyStagedLow(p: Snapshot, hasOldMeta: bool)
    ensures InStage(UserStep(p.user, InitMode), 0)
    ensures InStage(MetaStep(p.meta, hasOldMeta, false), 1)
    ensures InStage([ImportArticles(Or(p.articles, EmptyArr))], 2)
    ensures InStage([ImportDrafts(Or(p.drafts, EmptyArr))], 3)
    ensures InStage(CategoryStep(p.categories), 4)
  {
    UserStepStaged(p.user, InitMode);
    MetaStepStaged(p.meta, hasOldMeta, false);
    MaybeStaged(NonEmpty(p.categories), ImportCategories(p.categories), 4);
  }

  lemma LegacyStagedHigh(p: Snapshot)
    ensures InStage([ImportSetting(Or(p.setting, JObj([])))], 5)
    ensures InStage(if Truthy(p.setting) && Truthy(Member(p.setting, "waline")) then [RestartWaline(SettingsReason)] else [], 6)
    ensures InStage([ImportStatic(Or(p.staticItems, EmptyArr))], 7)
    ensures InStage(if Truthy(p.visit) then [ImportVisit(p.visit)] else [], 8)
    ensures InStage(if Truthy(p.viewer) then [ImportViewer(p.viewer)] else [], 9)
  {
    MaybeStaged(Truthy(p.setting) && Truthy(Member(p.setting, "waline")), RestartWaline(SettingsReason), 6);
    MaybeStaged(Truthy(p.visit), ImportVisit(p.visit), 8);
    MaybeStaged(Truthy(p.viewer), ImportViewer(p.viewer), 9);
  }

  lemma LegacyStaged(p: Snapshot, hasOldMeta: bool)
    ensures Staged(LegacySegments(p, hasOldMeta))
  {
    LegacyFrontStaged(p, hasOldMeta);
    StagedSnoc(LegacyFront(p, hasOldMeta), [ActivateAll]);
  }

  /** The older restore runs stage by stage and renders last. */
  lemma LegacyOrdered(s: Snapshot, removeId: Json -> Json, hasOldMeta: bool)
    ensures var t := LegacyCalls(s, removeId, hasOldMeta);
            Ordered(t) && t != [] && t[|t| - 1] == ActivateAll
  {
    var ss := LegacySegments(Prepare(s, removeId), hasOldMeta);
    LegacyStaged(Prepare(s, removeId), hasOldMeta);
    ConcatStages(ss);
    assert ss[..|ss| - 1] == LegacyFront(Prepare(s, removeId), hasOldMeta);
  }

  /** The admin is created, with id 0, exactly when the backup has a user;
      the existing user is never updated instead. */
  lemma LegacyAdmin(s: Snapshot, removeId: Json -> Json, hasOldMeta: bool)
    ensures Count(LegacyCalls(s, removeId, hasOldMeta), KAdmin) == if Truthy(s.user) then 1 else 0
    ensures Count(LegacyCalls(s, removeId, hasOldMeta), KUpdateUser) == 0
  {
    var p := Prepare(s, removeId);
    LegacyStaged(p, hasOldMeta);
    ConcatCount(LegacySegments(p, hasOldMeta), KAdmin);
    ConcatCount(LegacySegments(p, hasOldMeta), KUpdateUser);
    PrepareKeepsSetting(s, removeId);
    UserStepCount(p.user, InitMode, KAdmin);
    UserStepCount(p.user, InitMode, KUpdateUser);
  }

  /** Every admin record the older restore creates has id 0 and the backed-up name. */
  lemma LegacyAdminIdZero(s: Snapshot, removeId: Json -> Json, hasOldMeta: bool, c: Call)
    requires c in LegacyCalls(s, removeId, hasOldMeta) && c.CreateAdminFromBackup?
    ensures Get(c.admin, "id") == Some(JNum(0))
    ensures Get(c.admin, "name") == Some(Member(s.user, "name"))
  {
    var p := Prepare(s, removeId);
    var ss := LegacySegments(p, hasOldMeta);
    LegacyStaged(p, hasOldMeta);
    InConcat(ss, c);
    var i :| 0 <= i < |ss| && c in ss[i];
    var j :| 0 <= j < |ss[i]| && ss[i][j] == c;
    assert InStage(ss[i], i);
    assert i == 0;
    assert c == CreateAdminFromBackup(AdminRecord(p.user));
    PrepareKeepsSetting(s, removeId);
  }

  /** The comment service is restarted at most once, exactly when the
      backed-up settings include comment settings. */
  lemma LegacyRestarts(s: Snapshot, removeId: Json -> Json, hasOldMeta: bool)
    ensures Count(LegacyCalls(s, removeId, hasOldMeta), KRestart) ==
      if Truthy(s.setting) && Truthy(Member(s.setting, "waline")) then 1 else 0
  {
    var p := Prepare(s, removeId);
    var b := Truthy(p.setting) && Truthy(Member(p.setting, "waline"));
    var seg := if b then [RestartWaline(SettingsReason)] else [];
    LegacyStaged(p, hasOldMeta);
    ConcatCount(LegacySegments(p, hasOldMeta), KRestart);
    assert LegacySegments(p, hasOldMeta)[6] == seg;
    MaybeOneCount(b, RestartWaline(SettingsReason), KRestart);
    assert Count(seg, KRestart) == if b then 1 else 0;
    PrepareKeepsSetting(s, removeId);
  }

  /** The older restore never imports comments. */
  lemma LegacyNoComments(s: Snapshot, removeId: Json -> Json, hasOldMeta: bool)
    ensures Count(LegacyCalls(s, removeId, hasOldMeta), KComments) == 0
  {
    var p := Prepare(s, removeId);
    LegacyStaged(p, hasOldMeta);
    ConcatCount(LegacySegments(p, hasOldMeta), KComments);
    MaybeOneCount(Truthy(p.setting) && Truthy(Member(p.setting, "waline")), RestartWaline(SettingsReason), KComments);
  }

  /** Visit and viewer logs are imported whenever the cleaned-up value is truthy. */
  lemma LegacyLogs(s: Snapshot, removeId: Json -> Json, hasOldMeta: bool)
    ensures Count(LegacyCalls(s, removeId, hasOldMeta), KVisit) ==
      if Truthy(removeId(Or(s.visit, EmptyArr))) then 1 else 0
    ensures Count(LegacyCalls(s, removeId, hasOldMeta), KViewer) ==
      if Truthy(removeId(Or(s.viewer, EmptyArr))) then 1 else 0
  {
    var p := Prepare(s, removeId);
    LegacyStaged(p, hasOldMeta);
    ConcatCount(LegacySegments(p, hasOldMeta), KVisit);
    ConcatCount(LegacySegments(p, hasOldMeta), KViewer);
    MaybeOneCount(Truthy(p.visit), ImportVisit(p.visit), KVisit);
    MaybeOneCount(Truthy(p.viewer), ImportViewer(p.viewer), KViewer);
  }

  /** When the id removal keeps an empty list empty, a backup without visit
      logs still gets an (empty) visit import from the older restore, and
      none from `restoreBackup`. */
  lemma LegacyImportsEmptyVisits(s: Snapshot, removeId: Json -> Json, hasOldMeta: bool)
    requires !Truthy(s.visit) && removeId(EmptyArr) == EmptyArr
    ensures Count(LegacyCalls(s, removeId, hasOldMeta), KVisit) == 1
    ensures Count(RestoreCalls(s, InitMode, SettingsReason, removeId, hasOldMeta), KVisit) == 0
  {
    LegacyLogs(s, removeId, hasOldMeta);
    RestoreCount(s, InitMode, SettingsReason, removeId, hasOldMeta, KVisit);
  }

  /** A run of the older restore: the provider calls made, how the request
      ends, and whether it clears the busy flag on the way out. */
  datatype Run = Run(executed: seq<Call>, response: Response, release: bool)

  /** The older restore once the flag is set: `text` is parsed by `parse`
      (`None` is a parse error) and, when `failAt` is `Some(i)`, provider call
      `i` throws. Only the render call sits inside the `try` whose `finally`
      clears the flag. */
  function LegacyRun(parse: string -> Option<Json>, text: string, removeId: Json -> Json,
                     hasOldMeta: bool, failAt: Option<nat>): Run
  {
    match parse(text)
    case None => Run([], Threw, false)
    case Some(data) =>
      match Destructure(data)
      case None => Run([], Threw, false)
      case Some(s) =>
        var calls := LegacyCalls(s, removeId, hasOldMeta);
        if failAt.Some? && failAt.value < |calls| then
          Run(calls[..failAt.value + 1], Threw, failAt.value == |calls| - 1)
        else
          Run(calls, Ok(RestoreBody), true)
  }

  /** A restore that reaches the end answers with success and clears the
      flag; one that fails at a provider call before rendering leaves the
      flag set; a parse error or a null backup leaves it set with no call made. */
  lemma LegacyRunRelease(parse: string -> Option<Json>, text: string, removeId: Json -> Json,
                         hasOldMeta: bool, failAt: Option<nat>)
    ensures var r := LegacyRun(parse, text, removeId, hasOldMeta, failAt);
            (r.response.Ok? ==> r.release) &&
            (r.release <==> r.response.Ok? || (r.executed != [] && r.executed[|r.executed| - 1] == ActivateAll)) &&
            (parse(text).None? ==> !r.release && r.executed == [] && r.response == Threw)
  {
    if parse(text).Some? && Destructure(parse(text).value).Some? && failAt.Some? {
      LegacyFailRelease(Destructure(parse(text).value).value, removeId, hasOldMeta, failAt.value);
    }
  }

  /** A failure at call `i` releases the flag exactly when that call is the render call. */
  lemma LegacyFailRelease(s: Snapshot, removeId: Json -> Json, hasOldMeta: bool, i: nat)
    ensures var calls := LegacyCalls(s, removeId, hasOldMeta);
            i < |calls| ==> (calls[..i + 1][i] == ActivateAll <==> i == |calls| - 1)
  {
    var calls := LegacyCalls(s, removeId, hasOldMeta);
    if i < |calls| {
      LegacyOrdered(s, removeId, hasOldMeta);
      assert calls[..i + 1][i] == calls[i];
      if i < |calls| - 1 {
        LegacyActivateOnlyLast(s, removeId, hasOldMeta, i);
      }
    }
  }

  /** The render call is the last call, and the only one. */
  lemma LegacyActivateOnlyLast(s: Snapshot, removeId: Json -> Json, hasOldMeta: bool, i: nat)
    requires i < |LegacyCalls(s, removeId, hasOldMeta)| - 1
    ensures LegacyCalls(s, removeId, hasOldMeta)[i] != ActivateAll
  {
    var p := Prepare(s, removeId);
    var ss := LegacySegments(p, hasOldMeta);
    var front := LegacyFront(p, hasOldMeta);
    LegacyFrontStaged(p, hasOldMeta);
    ConcatStages(front);
    ConcatSnoc(front, [ActivateAll]);
    var t := LegacyCalls(s, removeId, hasOldMeta);
    assert t == Concat(front) + [ActivateAll];
    assert t[i] == Concat(front)[i];
  }

  class Controller {
    var isInitializing: bool
    var isRestoring: bool
    /** Every effect of the requests so far. */
    var effects: seq<Effect>

    constructor ()
      ensures !isInitializing && !isRestoring && effects == []
    {
      isInitializing := false;
      isRestoring := false;
      effects := [];
    }

    /** `initSystem` up to its `await` of the initialisation: `hasInit` is
        what `checkHasInited` answered. Rejected requests do no work. */
    method BeginInit(hasInit: bool) returns (r: Response)
      modifies this
      ensures hasInit ==> r == AlreadyInited
      ensures !hasInit && old(isInitializing) ==> r == Busy
      ensures r != Pending ==> isInitializing == old(isInitializing) && effects == old(effects)
      ensures !hasInit && !old(isInitializing) ==> r == Pending && isInitializing && effects == old(effects) + [SiteInit]
      ensures isRestoring == old(isRestoring)
    {
      if hasInit {
        return AlreadyInited;
      }
      if isInitializing {
        return Busy;
      }
      isInitializing := true;
      effects := effects + [SiteInit];
      r := Pending;
    }

    /** The rest of `initSystem` once the initialisation settles (`initOk`
        when it succeeded): trigger a full render, answer, and in every case
        clear the flag. */
    method FinishInit(initOk: bool) returns (r: Response)
      modifies this
      ensures !isInitializing && isRestoring == old(isRestoring)
      ensures initOk ==> r == Ok(InitBody) && effects == old(effects) + [Provider(ActivateAll)]
      ensures !initOk ==> r == Threw && effects == old(effects)
    {
      if initOk {
        effects := effects + [Provider(ActivateAll)];
        r := Ok(InitBody);
      } else {
        r := Threw;
      }
      isInitializing := false;
    }

    /** `initSystem` run to completion with no other request in between:
        whatever the outcome, the flag is as it was before. */
    method InitSystem(hasInit: bool, initOk: bool) returns (r: Response)
      modifies this
      ensures isInitializing == old(isInitializing) && isRestoring == old(isRestoring)
      ensures hasInit ==> r == AlreadyInited && effects == old(effects)
      ensures !hasInit && old(isInitializing) ==> r == Busy && effects == old(effects)
      ensures !hasInit && !old(isInitializing) ==>
        (initOk ==> r == Ok(InitBody) && effects == old(effects) + [SiteInit, Provider(ActivateAll)]) &&
        (!initOk ==> r == Threw && effects == old(effects) + [SiteInit])
    {
      r := BeginInit(hasInit);
      if r == Pending {
        r := FinishInit(initOk);
      }
    }

    /** `uploadImg`: before initialisation, upload the file, as a favicon
        exactly when asked with the text `true`. `uploadOk` says whether the
        upload resolves (with `uploaded`); a rejection ends the request with 500. */
    method UploadImg(hasInit: bool, favicon: Option<string>, uploadOk: bool, uploaded: Json) returns (r: Response)
      modifies this
      ensures isInitializing == old(isInitializing) && isRestoring == old(isRestoring)
      ensures hasInit ==> r == AlreadyInited && effects == old(effects)
      ensures !hasInit ==> effects == old(effects) + [Upload(favicon == Some("true"))]
      ensures !hasInit ==> r == if uploadOk then Ok([("statusCode", JNum(200)), ("data", uploaded)]) else Threw
    {
      if hasInit {
        return AlreadyInited;
      }
      var isFavicon := false;
      if IsFavicon(favicon) {
        isFavicon := true;
      }
      effects := effects + [Upload(isFavicon)];
      if !uploadOk {
        return Threw;
      }
      r := Ok([("statusCode", JNum(200)), ("data", uploaded)]);
    }

    /** `restoreByBackup`, the older restore: guard, set the flag, parse the
        file and call the providers stage by stage. */
    method RestoreByBackup(hasInit: bool, parse: string -> Option<Json>, text: string,
                           removeId: Json -> Json, hasOldMeta: bool, failAt: Option<nat>)
      returns (r: Response)
      modifies this
      ensures isInitializing == old(isInitializing)
      ensures hasInit ==> r == AlreadyInited && effects == old(effects) && isRestoring == old(isRestoring)
      ensures !hasInit && old(isRestoring) ==> r == Busy && effects == old(effects) && isRestoring
      ensures !hasInit && !old(isRestoring) ==>
        var run := LegacyRun(parse, text, removeId, hasOldMeta, failAt);
        r == run.response && effects == old(effects) + Lift(run.executed) && isRestoring == !run.release
    {
      if hasInit {
        return AlreadyInited;
      }
      if isRestoring {
        return Busy;
      }
      isRestoring := true;
      var data := parse(text);
      if data.None? {
        return Threw;
      }
      var snapshot := Destructure(data.value);
      if snapshot.None? {
        return Threw;
      }
      var s := snapshot.value;
      var calls := LegacyProviderCalls(s, removeId, hasOldMeta);
      if failAt.Some? && failAt.value < |calls| {
        effects := effects + Lift(calls[..failAt.value + 1]);
        if failAt.value == |calls| - 1 {
          isRestoring := false;
        }
        return Threw;
      }
      effects := effects + Lift(calls);
      isRestoring := false;
      r := Ok(RestoreBody);
    }
  }

  /** The provider calls of the older restore, one stage after the other. */
  method LegacyProviderCalls(s: Snapshot, removeId: Json -> Json, hasOldMeta: bool) returns (calls: seq<Call>)
    ensures calls == LegacyCalls(s, removeId, hasOldMeta)
  {
    var p := CleanUp(s, removeId);
    var step := RestoreUser(p.user, InitMode);
    calls := step;
    step := RestoreMeta(p.meta, hasOldMeta, false);
    calls := calls + step;
    calls := calls + [ImportArticles(Or(p.articles, EmptyArr))];
    calls := calls + [ImportDrafts(Or(p.drafts, EmptyArr))];
    step := if NonEmpty(p.categories) then [ImportCategories(p.categories)] else [];
    calls := calls + step;
    calls := calls + [ImportSetting(Or(p.setting, JObj([])))];
    step := if Truthy(p.setting) && Truthy(Member(p.setting, "waline")) then [RestartWaline(SettingsReason)] else [];
    calls := calls + step;
    calls := calls + [ImportStatic(Or(p.staticItems, EmptyArr))];
    step := if Truthy(p.visit) then [ImportVisit(p.visit)] else [];
    calls := calls + step;
    step := if Truthy(p.viewer) then [ImportViewer(p.viewer)] else [];
    calls := calls + step;
    calls := calls + [ActivateAll];

    var front := LegacyFront(p, hasOldMeta);
    ConcatTen(front);
    ConcatSnoc(front, [ActivateAll]);
  }

  /** Overlapping `initSystem` requests on a fresh controller: the second
      arrives while the first awaits the initialisation, is rejected as busy
      and does no work. The first fails, its `finally` clears the flag, and a
      third request is let through; once that one succeeds the site counts as
      initialised and a fourth is rejected with 500. */
  method OverlappingInit() returns (first: Response, second: Response, third: Response, fourth: Response,
                                    work: seq<Effect>)
    ensures first == Pending && second == Busy && third == Pending && fourth == AlreadyInited
    ensures work == [SiteInit, SiteInit, Provider(ActivateAll)]
  {
    var c := new Controller();
    first := c.BeginInit(false);
    second := c.BeginInit(false);
    var failed := c.FinishInit(false);
    third := c.BeginInit(false);
    var done := c.FinishInit(true);
    fourth := c.BeginInit(true);
    work := c.effects;
  }

  /** After an older restore that fails before rendering, every later
      restore is turned away as busy, whatever it carries. */
  method StuckRestore(parse: string -> Option<Json>, text: string, removeId: Json -> Json,
                      hasOldMeta: bool, failAt: Option<nat>, text2: string)
    returns (first: Response, second: Response)
    requires !LegacyRun(parse, text, removeId, hasOldMeta, failAt).release
    ensures first == Threw && second == Busy
  {
    var c := new Controller();
    first := c.RestoreByBackup(false, parse, text, removeId, hasOldMeta, failAt);
    LegacyRunRelease(parse, text, removeId, hasOldMeta, failAt);
    second := c.RestoreByBackup(false, parse, text2, removeId, hasOldMeta, None);
  }
}
