/** Restoring a backup (`restoreBackup`): the snapshot is cleaned up and then
    written back through the providers in a fixed order. The providers are
    opaque; the model records the calls made to them, in order, as a trace. */
module Restore {
  import opened Js
  import opened Strings

  /** The parts of a backup that a restore reads, as the backup export writes
      them: `articles`, `meta`, `drafts`, `categories`, `user`, `viewer`,
      `visit`, `static`, `setting` (with `static`, `layout` and `waline`) and
      `waline` (with `comments`). A part missing from the file is undefined. */
  datatype Snapshot = Snapshot(
    articles: Json, drafts: Json, meta: Json, user: Json, setting: Json,
    categories: Json, waline: Json, viewer: Json, visit: Json, staticItems: Json)

  /** `const { meta, user, ... } = data`: destructuring throws on null and
      undefined, and reads the named properties otherwise. */
  function Destructure(data: Json): (r: Option<Snapshot>)
    ensures r.None? <==> (data.JNull? || data.JUndefined?)
    ensures r.Some? ==> (r.value.articles == Member(data, "articles") && r.value.meta == Member(data, "meta") &&
                         r.value.user == Member(data, "user") && r.value.setting == Member(data, "setting") &&
                         r.value.waline == Member(data, "waline"))
    ensures r.Some? ==> (r.value.drafts == Member(data, "drafts") && r.value.categories == Member(data, "categories") &&
                         r.value.viewer == Member(data, "viewer") && r.value.visit == Member(data, "visit"))
    // The one renamed part: `static: staticItems`.
    ensures r.Some? ==> r.value.staticItems == Member(data, "static")
  {
    if data.JNull? || data.JUndefined? then None
    else Some(Snapshot(
      Member(data, "articles"), Member(data, "drafts"), Member(data, "meta"), Member(data, "user"),
      Member(data, "setting"), Member(data, "categories"), Member(data, "waline"),
      Member(data, "viewer"), Member(data, "visit"), Member(data, "static")))
  }

  datatype Mode = InitMode | ImportMode

  /** The calls made to the providers. */
  datatype Call =
    | CreateAdminFromBackup(admin: Assoc)   // userProvider.createAdminFromBackup
    | UpdateUser(user: Json)                // userProvider.updateUser
    | GetMeta                               // metaProvider.getAll
    | UpdateMeta(meta: Json)                // metaProvider.update
    | CreateMeta(meta: Json)                // metaProvider.create
    | UpdateMenuSetting(menus: Json)        // settingProvider.updateMenuSetting
    | ImportArticles(items: Json)           // articleProvider.importArticles
    | ImportDrafts(items: Json)             // draftProvider.importDrafts
    | ImportCategories(items: Json)         // categoryProvider.importCategories
    | ImportSetting(setting: Json)          // settingProvider.importSetting
    | RestartWaline(reason: string)         // walineProvider.restart
    | ImportComments(comments: Json)        // walineProvider.importComments
    | ImportStatic(items: Json)             // staticProvider.importItems
    | ImportVisit(items: Json)              // visitProvider.import
    | ImportViewer(items: Json)             // viewerProvider.import
    | ActivateAll                           // isrProvider.activeAll

  datatype Kind =
    | KAdmin | KUpdateUser | KGetMeta | KUpdateMeta | KCreateMeta | KMenu
    | KArticles | KDrafts | KCategories | KSetting | KRestart | KComments
    | KStatic | KVisit | KViewer | KActivate

  function KindOf(c: Call): Kind {
    match c
    case CreateAdminFromBackup(_) => KAdmin
    case UpdateUser(_) => KUpdateUser
    case GetMeta => KGetMeta
    case UpdateMeta(_) => KUpdateMeta
    case CreateMeta(_) => KCreateMeta
    case UpdateMenuSetting(_) => KMenu
    case ImportArticles(_) => KArticles
    case ImportDrafts(_) => KDrafts
    case ImportCategories(_) => KCategories
    case ImportSetting(_) => KSetting
    case RestartWaline(_) => KRestart
    case ImportComments(_) => KComments
    case ImportStatic(_) => KStatic
    case ImportVisit(_) => KVisit
    case ImportViewer(_) => KViewer
    case ActivateAll => KActivate
  }

  /** The stage of a restore a call belongs to: user, meta, articles, drafts,
      categories, settings, comment service, static items, visits, viewers
      and finally rendering. */
  function Stage(k: Kind): nat {
    match k
    case KAdmin => 0
    case KUpdateUser => 0
    case KGetMeta => 1
    case KUpdateMeta => 1
    case KCreateMeta => 1
    case KMenu => 1
    case KArticles => 2
    case KDrafts => 3
    case KCategories => 4
    case KSetting => 5
    case KRestart => 6
    case KComments => 6
    case KStatic => 7
    case KVisit => 8
    case KViewer => 9
    case KActivate => 10
  }

  /** How many calls of kind `k` the trace holds. */
  function Count(t: seq<Call>, k: Kind): nat
    decreases |t|
  {
    if t == [] then 0 else Count(t[..|t| - 1], k) + (if KindOf(t[|t| - 1]) == k then 1 else 0)
  }

  /** The calls run stage by stage, never going back to an earlier stage. */
  predicate Ordered(t: seq<Call>) {
    forall i, j :: 0 <= i < j < |t| ==> Stage(KindOf(t[i])) <= Stage(KindOf(t[j]))
  }

  /** Every comment import is followed at once by the restart it calls for. */
  predicate CommentsThenRestart(t: seq<Call>, restartReason: string) {
    forall i :: 0 <= i < |t| && t[i].ImportComments? ==> i + 1 < |t| && t[i + 1] == RestartWaline(restartReason)
  }

  /** The segments of a trace, one after the other. */
  function Concat(ss: seq<seq<Call>>): seq<Call>
    decreases |ss|
  {
    if ss == [] then [] else Concat(ss[..|ss| - 1]) + ss[|ss| - 1]
  }

  /** Every call of `seg` belongs to stage `n`. */
  predicate InStage(seg: seq<Call>, n: nat) {
    forall j :: 0 <= j < |seg| ==> Stage(KindOf(seg[j])) == n
  }

  /** Segment `i` holds only calls of stage `i`. */
  predicate Staged(ss: seq<seq<Call>>) {
    forall i :: 0 <= i < |ss| ==> InStage(ss[i], i)
  }

  lemma ConcatSnoc(ss: seq<seq<Call>>, x: seq<Call>)
    ensures Concat(ss + [x]) == Concat(ss) + x
  {
    assert (ss + [x])[..|ss|] == ss;
  }

  lemma {:induction false} CountAppend(a: seq<Call>, b: seq<Call>, k: Kind)
    ensures Count(a + b, k) == Count(a, k) + Count(b, k)
    decreases |b|
  {
    if b == [] {
      assert a + b == a;
    } else {
      var b' := b[..|b| - 1];
      assert (a + b)[..|a + b| - 1] == a + b';
      CountAppend(a, b', k);
    }
  }

  lemma {:induction false} CountAbsent(t: seq<Call>, k: Kind)
    requires forall j :: 0 <= j < |t| ==> KindOf(t[j]) != k
    ensures Count(t, k) == 0
    decreases |t|
  {
    if t != [] {
      CountAbsent(t[..|t| - 1], k);
    }
  }

  lemma {:induction false} CountOne(c: Call, k: Kind)
    ensures Count([c], k) == if KindOf(c) == k then 1 else 0
  {
    assert [c][..0] == [];
  }

  lemma CountTwo(c: Call, d: Call, k: Kind)
    ensures Count([c, d], k) == (if KindOf(c) == k then 1 else 0) + (if KindOf(d) == k then 1 else 0)
  {
    CountAppend([c], [d], k);
    assert [c] + [d] == [c, d];
    CountOne(c, k);
    CountOne(d, k);
  }

  lemma CountThree(c: Call, d: Call, e: Call, k: Kind)
    ensures Count([c, d, e], k) ==
      (if KindOf(c) == k then 1 else 0) + (if KindOf(d) == k then 1 else 0) + (if KindOf(e) == k then 1 else 0)
  {
    CountAppend([c, d], [e], k);
    assert [c, d] + [e] == [c, d, e];
    CountTwo(c, d, k);
    CountOne(e, k);
  }

  /** In a staged trace a kind is counted in its own segment only. */
  lemma {:induction false} ConcatCount(ss: seq<seq<Call>>, k: Kind)
    requires Staged(ss)
    ensures Count(Concat(ss), k) == if Stage(k) < |ss| then Count(ss[Stage(k)], k) else 0
    decreases |ss|
  {
    if ss != [] {
      var init := ss[..|ss| - 1];
      var last := ss[|ss| - 1];
      assert Staged(init);
      ConcatCount(init, k);
      CountAppend(Concat(init), last, k);
      if Stage(k) != |ss| - 1 {
        forall j | 0 <= j < |last| ensures KindOf(last[j]) != k {
          assert InStage(ss[|ss| - 1], |ss| - 1);
        }
        CountAbsent(last, k);
      }
    }
  }

  /** The calls of a staged trace all belong to one of its stages. */
  lemma {:induction false} ConcatStages(ss: seq<seq<Call>>)
    requires Staged(ss)
    ensures forall i :: 0 <= i < |Concat(ss)| ==> Stage(KindOf(Concat(ss)[i])) < |ss|
    ensures Ordered(Concat(ss))
    decreases |ss|
  {
    if ss != [] {
      var init := ss[..|ss| - 1];
      var last := ss[|ss| - 1];
      assert Staged(init);
      ConcatStages(init);
      var a := Concat(init);
      var t := a + last;
      assert InStage(last, |ss| - 1);
      forall i, j | 0 <= i < j < |t| ensures Stage(KindOf(t[i])) <= Stage(KindOf(t[j])) {
        if j < |a| {
          assert t[i] == a[i] && t[j] == a[j];
        } else if i < |a| {
          assert t[i] == a[i] && t[j] == last[j - |a|];
        } else {
          assert t[i] == last[i - |a|] && t[j] == last[j - |a|];
        }
      }
    }
  }

  lemma {:induction false} ConcatFollows(ss: seq<seq<Call>>, reason: string)
    requires forall i :: 0 <= i < |ss| ==> CommentsThenRestart(ss[i], reason)
    ensures CommentsThenRestart(Concat(ss), reason)
    decreases |ss|
  {
    if ss != [] {
      var init := ss[..|ss| - 1];
      var last := ss[|ss| - 1];
      ConcatFollows(init, reason);
      var a := Concat(init);
      var t := a + last;
      forall i | 0 <= i < |t| && t[i].ImportComments? ensures i + 1 < |t| && t[i + 1] == RestartWaline(reason) {
        if i < |a| {
          assert t[i] == a[i] && t[i + 1] == a[i + 1];
        } else {
          assert t[i] == last[i - |a|];
          assert t[i + 1] == last[i + 1 - |a|];
        }
      }
    }
  }

  /** A segment without comment imports trivially satisfies the ordering rule. */
  lemma NoCommentsFollows(t: seq<Call>, reason: string)
    requires forall j :: 0 <= j < |t| ==> !t[j].ImportComments?
    ensures CommentsThenRestart(t, reason)
  {
  }

  // ---------------------------------------------------------------------
  // The restore itself.

  const EmptyArr: Json := JArr([])

  /** The reason given to the restart after comments are imported. */
  const CommentsReason: string := "导入评论数据"

  /** `{ ...st, _id: undefined, __v: undefined }`. */
  function ClearedStatic(st: Json): Json {
    JObj(Assign(Assign(Spread([], OwnEntries(st)), "_id", JUndefined), "__v", JUndefined))
  }

  /** `if (setting && setting.static) setting.static = { ...setting.static, _id: undefined, __v: undefined }`. */
  function CleanSetting(setting: Json): Json {
    var st := Member(setting, "static");
    if Truthy(setting) && Truthy(st) then SetMember(setting, "static", ClearedStatic(st)) else setting
  }

  /** The snapshot after its clean-up: lists defaulted to empty and stripped
      of their ids, the static setting's `_id` and `__v` cleared, and the
      `_id` (and for the user `__v`) deleted from the user and the meta. */
  function Prepare(s: Snapshot, removeId: Json -> Json): Snapshot {
    s.(articles := removeId(Or(s.articles, EmptyArr)),
       drafts := removeId(Or(s.drafts, EmptyArr)),
       viewer := removeId(Or(s.viewer, EmptyArr)),
       visit := removeId(Or(s.visit, EmptyArr)),
       staticItems := if Truthy(s.staticItems) then removeId(s.staticItems) else s.staticItems,
       setting := CleanSetting(s.setting),
       user := DeleteMember(DeleteMember(s.user, "_id"), "__v"),
       meta := DeleteMember(s.meta, "_id"))
  }

  /** Missing lists are restored as empty lists, after the id removal. */
  lemma MissingListsDefault(s: Snapshot, removeId: Json -> Json)
    ensures !Truthy(s.articles) ==> Prepare(s, removeId).articles == removeId(EmptyArr)
    ensures !Truthy(s.drafts) ==> Prepare(s, removeId).drafts == removeId(EmptyArr)
    ensures !Truthy(s.viewer) ==> Prepare(s, removeId).viewer == removeId(EmptyArr)
    ensures !Truthy(s.visit) ==> Prepare(s, removeId).visit == removeId(EmptyArr)
    ensures Truthy(s.articles) ==> Prepare(s, removeId).articles == removeId(s.articles)
  {
  }

  /** The static setting loses its `_id` and `__v`, and keeps its other fields. */
  lemma StaticSettingCleared(setting: Json, k: string)
    requires setting.JObj? && Truthy(Member(setting, "static"))
    requires UniqueKeys(OwnEntries(Member(setting, "static")))
    ensures var st := Member(CleanSetting(setting), "static");
            st.JObj? && Prop(st.fields, "_id") == JUndefined && Prop(st.fields, "__v") == JUndefined &&
            (k != "_id" && k != "__v" ==> Get(st.fields, k) == Get(OwnEntries(Member(setting, "static")), k))
  {
    var st := Member(setting, "static");
    SetMemberGet(setting, "static", ClearedStatic(st), k);
    var a := Spread([], OwnEntries(st));
    var b := Assign(a, "_id", JUndefined);
    assert Get(Assign(b, "__v", JUndefined), "_id") == Get(b, "_id");
    SpreadGet([], OwnEntries(st), k);
  }

  /** The clean-up changes nothing else in the setting, and keeps it truthy or falsy. */
  lemma CleanSettingKeeps(setting: Json, k: string)
    requires k != "static"
    ensures Truthy(CleanSetting(setting)) == Truthy(setting)
    ensures Member(CleanSetting(setting), k) == Member(setting, k)
  {
    SetMemberGet(setting, "static", ClearedStatic(Member(setting, "static")), k);
  }

  /** The clean-up keeps what the restore branches on. */
  lemma PrepareKeepsSetting(s: Snapshot, removeId: Json -> Json)
    ensures Truthy(Prepare(s, removeId).setting) == Truthy(s.setting)
    ensures Member(Prepare(s, removeId).setting, "waline") == Member(s.setting, "waline")
    ensures Truthy(Prepare(s, removeId).user) == Truthy(s.user)
    ensures Truthy(Prepare(s, removeId).meta) == Truthy(s.meta)
    ensures Member(Prepare(s, removeId).meta, "menus") == Member(s.meta, "menus")
    ensures Member(Prepare(s, removeId).user, "name") == Member(s.user, "name")
  {
    CleanSettingKeeps(s.setting, "waline");
    DeleteMemberGet(s.user, "_id", "name");
    DeleteMemberGet(DeleteMember(s.user, "_id"), "__v", "name");
    DeleteMemberGet(s.meta, "_id", "menus");
  }

  /** The record the admin is created from: id 0 and the backed-up credentials. */
  function AdminRecord(user: Json): (r: Assoc)
    ensures Get(r, "id") == Some(JNum(0))
    ensures Get(r, "name") == Some(Member(user, "name")) && Get(r, "password") == Some(Member(user, "password"))
    ensures Get(r, "nickname") == Some(Member(user, "nickname")) && Get(r, "salt") == Some(Member(user, "salt"))
  {
    var rest := [("nickname", Member(user, "nickname")), ("salt", Member(user, "salt"))];
    var r := [("id", JNum(0))] + ([("name", Member(user, "name"))] + ([("password", Member(user, "password"))] + rest));
    GetCons(("id", JNum(0)), [("name", Member(user, "name"))] + ([("password", Member(user, "password"))] + rest), "name");
    GetCons(("id", JNum(0)), [("name", Member(user, "name"))] + ([("password", Member(user, "password"))] + rest), "password");
    GetCons(("name", Member(user, "name")), [("password", Member(user, "password"))] + rest, "password");
    GetCons(("id", JNum(0)), [("name", Member(user, "name"))] + ([("password", Member(user, "password"))] + rest), "nickname");
    GetCons(("name", Member(user, "name")), [("password", Member(user, "password"))] + rest, "nickname");
    GetCons(("password", Member(user, "password")), rest, "nickname");
    GetCons(("id", JNum(0)), [("name", Member(user, "name"))] + ([("password", Member(user, "password"))] + rest), "salt");
    GetCons(("name", Member(user, "name")), [("password", Member(user, "password"))] + rest, "salt");
    GetCons(("password", Member(user, "password")), rest, "salt");
    r
  }

  /** `Array.isArray(v) && v.length`. */
  predicate IsNonEmptyArray(v: Json) {
    v.JArr? && |v.items| > 0
  }

  function UserStep(user: Json, mode: Mode): seq<Call> {
    if !Truthy(user) then []
    else if mode == InitMode then [CreateAdminFromBackup(AdminRecord(user))]
    else [UpdateUser(user)]
  }

  function MetaStep(meta: Json, hasOldMeta: bool, withMenus: bool): seq<Call> {
    if !Truthy(meta) then []
    else
      [GetMeta, if hasOldMeta then UpdateMeta(meta) else CreateMeta(meta)] +
      (if withMenus && IsNonEmptyArray(Member(meta, "menus")) then [UpdateMenuSetting(Member(meta, "menus"))] else [])
  }

  function CategoryStep(categories: Json): seq<Call> {
    if NonEmpty(categories) then [ImportCategories(categories)] else []
  }

  function CommentStep(setting: Json, waline: Json, reason: string): seq<Call> {
    (if Truthy(setting) && Truthy(Member(setting, "waline")) then [RestartWaline(reason)] else []) +
    (if Truthy(waline) && NonEmpty(Member(waline, "comments"))
     then [ImportComments(Member(waline, "comments")), RestartWaline(CommentsReason)] else [])
  }

  /** The segments of a restore of the cleaned-up snapshot `p`, stage by stage. */
  function RestoreSegments(p: Snapshot, mode: Mode, reason: string, hasOldMeta: bool): seq<seq<Call>> {
    [UserStep(p.user, mode),
     MetaStep(p.meta, hasOldMeta, true),
     [ImportArticles(Or(p.articles, EmptyArr))],
     [ImportDrafts(Or(p.drafts, EmptyArr))],
     CategoryStep(p.categories),
     [ImportSetting(Or(p.setting, JObj([])))],
     CommentStep(p.setting, p.waline, reason),
     [ImportStatic(Or(p.staticItems, EmptyArr))],
     if NonEmpty(p.visit) then [ImportVisit(p.visit)] else [],
     if NonEmpty(p.viewer) then [ImportViewer(p.viewer)] else []]
  }

  /** The calls `restoreBackup` makes; `hasOldMeta` is whether meta is already stored. */
  function RestoreCalls(s: Snapshot, mode: Mode, reason: string, removeId: Json -> Json, hasOldMeta: bool): seq<Call> {
    Concat(RestoreSegments(Prepare(s, removeId), mode, reason, hasOldMeta))
  }

  lemma RestoreStaged(p: Snapshot, mode: Mode, reason: string, hasOldMeta: bool)
    ensures Staged(RestoreSegments(p, mode, reason, hasOldMeta))
  {
    var ss := RestoreSegments(p, mode, reason, hasOldMeta);
    StepsStagedFront(p, mode, hasOldMeta);
    StepsStagedBack(p, reason);
    StagedTen(ss);
  }

  lemma StagedTen(ss: seq<seq<Call>>)
    requires |ss| == 10
    requires InStage(ss[0], 0) && InStage(ss[1], 1) && InStage(ss[2], 2) && InStage(ss[3], 3) && InStage(ss[4], 4)
    requires InStage(ss[5], 5) && InStage(ss[6], 6) && InStage(ss[7], 7) && InStage(ss[8], 8) && InStage(ss[9], 9)
    ensures Staged(ss)
  {
    forall i | 0 <= i < |ss| ensures InStage(ss[i], i) {
      if i < 5 {
        assert i == 0 || i == 1 || i == 2 || i == 3 || i == 4;
      } else {
        assert i == 5 || i == 6 || i == 7 || i == 8 || i == 9;
      }
    }
  }

  lemma StepsStagedFront(p: Snapshot, mode: Mode, hasOldMeta: bool)
    ensures InStage(UserStep(p.user, mode), 0)
    ensures InStage(MetaStep(p.meta, hasOldMeta, true), 1)
    ensures InStage([ImportArticles(Or(p.articles, EmptyArr))], 2)
    ensures InStage([ImportDrafts(Or(p.drafts, EmptyArr))], 3)
    ensures InStage(CategoryStep(p.categories), 4)
  {
    UserStepStaged(p.user, mode);
    MetaStepStaged(p.meta, hasOldMeta, true);
    SingleStaged(ImportArticles(Or(p.articles, EmptyArr)));
    SingleStaged(ImportDrafts(Or(p.drafts, EmptyArr)));
    SingleStaged(ImportCategories(p.categories));
  }

  lemma StepsStagedBack(p: Snapshot, reason: string)
    ensures InStage([ImportSetting(Or(p.setting, JObj([])))], 5)
    ensures InStage(CommentStep(p.setting, p.waline, reason), 6)
    ensures InStage([ImportStatic(Or(p.staticItems, EmptyArr))], 7)
    ensures InStage(if NonEmpty(p.visit) then [ImportVisit(p.visit)] else [], 8)
    ensures InStage(if NonEmpty(p.viewer) then [ImportViewer(p.viewer)] else [], 9)
  {
    CommentStepStaged(p.setting, p.waline, reason);
    MaybeStaged(NonEmpty(p.visit), ImportVisit(p.visit), 8);
    MaybeStaged(NonEmpty(p.viewer), ImportViewer(p.viewer), 9);
  }

  lemma MaybeStaged(b: bool, c: Call, n: nat)
    requires Stage(KindOf(c)) == n
    ensures InStage(if b then [c] else [], n)
  {
  }

  lemma SingleStaged(c: Call)
    ensures InStage([c], Stage(KindOf(c))) && InStage([], Stage(KindOf(c)))
  {
  }

  lemma InStageAppend(a: seq<Call>, b: seq<Call>, n: nat)
    requires InStage(a, n) && InStage(b, n)
    ensures InStage(a + b, n)
  {
    forall j | 0 <= j < |a + b| ensures Stage(KindOf((a + b)[j])) == n {
      if j < |a| {
        assert (a + b)[j] == a[j];
      } else {
        assert (a + b)[j] == b[j - |a|];
      }
    }
  }

  lemma UserStepStaged(user: Json, mode: Mode)
    ensures InStage(UserStep(user, mode), 0)
  {
  }

  lemma MetaStepStaged(meta: Json, hasOldMeta: bool, withMenus: bool)
    ensures InStage(MetaStep(meta, hasOldMeta, withMenus), 1)
  {
  }

  lemma CommentStepStaged(setting: Json, waline: Json, reason: string)
    ensures InStage(CommentStep(setting, waline, reason), 6)
  {
    CommentCallsStaged(Truthy(setting) && Truthy(Member(setting, "waline")),
                       Truthy(waline) && NonEmpty(Member(waline, "comments")), reason, Member(waline, "comments"));
  }

  lemma CommentCallsStaged(restart: bool, comments: bool, reason: string, c: Json)
    ensures InStage((if restart then [RestartWaline(reason)] else []) +
                    (if comments then [ImportComments(c), RestartWaline(CommentsReason)] else []), 6)
  {
  }

  /** The only comment import of a restore is the one the comment step makes,
      and the restart comes right after it. */
  lemma CommentStepFollows(setting: Json, waline: Json, reason: string)
    ensures CommentsThenRestart(CommentStep(setting, waline, reason), CommentsReason)
  {
    var a := if Truthy(setting) && Truthy(Member(setting, "waline")) then [RestartWaline(reason)] else [];
    var b := if Truthy(waline) && NonEmpty(Member(waline, "comments"))
             then [ImportComments(Member(waline, "comments")), RestartWaline(CommentsReason)] else [];
    var t := a + b;
    forall i | 0 <= i < |t| && t[i].ImportComments? ensures i + 1 < |t| && t[i + 1] == RestartWaline(CommentsReason) {
      assert i == |a|;
    }
  }

  /** In a staged trace only stage 6 can import comments. */
  lemma {:induction false} StagedFollows(ss: seq<seq<Call>>, reason: string)
    requires Staged(ss) && |ss| > 6 && CommentsThenRestart(ss[6], reason)
    ensures CommentsThenRestart(Concat(ss), reason)
  {
    forall i | 0 <= i < |ss| ensures CommentsThenRestart(ss[i], reason) {
      if i != 6 {
        assert InStage(ss[i], i);
        NoCommentsFollows(ss[i], reason);
      }
    }
    ConcatFollows(ss, reason);
  }

  /** The calls come stage by stage: user, meta, articles, drafts, categories,
      settings, the comment service, static items, visits and viewers. */
  lemma RestoreOrdered(s: Snapshot, mode: Mode, reason: string, removeId: Json -> Json, hasOldMeta: bool)
    ensures Ordered(RestoreCalls(s, mode, reason, removeId, hasOldMeta))
  {
    RestoreStaged(Prepare(s, removeId), mode, reason, hasOldMeta);
    ConcatStages(RestoreSegments(Prepare(s, removeId), mode, reason, hasOldMeta));
  }

  /** Comments are imported, and the comment service restarted, in that order. */
  lemma RestoreCommentsThenRestart(s: Snapshot, mode: Mode, reason: string, removeId: Json -> Json, hasOldMeta: bool)
    ensures CommentsThenRestart(RestoreCalls(s, mode, reason, removeId, hasOldMeta), CommentsReason)
  {
    var p := Prepare(s, removeId);
    var ss := RestoreSegments(p, mode, reason, hasOldMeta);
    RestoreStaged(p, mode, reason, hasOldMeta);
    CommentStepFollows(p.setting, p.waline, reason);
    StagedFollows(ss, CommentsReason);
  }

  /** How often a restore of snapshot `s` calls each provider: the user is
      created in init mode and updated in import mode; the meta is read, then
      updated when it exists and created otherwise; menus, categories,
      visits and viewers only when there are some; the comment service is
      restarted for its settings and again for imported comments; articles,
      drafts, settings and static items exactly once. */
  function ExpectedCount(s: Snapshot, mode: Mode, removeId: Json -> Json, hasOldMeta: bool, k: Kind): nat {
    var comments := Truthy(s.waline) && NonEmpty(Member(s.waline, "comments"));
    match k
    case KAdmin => if mode == InitMode && Truthy(s.user) then 1 else 0
    case KUpdateUser => if mode == ImportMode && Truthy(s.user) then 1 else 0
    case KGetMeta => if Truthy(s.meta) then 1 else 0
    case KUpdateMeta => if Truthy(s.meta) && hasOldMeta then 1 else 0
    case KCreateMeta => if Truthy(s.meta) && !hasOldMeta then 1 else 0
    case KMenu => if Truthy(s.meta) && IsNonEmptyArray(Member(s.meta, "menus")) then 1 else 0
    case KArticles => 1
    case KDrafts => 1
    case KCategories => if NonEmpty(s.categories) then 1 else 0
    case KSetting => 1
    case KRestart =>
      (if Truthy(s.setting) && Truthy(Member(s.setting, "waline")) then 1 else 0) + (if comments then 1 else 0)
    case KComments => if comments then 1 else 0
    case KStatic => 1
    case KVisit => if NonEmpty(removeId(Or(s.visit, EmptyArr))) then 1 else 0
    case KViewer => if NonEmpty(removeId(Or(s.viewer, EmptyArr))) then 1 else 0
    case KActivate => 0
  }

  lemma UserStepCount(user: Json, mode: Mode, k: Kind)
    ensures Count(UserStep(user, mode), k) ==
      if Truthy(user) && k == (if mode == InitMode then KAdmin else KUpdateUser) then 1 else 0
  {
    if Truthy(user) {
      CountOne(UserStep(user, mode)[0], k);
    }
  }

  lemma MetaStepCount(meta: Json, hasOldMeta: bool, withMenus: bool, k: Kind)
    ensures Count(MetaStep(meta, hasOldMeta, withMenus), k) ==
      if !Truthy(meta) then 0
      else (if k == KGetMeta then 1 else 0) + (if k == (if hasOldMeta then KUpdateMeta else KCreateMeta) then 1 else 0)
           + (if k == KMenu && withMenus && IsNonEmptyArray(Member(meta, "menus")) then 1 else 0)
  {
    if Truthy(meta) {
      MetaCallsCount(if hasOldMeta then UpdateMeta(meta) else CreateMeta(meta),
                     withMenus && IsNonEmptyArray(Member(meta, "menus")), Member(meta, "menus"), k);
    }
  }

  lemma MetaCallsCount(w: Call, menus: bool, m: Json, k: Kind)
    ensures Count([GetMeta, w] + (if menus then [UpdateMenuSetting(m)] else []), k) ==
      (if k == KGetMeta then 1 else 0) + (if KindOf(w) == k then 1 else 0) + (if k == KMenu && menus then 1 else 0)
  {
    CountTwo(GetMeta, w, k);
    if menus {
      CountAppend([GetMeta, w], [UpdateMenuSetting(m)], k);
      CountOne(UpdateMenuSetting(m), k);
    } else {
      assert [GetMeta, w] + [] == [GetMeta, w];
    }
  }

  lemma CommentStepCount(setting: Json, waline: Json, reason: string, k: Kind)
    ensures var st := Truthy(setting) && Truthy(Member(setting, "waline"));
            var comments := Truthy(waline) && NonEmpty(Member(waline, "comments"));
            Count(CommentStep(setting, waline, reason), k) ==
              if k == KRestart then (if st then 1 else 0) + (if comments then 1 else 0)
              else if k == KComments then (if comments then 1 else 0)
              else 0
  {
    var st := Truthy(setting) && Truthy(Member(setting, "waline"));
    var comments := Truthy(waline) && NonEmpty(Member(waline, "comments"));
    var a := if st then [RestartWaline(reason)] else [];
    var b := if comments then [ImportComments(Member(waline, "comments")), RestartWaline(CommentsReason)] else [];
    CountAppend(a, b, k);
    if st { CountOne(RestartWaline(reason), k); }
    if comments { CountTwo(ImportComments(Member(waline, "comments")), RestartWaline(CommentsReason), k); }
  }

  lemma MaybeOneCount(b: bool, c: Call, k: Kind)
    ensures Count(if b then [c] else [], k) == if b && KindOf(c) == k then 1 else 0
  {
    if b { CountOne(c, k); }
  }

  /** A restore calls each provider as often as `ExpectedCount` says. */
  lemma RestoreCount(s: Snapshot, mode: Mode, reason: string, removeId: Json -> Json, hasOldMeta: bool, k: Kind)
    ensures Count(RestoreCalls(s, mode, reason, removeId, hasOldMeta), k) == ExpectedCount(s, mode, removeId, hasOldMeta, k)
  {
    var p := Prepare(s, removeId);
    var ss := RestoreSegments(p, mode, reason, hasOldMeta);
    var n := Stage(k);
    RestoreStaged(p, mode, reason, hasOldMeta);
    ConcatCount(ss, k);
    if n == 0 {
      UserCount(s, mode, removeId, k);
    } else if n == 1 {
      MetaCount(s, removeId, hasOldMeta, k);
    } else if n == 6 {
      CommentCount(s, removeId, reason, k);
    } else if n in {4, 8, 9} {
      OptionalCount(s, removeId, k);
    } else if n in {2, 3, 5, 7} {
      SingleCount(p, k, ss[n]);
    }
  }

  /** Articles, drafts, settings and static items are written exactly once. */
  lemma SingleCount(p: Snapshot, k: Kind, seg: seq<Call>)
    requires Stage(k) in {2, 3, 5, 7}
    requires seg == [if Stage(k) == 2 then ImportArticles(Or(p.articles, EmptyArr))
                     else if Stage(k) == 3 then ImportDrafts(Or(p.drafts, EmptyArr))
                     else if Stage(k) == 5 then ImportSetting(Or(p.setting, JObj([])))
                     else ImportStatic(Or(p.staticItems, EmptyArr))]
    ensures Count(seg, k) == 1
  {
    CountOne(seg[0], k);
  }

  lemma UserCount(s: Snapshot, mode: Mode, removeId: Json -> Json, k: Kind)
    requires Stage(k) == 0
    ensures Count(UserStep(Prepare(s, removeId).user, mode), k) == ExpectedCount(s, mode, removeId, false, k)
  {
    PrepareKeepsSetting(s, removeId);
    UserStepCount(Prepare(s, removeId).user, mode, k);
  }

  lemma CommentCount(s: Snapshot, removeId: Json -> Json, reason: string, k: Kind)
    requires Stage(k) == 6
    ensures var p := Prepare(s, removeId);
            Count(CommentStep(p.setting, p.waline, reason), k) == ExpectedCount(s, InitMode, removeId, false, k)
  {
    PrepareKeepsSetting(s, removeId);
    CommentStepCount(Prepare(s, removeId).setting, Prepare(s, removeId).waline, reason, k);
  }

  lemma MetaCount(s: Snapshot, removeId: Json -> Json, hasOldMeta: bool, k: Kind)
    requires Stage(k) == 1
    ensures Count(MetaStep(Prepare(s, removeId).meta, hasOldMeta, true), k) == ExpectedCount(s, InitMode, removeId, hasOldMeta, k)
  {
    PrepareKeepsSetting(s, removeId);
    MetaStepCount(Prepare(s, removeId).meta, hasOldMeta, true, k);
  }

  lemma OptionalCount(s: Snapshot, removeId: Json -> Json, k: Kind)
    requires Stage(k) in {4, 8, 9}
    ensures var p := Prepare(s, removeId);
            Count(if k == KCategories then CategoryStep(p.categories)
                  else if k == KVisit then (if NonEmpty(p.visit) then [ImportVisit(p.visit)] else [])
                  else (if NonEmpty(p.viewer) then [ImportViewer(p.viewer)] else []), k)
            == ExpectedCount(s, InitMode, removeId, false, k)
  {
    var p := Prepare(s, removeId);
    if k == KCategories {
      MaybeOneCount(NonEmpty(p.categories), ImportCategories(p.categories), k);
    } else if k == KVisit {
      MaybeOneCount(NonEmpty(p.visit), ImportVisit(p.visit), k);
    } else {
      MaybeOneCount(NonEmpty(p.viewer), ImportViewer(p.viewer), k);
    }
  }

  lemma {:induction false} InConcat(ss: seq<seq<Call>>, c: Call)
    requires c in Concat(ss)
    ensures exists i :: 0 <= i < |ss| && c in ss[i]
    decreases |ss|
  {
    var init := ss[..|ss| - 1];
    if c in Concat(init) {
      InConcat(init, c);
      var i :| 0 <= i < |init| && c in init[i];
      assert ss[i] == init[i];
    } else {
      assert c in ss[|ss| - 1];
    }
  }

  /** The admin is only ever created with id 0 and the backed-up name and password. */
  lemma RestoreAdminIdZero(s: Snapshot, mode: Mode, reason: string, removeId: Json -> Json, hasOldMeta: bool, c: Call)
    requires c in RestoreCalls(s, mode, reason, removeId, hasOldMeta) && c.CreateAdminFromBackup?
    ensures Get(c.admin, "id") == Some(JNum(0))
    ensures Get(c.admin, "name") == Some(Member(s.user, "name"))
  {
    var p := Prepare(s, removeId);
    var ss := RestoreSegments(p, mode, reason, hasOldMeta);
    RestoreStaged(p, mode, reason, hasOldMeta);
    InConcat(ss, c);
    var i :| 0 <= i < |ss| && c in ss[i];
    var j :| 0 <= j < |ss[i]| && ss[i][j] == c;
    assert InStage(ss[i], i);
    assert i == 0;
    assert c == CreateAdminFromBackup(AdminRecord(p.user));
    PrepareKeepsSetting(s, removeId);
  }

  lemma ConcatPrefix(ss: seq<seq<Call>>, k: int)
    requires 0 < k <= |ss|
    ensures Concat(ss[..k]) == Concat(ss[..k - 1]) + ss[k - 1]
  {
    assert ss[..k][..k - 1] == ss[..k - 1];
  }

  /** Ten segments, concatenated one after the other. */
  lemma ConcatTen(ss: seq<seq<Call>>)
    requires |ss| == 10
    ensures Concat(ss) == ss[0] + ss[1] + ss[2] + ss[3] + ss[4] + ss[5] + ss[6] + ss[7] + ss[8] + ss[9]
  {
    ConcatFive(ss);
    ConcatPrefix(ss, 6);
    var c6 := Concat(ss[..6]);
    ConcatPrefix(ss, 7);
    var c7 := Concat(ss[..7]);
    assert c7 == c6 + ss[6];
    ConcatPrefix(ss, 8);
    var c8 := Concat(ss[..8]);
    assert c8 == c7 + ss[7];
    ConcatPrefix(ss, 9);
    var c9 := Concat(ss[..9]);
    assert c9 == c8 + ss[8];
    ConcatPrefix(ss, 10);
    assert ss[..10] == ss;
  }

  lemma ConcatFive(ss: seq<seq<Call>>)
    requires |ss| >= 5
    ensures Concat(ss[..5]) == ss[0] + ss[1] + ss[2] + ss[3] + ss[4]
  {
    ConcatPrefix(ss, 1);
    assert ss[..0] == [];
    var c1 := Concat(ss[..1]);
    assert c1 == ss[0];
    ConcatPrefix(ss, 2);
    var c2 := Concat(ss[..2]);
    assert c2 == c1 + ss[1];
    ConcatPrefix(ss, 3);
    var c3 := Concat(ss[..3]);
    assert c3 == c2 + ss[2];
    ConcatPrefix(ss, 4);
    var c4 := Concat(ss[..4]);
    assert c4 == c3 + ss[3];
    ConcatPrefix(ss, 5);
  }

  /** The comment service is restarted once for restored settings and once
      more for imported comments: 0, 1 or 2 times. */
  lemma RestoreRestarts(s: Snapshot, mode: Mode, reason: string, removeId: Json -> Json, hasOldMeta: bool)
    ensures Count(RestoreCalls(s, mode, reason, removeId, hasOldMeta), KRestart) ==
      (if Truthy(s.setting) && Truthy(Member(s.setting, "waline")) then 1 else 0) +
      (if Truthy(s.waline) && NonEmpty(Member(s.waline, "comments")) then 1 else 0)
  {
    RestoreCount(s, mode, reason, removeId, hasOldMeta, KRestart);
  }

  /** The clean-up at the start of a restore: lists defaulted and stripped of
      their ids, the static setting's ids cleared, user and meta ids deleted. */
  method CleanUp(s: Snapshot, removeId: Json -> Json) returns (p: Snapshot)
    ensures p == Prepare(s, removeId)
  {
    var articles := removeId(Or(s.articles, EmptyArr));
    var drafts := removeId(Or(s.drafts, EmptyArr));
    var viewer := removeId(Or(s.viewer, EmptyArr));
    var visit := removeId(Or(s.visit, EmptyArr));
    var staticItems := s.staticItems;
    if Truthy(staticItems) {
      staticItems := removeId(staticItems);
    }
    var setting := s.setting;
    if Truthy(setting) && Truthy(Member(setting, "static")) {
      setting := SetMember(setting, "static", ClearedStatic(Member(setting, "static")));
    }
    assert setting == CleanSetting(s.setting);
    var user := DeleteMember(DeleteMember(s.user, "_id"), "__v");
    var meta := DeleteMember(s.meta, "_id");
    p := s.(articles := articles, drafts := drafts, viewer := viewer, visit := visit,
            staticItems := staticItems, setting := setting, user := user, meta := meta);
  }

  /** The user step: create the admin in init mode, update the user otherwise. */
  method RestoreUser(user: Json, mode: Mode) returns (step: seq<Call>)
    ensures step == UserStep(user, mode)
  {
    step := [];
    if Truthy(user) {
      if mode == InitMode {
        step := [CreateAdminFromBackup(AdminRecord(user))];
      } else {
        step := [UpdateUser(user)];
      }
    }
  }

  /** The meta step: read the stored meta, update or create it, then the menus. */
  method RestoreMeta(meta: Json, hasOldMeta: bool, withMenus: bool) returns (step: seq<Call>)
    ensures step == MetaStep(meta, hasOldMeta, withMenus)
  {
    step := [];
    if Truthy(meta) {
      step := [GetMeta];
      if hasOldMeta {
        step := step + [UpdateMeta(meta)];
      } else {
        step := step + [CreateMeta(meta)];
      }
      if withMenus && IsNonEmptyArray(Member(meta, "menus")) {
        step := step + [UpdateMenuSetting(Member(meta, "menus"))];
      }
    }
  }

  /** The comment-service step: restart for new settings, then import the comments and restart again. */
  method RestoreComments(setting: Json, waline: Json, reason: string) returns (step: seq<Call>)
    ensures step == CommentStep(setting, waline, reason)
  {
    step := [];
    if Truthy(setting) && Truthy(Member(setting, "waline")) {
      step := [RestartWaline(reason)];
    }
    if Truthy(waline) && NonEmpty(Member(waline, "comments")) {
      step := step + [ImportComments(Member(waline, "comments")), RestartWaline(CommentsReason)];
    }
  }

  /** A run of `restoreBackup` in which, when `failAt` is `Some(i)`, provider
      call `i` rejects. Nothing catches it, so the calls up to and including
      that one have run and the restore ends with the error. */
  datatype Attempt = Attempt(executed: seq<Call>, completed: bool)

  function RestoreAttempt(s: Snapshot, mode: Mode, reason: string, removeId: Json -> Json, hasOldMeta: bool,
                          failAt: Option<nat>): Attempt
  {
    var calls := RestoreCalls(s, mode, reason, removeId, hasOldMeta);
    if failAt.Some? && failAt.value < |calls| then Attempt(calls[..failAt.value + 1], false)
    else Attempt(calls, true)
  }

  lemma CountPrefix(t: seq<Call>, m: nat, k: Kind)
    requires m <= |t|
    ensures Count(t[..m], k) <= Count(t, k)
  {
    assert t == t[..m] + t[m..];
    CountAppend(t[..m], t[m..], k);
  }

  /** A restore whose call `i` rejects has run the first `i + 1` calls of a
      complete one: still stage by stage, no provider called more often than
      `ExpectedCount` says, and every comment import but a failing last call
      followed by its restart. It completes exactly when no call fails. */
  lemma RestoreAttemptPrefix(s: Snapshot, mode: Mode, reason: string, removeId: Json -> Json, hasOldMeta: bool,
                             failAt: Option<nat>, k: Kind)
    ensures var calls := RestoreCalls(s, mode, reason, removeId, hasOldMeta);
            var r := RestoreAttempt(s, mode, reason, removeId, hasOldMeta, failAt);
            r.executed <= calls &&
            (r.completed <==> failAt.None? || failAt.value >= |calls|) &&
            (r.completed ==> r.executed == calls) &&
            (!r.completed ==> |r.executed| == failAt.value + 1) &&
            Ordered(r.executed) &&
            Count(r.executed, k) <= ExpectedCount(s, mode, removeId, hasOldMeta, k) &&
            (forall i :: 0 <= i < |r.executed| - 1 && r.executed[i].ImportComments? ==>
               r.executed[i + 1] == RestartWaline(CommentsReason))
  {
    var calls := RestoreCalls(s, mode, reason, removeId, hasOldMeta);
    var r := RestoreAttempt(s, mode, reason, removeId, hasOldMeta, failAt);
    RestoreOrdered(s, mode, reason, removeId, hasOldMeta);
    RestoreCommentsThenRestart(s, mode, reason, removeId, hasOldMeta);
    RestoreCount(s, mode, reason, removeId, hasOldMeta, k);
    if !r.completed {
      CountPrefix(calls, failAt.value + 1, k);
      assert forall i :: 0 <= i < |r.executed| ==> r.executed[i] == calls[i];
    }
  }

  /** `restoreBackup`: clean up the snapshot, then call the providers. */
  method RestoreBackup(s: Snapshot, mode: Mode, reason: string, removeId: Json -> Json, hasOldMeta: bool)
    returns (calls: seq<Call>)
    ensures calls == RestoreCalls(s, mode, reason, removeId, hasOldMeta)
    ensures Ordered(calls)
    ensures CommentsThenRestart(calls, CommentsReason)
    ensures Count(calls, KRestart) ==
      (if Truthy(s.setting) && Truthy(Member(s.setting, "waline")) then 1 else 0) +
      (if Truthy(s.waline) && NonEmpty(Member(s.waline, "comments")) then 1 else 0)
  {
    var p := CleanUp(s, removeId);
    var step := RestoreUser(p.user, mode);
    calls := step;
    step := RestoreMeta(p.meta, hasOldMeta, true);
    calls := calls + step;
    calls := calls + [ImportArticles(Or(p.articles, EmptyArr))];
    calls := calls + [ImportDrafts(Or(p.drafts, EmptyArr))];
    step := [];
    if NonEmpty(p.categories) {
      step := [ImportCategories(p.categories)];
    }
    calls := calls + step;
    calls := calls + [ImportSetting(Or(p.setting, JObj([])))];
    step := RestoreComments(p.setting, p.waline, reason);
    calls := calls + step;
    calls := calls + [ImportStatic(Or(p.staticItems, EmptyArr))];
    step := if NonEmpty(p.visit) then [ImportVisit(p.visit)] else [];
    calls := calls + step;
    step := if NonEmpty(p.viewer) then [ImportViewer(p.viewer)] else [];
    calls := calls + step;

    ConcatTen(RestoreSegments(p, mode, reason, hasOldMeta));
    RestoreOrdered(s, mode, reason, removeId, hasOldMeta);
    RestoreCommentsThenRestart(s, mode, reason, removeId, hasOldMeta);
    RestoreRestarts(s, mode, reason, removeId, hasOldMeta);
  }
}
