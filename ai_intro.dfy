/** The editor's "AI intro" action (`aiIntro`): ask the server for an
    introduction of the current text and put it in front of the
    `<!-- more -->` tag. The fetch is a parameter: its reply, or a failure. */
module AiIntroPlugin {
  import opened Js
  import opened Strings

  const MoreTag: string := "<!-- more -->"
  const GenericFailure: string := "AI 简介生成失败"
  const NoContent: string := "AI 未返回内容"
  const EmptyEditor: string := "当前内容为空"
  const Inserted: string := "已生成并插入简介"

  /** The toast messages the action shows. */
  datatype Notice = Warn(text: string) | Error(text: string) | Success(text: string)

  /** What `fetch` and `res.json()` give: the status flag and the parsed body,
      or a failure of either. */
  datatype Fetched = Fetched(ok: bool, data: Json) | FetchFailed

  /** `data?.data?.intro?.trim()`: the trimmed text, nothing, or a value whose
      `trim` call throws. */
  datatype IntroField = Text(s: string) | Absent | NotText

  function IntroOf(data: Json): IntroField {
    match Member(Member(data, "data"), "intro")
    case JStr(s) => Text(Trim(s))
    case JUndefined => Absent
    case JNull => Absent
    case _ => NotText
  }

  /** What `genIntroFromLLM` resolves to: an introduction, or `null` after
      showing an error. */
  datatype Generated = Generated(intro: string) | NoIntro(shown: Notice)

  function GenIntroFromLLM(reply: Fetched): (r: Generated)
    ensures r.Generated? ==> r.intro != ""
    ensures r.NoIntro? ==> r.shown.Error?
  {
    match reply
    case FetchFailed => NoIntro(Error(GenericFailure))
    case Fetched(ok, data) =>
      if !ok || Member(data, "statusCode") != JNum(200) then NoIntro(Error(GenericFailure))
      else
        match IntroOf(data)
        case Text(intro) => if intro == "" then NoIntro(Error(NoContent)) else Generated(intro)
        case Absent => NoIntro(Error(NoContent))
        case NotText => NoIntro(Error(GenericFailure))
  }

  /** The introduction is kept exactly when the request succeeded with status
      200 and the trimmed `intro` is a non-empty string. */
  lemma GenIntroKeeps(reply: Fetched)
    ensures GenIntroFromLLM(reply).Generated? <==>
      reply.Fetched? && reply.ok && Member(reply.data, "statusCode") == JNum(200) &&
      IntroOf(reply.data).Text? && IntroOf(reply.data).s != ""
    ensures GenIntroFromLLM(reply).Generated? ==> GenIntroFromLLM(reply).intro == IntroOf(reply.data).s
  {
  }

  /** The text after the intro is put in: before the first more tag, which
      replaces everything ahead of it, or with a new tag ahead of the text. */
  method InsertIntro(md: string, intro: string) returns (next: string)
    ensures var idx := IndexOf(md, MoreTag);
            (idx >= 0 ==> next == intro + "\n\n" + md[idx..]) &&
            (idx < 0 ==> next == intro + "\n\n" + MoreTag + "\n\n" + md)
  {
    var idx := IndexOf(md, MoreTag);
    var rest := "";
    next := "";
    if idx >= 0 {
      rest := md[idx..];
      next := intro + "\n\n" + rest;
    } else {
      next := intro + "\n\n" + MoreTag + "\n\n" + md;
    }
  }

  /** The new text begins with the intro and keeps a more tag, from the old text or new. */
  lemma InsertedShape(md: string, intro: string, next: string)
    requires var idx := IndexOf(md, MoreTag);
             (idx >= 0 ==> next == intro + "\n\n" + md[idx..]) &&
             (idx < 0 ==> next == intro + "\n\n" + MoreTag + "\n\n" + md)
    ensures |intro| <= |next| && next[..|intro|] == intro
    ensures Contains(next, MoreTag)
  {
    var idx := IndexOf(md, MoreTag);
    if idx >= 0 {
      var rest := md[idx..];
      assert rest[..|MoreTag|] == MoreTag;
      assert next == (intro + "\n\n") + MoreTag + rest[|MoreTag|..];
      ContainsInfix(intro + "\n\n", MoreTag, rest[|MoreTag|..]);
    } else {
      assert next == (intro + "\n\n") + MoreTag + ("\n\n" + md);
      ContainsInfix(intro + "\n\n", MoreTag, "\n\n" + md);
    }
  }

  /** The editor the action works on, and the toasts and loading flag it drives. */
  class Editor {
    var value: string
    var loading: bool
    var notices: seq<Notice>

    constructor (text: string)
      ensures value == text && !loading && notices == []
    {
      value := text;
      loading := false;
      notices := [];
    }

    /** `click`: `reply` is what the server answers for the current text. */
    method Click(reply: Fetched)
      modifies this
      ensures !loading
      ensures old(value) == "" ==> value == old(value) && notices == old(notices) + [Warn(EmptyEditor)]
      ensures old(value) != "" && GenIntroFromLLM(reply).NoIntro? ==>
        value == old(value) && notices == old(notices) + [GenIntroFromLLM(reply).shown]
      ensures old(value) != "" && GenIntroFromLLM(reply).Generated? ==>
        var intro := GenIntroFromLLM(reply).intro;
        var idx := IndexOf(old(value), MoreTag);
        (idx >= 0 ==> value == intro + "\n\n" + old(value)[idx..]) &&
        (idx < 0 ==> value == intro + "\n\n" + MoreTag + "\n\n" + old(value)) &&
        |intro| <= |value| && value[..|intro|] == intro && Contains(value, MoreTag) &&
        notices == old(notices) + [Success(Inserted)]
    {
      loading := true;
      var md := value;
      if md == "" {
        notices := notices + [Warn(EmptyEditor)];
        loading := false;
        return;
      }
      var intro := GenIntroFromLLM(reply);
      if intro.NoIntro? {
        notices := notices + [intro.shown];
        loading := false;
        return;
      }
      var next := InsertIntro(md, intro.intro);
      InsertedShape(md, intro.intro, next);
      value := next;
      notices := notices + [Success(Inserted)];
      loading := false;
    }
  }
}
