/** The admin form for the comment-service settings (`WalineForm`): what it
    shows when it loads the stored settings, and what it checks, tidies and
    submits. The request for the settings, `JSON.parse` (with its conversion
    of the argument to text), `JSON.stringify` and the page's host name are
    parameters. */
module WalineForm {
  import opened Js
  import opened Strings

  /** A JavaScript number as `Number(v)` gives it: an integer or NaN. */
  datatype Num = Finite(n: int) | NaN

  predicate AllDigits(s: string) {
    forall i :: 0 <= i < |s| ==> IsDigit(s[i])
  }

  /** `Number(v)` for the values a stored setting can hold: numbers, booleans,
      null, and strings of decimal digits (blank strings are 0). */
  function ToNumber(v: Json): (r: Num)
    ensures v.JNum? ==> r == Finite(v.n)
    ensures v.JUndefined? ==> r == NaN
  {
    match v
    case JNum(n) => Finite(n)
    case JBool(b) => Finite(if b then 1 else 0)
    case JNull => Finite(0)
    case JStr(s) =>
      var t := Trim(s);
      if t == "" then Finite(0) else if AllDigits(t) then Finite(DigitsValue(t)) else NaN
    case _ => NaN
  }

  /** The number as the submitted JSON holds it: NaN is written as `null`. */
  function NumJson(x: Num): Json {
    match x
    case Finite(n) => JNum(n)
    case NaN => JNull
  }

  const DemoHost: string := "blog-demo.mereith.com"
  const DemoRefused: string := "演示站禁止修改 waline 配置！"
  const InvalidJson: string := "自定义环境变量不是合法 JSON 格式！"
  const MissingKey: string := "请填写 Akismet Key 或关闭 Akismet 检测"
  const Updated: string := "更新成功！"

  /** The switch shown for spam checking: on when `akismet.enabled` is set,
      and otherwise when there is a key other than the text `false`. */
  function AkismetOn(data: Json): (r: bool)
  {
    var enabled := Member(data, "akismet.enabled");
    var key := Member(data, "akismet.key");
    if Truthy(enabled) && enabled != JBool(false) then true
    else Truthy(key) && key != JStr("false")
  }

  lemma AkismetOnRule(data: Json)
    ensures AkismetOn(data) <==>
      Truthy(Member(data, "akismet.enabled")) ||
      (Truthy(Member(data, "akismet.key")) && Member(data, "akismet.key") != JStr("false"))
  {
  }

  /** `{ ...v }`: a fresh object with the own entries of `v`. */
  function Copy(v: Json): (r: Json)
    ensures r.JObj?
  {
    JObj(Spread([], OwnEntries(v)))
  }

  /** A copy of an object keeps every value. */
  lemma CopyKeeps(v: Json, k: string)
    requires v.JObj? && UniqueKeys(v.fields)
    ensures Get(Copy(v).fields, k) == Get(v.fields, k)
  {
    SpreadGet([], v.fields, k);
  }

  /** The initial form values `request` answers: two switches off when there
      are no settings, a copy of the settings otherwise. */
  function InitialValues(data: Json): (r: Json)
    ensures !Truthy(data) ==> r == JObj([("smtp.enabled", JBool(false)), ("forceLoginComment", JBool(false))])
    ensures Truthy(data) ==> r == Copy(data)
  {
    if !Truthy(data) then JObj([("smtp.enabled", JBool(false)), ("forceLoginComment", JBool(false))])
    else Copy(data)
  }

  /** A copy of stored settings keeps every value. */
  lemma InitialValuesCopy(data: Json, k: string)
    requires data.JObj? && UniqueKeys(data.fields)
    ensures Get(InitialValues(data).fields, k) == Get(data.fields, k)
  {
    CopyKeeps(data, k);
  }

  /** The custom variables object the submit starts from, for the text box
      value `oc`: an empty object when the box is empty, what `parse` gives
      otherwise, or nothing when the text is not JSON. */
  function CustomVariables(oc: Json, parse: Json -> Option<Json>): Option<Json>
  {
    if !Truthy(oc) then Some(JObj([])) else parse(oc)
  }

  /** How a submit ends: with a dialog and nothing sent, or with a record sent. */
  datatype Outcome = Refused(dialog: string) | Sent(record: Assoc)

  class Form {
    var enableEmail: Json
    var akismetEnabled: bool
    var akismetKey: string
    var forbiddenWords: string
    var ipqps: Num
    /** The records sent with `updateWalineConfig`. */
    var updates: seq<Assoc>
    /** The dialogs and toasts shown, by their text. */
    var shown: seq<string>

    constructor ()
      ensures enableEmail == JBool(false) && !akismetEnabled && akismetKey == "" && forbiddenWords == ""
      ensures ipqps == NaN && updates == [] && shown == []
    {
      enableEmail := JBool(false);
      akismetEnabled := false;
      akismetKey := "";
      forbiddenWords := "";
      ipqps := NaN;
      updates := [];
      shown := [];
    }

    /** `request`: `loadOk` says whether `getWalineConfig` resolves, and `data`
        is the stored settings the server then sent (undefined when there are
        none). When it rejects no setter runs and there are no initial values. */
    method Load(loadOk: bool, data: Json) returns (initial: Option<Json>)
      modifies this
      ensures !loadOk ==> initial.None? && unchanged(this)
      ensures loadOk ==> initial == Some(InitialValues(data))
      ensures loadOk ==> enableEmail == Or(Member(data, "smtp.enabled"), JBool(false))
      ensures loadOk ==> akismetEnabled == AkismetOn(data)
      ensures loadOk ==> akismetKey == ToJsString(Or(Member(data, "akismet.key"), JStr("")))
      ensures loadOk ==> forbiddenWords == ToJsString(Or(Member(data, "forbidden.words"), JStr("")))
      ensures loadOk && (Member(data, "ipqps").JUndefined? || Member(data, "ipqps").JNull?) ==> ipqps == Finite(60)
      ensures loadOk && !(Member(data, "ipqps").JUndefined? || Member(data, "ipqps").JNull?) ==>
              ipqps == ToNumber(Member(data, "ipqps"))
      ensures updates == old(updates) && shown == old(shown)
    {
      if !loadOk {
        return None;
      }
      enableEmail := Or(Member(data, "smtp.enabled"), JBool(false));
      var enabled := Member(data, "akismet.enabled");
      var akOn := if Truthy(enabled) && enabled != JBool(false) then true
                  else Truthy(Member(data, "akismet.key")) && Member(data, "akismet.key") != JStr("false");
      akismetEnabled := akOn;
      akismetKey := ToJsString(Or(Member(data, "akismet.key"), JStr("")));
      forbiddenWords := ToJsString(Or(Member(data, "forbidden.words"), JStr("")));
      ipqps := ToNumber(Coalesce(Member(data, "ipqps"), JNum(60)));
      if !Truthy(data) {
        return Some(JObj([("smtp.enabled", JBool(false)), ("forceLoginComment", JBool(false))]));
      }
      initial := Some(Copy(data));
    }

    /** The record submitted for form values `data`: the switch, the trimmed
        key and words, the interval, and the custom variables as the text `custom`. */
    function Submitted(data: Assoc, custom: string): Assoc
      reads this`akismetEnabled, this`akismetKey, this`forbiddenWords, this`ipqps
    {
      var d1 := Assign(data, "akismet.enabled", JBool(akismetEnabled));
      var d2 := Assign(d1, "akismet.key", JStr(Trim(akismetKey)));
      var d3 := Assign(d2, "forbidden.words", JStr(Trim(forbiddenWords)));
      var d4 := Assign(d3, "ipqps", NumJson(ipqps));
      Assign(d4, "otherConfig", JStr(custom))
    }

    /** Whether `onFinish` for form values `data` on host `host` stops with a
        dialog, and which, or sends a record, and which. */
    function Finish(data: Assoc, host: string, parse: Json -> Option<Json>, stringify: Json -> string): Outcome
      reads this`akismetEnabled, this`akismetKey, this`forbiddenWords, this`ipqps
    {
      if host == DemoHost then Refused(DemoRefused)
      else match CustomVariables(Prop(data, "otherConfig"), parse)
        case None => Refused(InvalidJson)
        case Some(base) =>
          if akismetEnabled && (akismetKey == "" || Trim(akismetKey) == "") then Refused(MissingKey)
          else Sent(Submitted(data, stringify(Copy(base))))
    }

    /** `onFinish` for the form values `data`, on a page served from host `host`;
        `updateOk` says whether `updateWalineConfig` resolves. When it rejects,
        the record has been sent and the switch set, but no success toast shows. */
    method OnFinish(data: Assoc, host: string, parse: Json -> Option<Json>, stringify: Json -> string,
                    updateOk: bool)
      modifies this`enableEmail, this`updates, this`shown
      ensures var o := old(Finish(data, host, parse, stringify));
        if o.Refused? then
          updates == old(updates) && enableEmail == old(enableEmail) && shown == old(shown) + [o.dialog]
        else
          updates == old(updates) + [o.record] && enableEmail == Or(Prop(data, "smtp.enabled"), JBool(false)) &&
          shown == old(shown) + if updateOk then [Updated] else []
    {
      if host == DemoHost {
        shown := shown + [DemoRefused];
        return;
      }
      var baseOC := CustomVariables(Prop(data, "otherConfig"), parse);
      if baseOC.None? {
        shown := shown + [InvalidJson];
        return;
      }
      if akismetEnabled {
        if akismetKey == "" || Trim(akismetKey) == "" {
          shown := shown + [MissingKey];
          return;
        }
      }
      var newOC := Copy(baseOC.value);
      var d := Submitted(data, stringify(newOC));
      // The values written back leave `smtp.enabled` as it was (`SubmittedKeeps`).
      enableEmail := Or(Prop(data, "smtp.enabled"), JBool(false));
      updates := updates + [d];
      shown := shown + if updateOk then [Updated] else [];
    }

    /** The submitted record carries the switch, the trimmed key and the trimmed words. */
    lemma SubmittedTidied(data: Assoc, custom: string)
      ensures var sent := Submitted(data, custom);
              Prop(sent, "akismet.enabled") == JBool(akismetEnabled) &&
              Prop(sent, "akismet.key") == JStr(Trim(akismetKey)) &&
              Prop(sent, "forbidden.words") == JStr(Trim(forbiddenWords))
    {
      var d1 := Assign(data, "akismet.enabled", JBool(akismetEnabled));
      var d2 := Assign(d1, "akismet.key", JStr(Trim(akismetKey)));
      var d3 := Assign(d2, "forbidden.words", JStr(Trim(forbiddenWords)));
      var d4 := Assign(d3, "ipqps", NumJson(ipqps));
      var sent := Assign(d4, "otherConfig", JStr(custom));
      assert Get(d2, "akismet.enabled") == Get(d1, "akismet.enabled");
      assert Get(d3, "akismet.enabled") == Get(d2, "akismet.enabled");
      assert Get(d3, "akismet.key") == Get(d2, "akismet.key");
      assert Get(sent, "forbidden.words") == Get(d3, "forbidden.words");
      assert Get(sent, "akismet.key") == Get(d3, "akismet.key");
      assert Get(sent, "akismet.enabled") == Get(d3, "akismet.enabled");
    }

    /** The submitted record carries the interval and the custom variables as text. */
    lemma SubmittedCustom(data: Assoc, custom: string)
      ensures var sent := Submitted(data, custom);
              Prop(sent, "ipqps") == NumJson(ipqps) && Prop(sent, "otherConfig") == JStr(custom)
    {
    }

    /** The demo site refuses every submit. */
    lemma FinishOnDemo(data: Assoc, parse: Json -> Option<Json>, stringify: Json -> string)
      ensures Finish(data, DemoHost, parse, stringify) == Refused(DemoRefused)
    {
    }

    /** Custom variables that are not JSON stop the submit; an empty text box
        never does. */
    lemma FinishInvalidJson(data: Assoc, host: string, parse: Json -> Option<Json>, stringify: Json -> string)
      requires host != DemoHost
      ensures Finish(data, host, parse, stringify) == Refused(InvalidJson) <==>
        Truthy(Prop(data, "otherConfig")) && parse(Prop(data, "otherConfig")).None?
    {
    }

    /** A record is sent exactly when the page is not the demo, the custom
        variables parse, and spam checking is off or has a key that is not blank;
        it is then the form values with the tidied settings and the copied
        custom variables. */
    lemma FinishSends(data: Assoc, host: string, parse: Json -> Option<Json>, stringify: Json -> string)
      ensures Finish(data, host, parse, stringify).Sent? <==>
        host != DemoHost && CustomVariables(Prop(data, "otherConfig"), parse).Some? &&
        !(akismetEnabled && (akismetKey == "" || Trim(akismetKey) == ""))
      ensures Finish(data, host, parse, stringify).Sent? ==>
        Finish(data, host, parse, stringify).record ==
          Submitted(data, stringify(Copy(CustomVariables(Prop(data, "otherConfig"), parse).value)))
    {
    }

    /** A sent record with spam checking on always carries a key that is not blank. */
    lemma SentHasKey(data: Assoc, host: string, parse: Json -> Option<Json>, stringify: Json -> string)
      requires Finish(data, host, parse, stringify).Sent?
      ensures var sent := Finish(data, host, parse, stringify).record;
              Prop(sent, "akismet.enabled") == JBool(true) ==>
                Prop(sent, "akismet.key").JStr? && Prop(sent, "akismet.key").s != ""
    {
      var base := CustomVariables(Prop(data, "otherConfig"), parse).value;
      SubmittedTidied(data, stringify(Copy(base)));
    }

    /** Every other form value is submitted as it was. */
    lemma SubmittedKeeps(data: Assoc, custom: string, k: string)
      requires k != "akismet.enabled" && k != "akismet.key" && k != "forbidden.words"
      requires k != "ipqps" && k != "otherConfig"
      ensures Get(Submitted(data, custom), k) == Get(data, k)
    {
    }
  }

  /** With spam checking on, a key of only blanks never reaches the server. */
  lemma BlankKeyRefused(key: string)
    requires forall i :: 0 <= i < |key| ==> IsJsWhitespace(key[i])
    ensures key == "" || Trim(key) == ""
  {
    TrimAllWhitespace(key);
  }
}
