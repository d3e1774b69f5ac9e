/** The environment of the comment-service child process
    (`WalineProvider.mapConfig2Env` and the layering done by `loadEnv`). */
module WalineEnv {
  import opened Js
  import opened Strings

  /** `JSON.parse` of the `otherConfig` setting followed by `Object.entries`:
      the entries of the parsed value, or None when either call throws. */
  type Parser = Json -> Option<Assoc>

  /** `Object.entries` never reports one key twice. */
  ghost predicate GivesObjects(parse: Parser) {
    forall v :: parse(v).Some? ==> UniqueKeys(parse(v).value)
  }

  /** The fixed table from settings keys to environment names. */
  function EnvName(key: string): (r: Option<string>)
    ensures r.Some? ==> r.value != ""
  {
    if key == "smtp.port" then Some("SMTP_PORT")
    else if key == "smtp.host" then Some("SMTP_HOST")
    else if key == "smtp.user" then Some("SMTP_USER")
    else if key == "sender.name" then Some("SENDER_NAME")
    else if key == "sender.email" then Some("SENDER_EMAIL")
    else if key == "smtp.password" then Some("SMTP_PASS")
    else if key == "authorEmail" then Some("AUTHOR_EMAIL")
    else if key == "webhook" then Some("WEBHOOK")
    else if key == "forceLoginComment" then Some("LOGIN")
    else if key == "forbidden.words" then Some("FORBIDDEN_WORDS")
    else if key == "ipqps" then Some("IPQPS")
    else if key == "akismet.key" then Some("AKISMET_KEY")
    else None
  }

  /** The environment names that are dropped while mail is switched off. */
  const SmtpNames: seq<string> :=
    ["SMTP_PASS", "SMTP_USER", "SMTP_HOST", "SMTP_PORT", "SENDER_NAME", "SENDER_EMAIL"]

  predicate IsSpecialKey(key: string) {
    key == "forceLoginComment" || key == "akismet.enabled" || key == "otherConfig"
  }

  /** A table value: numbers are written in decimal, everything else passes through. */
  function EnvValue(v: Json): (r: Json)
    ensures v.JNum? ==> r == JStr(IntToString(v.n))
    ensures !v.JNum? ==> r == v
  {
    if v.JNum? then JStr(IntToString(v.n)) else v
  }

  /** What one settings entry does to the environment built so far
      (one turn of the `for` loop over `Object.keys(config)`). */
  function Step(parse: Parser, result: Assoc, e: (string, Json)): Assoc {
    var (key, v) := e;
    if key == "forceLoginComment" then
      if Truthy(v) then Assign(result, "LOGIN", JStr("force")) else result
    else if key == "akismet.enabled" then
      if v == JBool(false) then Assign(result, "AKISMET_KEY", JStr("false")) else result
    else if key == "otherConfig" then
      if Truthy(v) then
        match parse(v)
        case Some(entries) => Spread(result, entries)
        case None => result
      else result
    else
      match EnvName(key)
      case Some(name) => Assign(result, name, EnvValue(v))
      case None => result
  }

  /** The environment after the loop has seen the entries `es`. */
  function Accumulate(parse: Parser, es: Assoc): Assoc
    decreases |es|
  {
    if es == [] then [] else Step(parse, Accumulate(parse, es[..|es| - 1]), es[|es| - 1])
  }

  /** The second loop: every entry whose name is not a mail name, in order. */
  function StripSmtp(a: Assoc): Assoc
    decreases |a|
  {
    if a == [] then []
    else StripSmtp(a[..|a| - 1]) + (if a[|a| - 1].0 in SmtpNames then [] else [a[|a| - 1]])
  }

  /** The environment `mapConfig2Env` returns for a settings record (None is
      a null or undefined record). */
  function EnvOfSettings(parse: Parser, config: Option<Assoc>): Assoc {
    match config
    case None => []
    case Some(es) =>
      var result := Accumulate(parse, es);
      if !Truthy(Prop(es, "smtp.enabled")) then StripSmtp(result) else result
  }

  /** `mapConfig2Env`: the two loops of the source, building `result` and then `r2`. */
  method MapConfig2Env(parse: Parser, config: Option<Assoc>) returns (env: Assoc)
    ensures env == EnvOfSettings(parse, config)
    ensures config.None? ==> env == []
  {
    if config.None? {
      return [];
    }
    var es := config.value;
    var result: Assoc := [];
    var i := 0;
    while i < |es|
      invariant 0 <= i <= |es|
      invariant result == Accumulate(parse, es[..i])
    {
      var (key, v) := es[i];
      if key == "forceLoginComment" {
        if Truthy(v) {
          result := Assign(result, "LOGIN", JStr("force"));
        }
      } else if key == "akismet.enabled" {
        if v == JBool(false) {
          result := Assign(result, "AKISMET_KEY", JStr("false"));
        }
      } else if key == "otherConfig" {
        if Truthy(v) {
          var data := parse(v);
          if data.Some? {
            var entries := data.value;
            var j := 0;
            while j < |entries|
              invariant 0 <= j <= |entries|
              invariant Spread(result, entries[j..]) == Spread(Accumulate(parse, es[..i]), entries)
            {
              assert entries[j..][1..] == entries[j + 1..];
              result := Assign(result, entries[j].0, entries[j].1);
              j := j + 1;
            }
          }
        }
      } else {
        var rKey := EnvName(key);
        if rKey.Some? {
          result := Assign(result, rKey.value, EnvValue(v));
        }
      }
      assert es[..i + 1][..i] == es[..i];
      i := i + 1;
    }
    assert es[..i] == es;
    if !Truthy(Prop(es, "smtp.enabled")) {
      var r2: Assoc := [];
      var j := 0;
      while j < |result|
        invariant 0 <= j <= |result|
        invariant r2 == StripSmtp(result[..j])
      {
        assert result[..j + 1][..j] == result[..j];
        if result[j].0 !in SmtpNames {
          r2 := r2 + [result[j]];
        }
        j := j + 1;
      }
      assert result[..j] == result;
      return r2;
    }
    return result;
  }

  // ---------------------------------------------------------------------
  // A reference semantics, one environment name at a time.

  /** The value entry `e` writes under the environment name `name`, if any. */
  function EntryWrite(parse: Parser, e: (string, Json), name: string): Option<Json> {
    var (key, v) := e;
    if key == "forceLoginComment" then
      if Truthy(v) && name == "LOGIN" then Some(JStr("force")) else None
    else if key == "akismet.enabled" then
      if v == JBool(false) && name == "AKISMET_KEY" then Some(JStr("false")) else None
    else if key == "otherConfig" then
      if Truthy(v) && parse(v).Some? then Get(parse(v).value, name) else None
    else if EnvName(key) == Some(name) then Some(EnvValue(v))
    else None
  }

  /** The value written last under `name` by the entries `es`. */
  function LastWrite(parse: Parser, es: Assoc, name: string): Option<Json>
    decreases |es|
  {
    if es == [] then None
    else
      match EntryWrite(parse, es[|es| - 1], name)
      case Some(x) => Some(x)
      case None => LastWrite(parse, es[..|es| - 1], name)
  }

  lemma StepGet(parse: Parser, result: Assoc, e: (string, Json), name: string)
    requires GivesObjects(parse)
    ensures Get(Step(parse, result, e), name) ==
      match EntryWrite(parse, e, name)
      case Some(x) => Some(x)
      case None => Get(result, name)
  {
    var (key, v) := e;
    if key == "otherConfig" && Truthy(v) && parse(v).Some? {
      SpreadGet(result, parse(v).value, name);
    }
  }

  /** The loop's result holds, under every name, the value written last. */
  lemma {:induction false} AccumulateGet(parse: Parser, es: Assoc, name: string)
    requires GivesObjects(parse)
    ensures Get(Accumulate(parse, es), name) == LastWrite(parse, es, name)
    decreases |es|
  {
    if es != [] {
      AccumulateGet(parse, es[..|es| - 1], name);
      StepGet(parse, Accumulate(parse, es[..|es| - 1]), es[|es| - 1], name);
    }
  }

  lemma {:induction false} AccumulateUnique(parse: Parser, es: Assoc)
    requires GivesObjects(parse)
    ensures UniqueKeys(Accumulate(parse, es))
    decreases |es|
  {
    if es != [] {
      var prev := Accumulate(parse, es[..|es| - 1]);
      AccumulateUnique(parse, es[..|es| - 1]);
      var (key, v) := es[|es| - 1];
      if key == "forceLoginComment" || key == "akismet.enabled" {
        AssignUnique(prev, if key == "forceLoginComment" then "LOGIN" else "AKISMET_KEY", JStr(if key == "forceLoginComment" then "force" else "false"));
      } else if key == "otherConfig" {
        if Truthy(v) && parse(v).Some? {
          SpreadUnique(prev, parse(v).value);
        }
      } else if EnvName(key).Some? {
        AssignUnique(prev, EnvName(key).value, EnvValue(v));
      }
    }
  }

  /** Dropping the mail names removes exactly those names and keeps every other entry. */
  lemma {:induction false} StripSmtpGet(a: Assoc, name: string)
    ensures Get(StripSmtp(a), name) == if name in SmtpNames then None else Get(a, name)
    decreases |a|
  {
    if a != [] {
      var init, last := a[..|a| - 1], a[|a| - 1];
      assert a == init + [last];
      StripSmtpGet(init, name);
      GetAppend(init, last, name);
      if last.0 in SmtpNames {
        assert StripSmtp(a) == StripSmtp(init);
      } else {
        assert StripSmtp(a) == StripSmtp(init) + [last];
        GetAppend(StripSmtp(init), last, name);
        StripSmtpKeys(init, name);
      }
    }
  }

  lemma {:induction false} StripSmtpKeys(a: Assoc, k: string)
    ensures k in Keys(StripSmtp(a)) <==> k in Keys(a) && k !in SmtpNames
    decreases |a|
  {
    if a != [] {
      var init, last := a[..|a| - 1], a[|a| - 1];
      assert a == init + [last];
      StripSmtpKeys(init, k);
      assert Keys(init + [last]) == Keys(init) + [last.0];
      if last.0 !in SmtpNames {
        assert StripSmtp(a) == StripSmtp(init) + [last];
        assert Keys(StripSmtp(init) + [last]) == Keys(StripSmtp(init)) + [last.0];
      } else {
        assert StripSmtp(a) == StripSmtp(init);
      }
    }
  }

  lemma {:induction false} StripSmtpUnique(a: Assoc)
    requires UniqueKeys(a)
    ensures UniqueKeys(StripSmtp(a))
    decreases |a|
  {
    if a != [] {
      var init, last := a[..|a| - 1], a[|a| - 1];
      StripSmtpUnique(init);
      StripSmtpKeys(init, last.0);
      if last.0 !in SmtpNames {
        var s := StripSmtp(init);
        assert last.0 !in Keys(init);
        assert last.0 !in Keys(s);
        assert forall i :: 0 <= i < |s| ==> Keys(s)[i] == s[i].0;
      }
    }
  }

  /** The whole mapping, name by name: a mail name is missing while
      `smtp.enabled` is falsy; every other name holds the value written last. */
  lemma EnvOfSettingsGet(parse: Parser, es: Assoc, name: string)
    requires GivesObjects(parse)
    ensures Get(EnvOfSettings(parse, Some(es)), name) ==
      if !Truthy(Prop(es, "smtp.enabled")) && name in SmtpNames then None
      else LastWrite(parse, es, name)
  {
    AccumulateGet(parse, es, name);
    StripSmtpGet(Accumulate(parse, es), name);
  }

  lemma EnvOfSettingsUnique(parse: Parser, config: Option<Assoc>)
    requires GivesObjects(parse)
    ensures UniqueKeys(EnvOfSettings(parse, config))
  {
    if config.Some? {
      AccumulateUnique(parse, config.value);
      StripSmtpUnique(Accumulate(parse, config.value));
    }
  }

  /** While mail is off no mail name reaches the environment, whatever the
      settings held, and every other name is what the first loop produced. */
  lemma MailOffDropsSmtp(parse: Parser, es: Assoc)
    requires GivesObjects(parse)
    requires !Truthy(Prop(es, "smtp.enabled"))
    ensures forall name :: name in SmtpNames ==> name !in Keys(EnvOfSettings(parse, Some(es)))
    ensures forall name :: name !in SmtpNames ==>
      Get(EnvOfSettings(parse, Some(es)), name) == Get(Accumulate(parse, es), name)
  {
    forall name | name in SmtpNames ensures name !in Keys(EnvOfSettings(parse, Some(es))) {
      StripSmtpGet(Accumulate(parse, es), name);
    }
    forall name | name !in SmtpNames
      ensures Get(EnvOfSettings(parse, Some(es)), name) == Get(Accumulate(parse, es), name)
    {
      StripSmtpGet(Accumulate(parse, es), name);
    }
  }

  // ---------------------------------------------------------------------
  // The last writer of a name wins.

  lemma {:induction false} LastWriteNone(parse: Parser, es: Assoc, name: string)
    requires forall j :: 0 <= j < |es| ==> EntryWrite(parse, es[j], name).None?
    ensures LastWrite(parse, es, name).None?
    decreases |es|
  {
    if es != [] {
      LastWriteNone(parse, es[..|es| - 1], name);
    }
  }

  lemma {:induction false} LastWriteAt(parse: Parser, es: Assoc, name: string, i: int)
    requires 0 <= i < |es| && EntryWrite(parse, es[i], name).Some?
    requires forall j :: i < j < |es| ==> EntryWrite(parse, es[j], name).None?
    ensures LastWrite(parse, es, name) == EntryWrite(parse, es[i], name)
    decreases |es|
  {
    if i < |es| - 1 {
      LastWriteAt(parse, es[..|es| - 1], name, i);
    }
  }

  lemma LastWriteSole(parse: Parser, es: Assoc, name: string, i: int)
    requires 0 <= i < |es|
    requires forall j :: 0 <= j < |es| && j != i ==> EntryWrite(parse, es[j], name).None?
    ensures LastWrite(parse, es, name) == EntryWrite(parse, es[i], name)
  {
    if EntryWrite(parse, es[i], name).Some? {
      LastWriteAt(parse, es, name, i);
    } else {
      LastWriteNone(parse, es, name);
    }
  }

  /** If entry `i` writes `name` and no later entry does, the environment holds
      that value under `name` (unless it is a mail name and mail is off). */
  lemma LastWriterWins(parse: Parser, es: Assoc, name: string, i: int)
    requires GivesObjects(parse)
    requires 0 <= i < |es| && EntryWrite(parse, es[i], name).Some?
    requires forall j :: i < j < |es| ==> EntryWrite(parse, es[j], name).None?
    requires name !in SmtpNames || Truthy(Prop(es, "smtp.enabled"))
    ensures Get(EnvOfSettings(parse, Some(es)), name) == EntryWrite(parse, es[i], name)
  {
    EnvOfSettingsGet(parse, es, name);
    LastWriteAt(parse, es, name, i);
  }

  /** A name nobody writes is absent from the environment. */
  lemma NeverWritten(parse: Parser, es: Assoc, name: string)
    requires GivesObjects(parse)
    requires forall j :: 0 <= j < |es| ==> EntryWrite(parse, es[j], name).None?
    ensures name !in Keys(EnvOfSettings(parse, Some(es)))
  {
    EnvOfSettingsGet(parse, es, name);
    LastWriteNone(parse, es, name);
  }

  // ---------------------------------------------------------------------
  // The special keys and the table, each by itself.

  /** `forceLoginComment` writes `LOGIN=force` when truthy and nothing else;
      a falsy value writes no `LOGIN` at all. */
  lemma ForceLoginWrites(parse: Parser, v: Json, name: string)
    ensures EntryWrite(parse, ("forceLoginComment", v), name) ==
      if Truthy(v) && name == "LOGIN" then Some(JStr("force")) else None
  {
  }

  /** With no `otherConfig` entry providing `LOGIN`, the environment has
      `LOGIN=force` exactly when `forceLoginComment` is truthy, and no
      `LOGIN` at all otherwise. */
  lemma ForceLoginRule(parse: Parser, es: Assoc)
    requires GivesObjects(parse) && UniqueKeys(es)
    requires forall j :: 0 <= j < |es| && es[j].0 == "otherConfig" ==> EntryWrite(parse, es[j], "LOGIN").None?
    ensures Get(EnvOfSettings(parse, Some(es)), "LOGIN") ==
      if Truthy(Prop(es, "forceLoginComment")) then Some(JStr("force")) else None
  {
    EnvOfSettingsGet(parse, es, "LOGIN");
    assert "LOGIN" !in SmtpNames;
    LoginLastWrite(parse, es);
  }

  lemma LoginLastWrite(parse: Parser, es: Assoc)
    requires UniqueKeys(es)
    requires forall j :: 0 <= j < |es| && es[j].0 == "otherConfig" ==> EntryWrite(parse, es[j], "LOGIN").None?
    ensures LastWrite(parse, es, "LOGIN") ==
      if Truthy(Prop(es, "forceLoginComment")) then Some(JStr("force")) else None
  {
    if "forceLoginComment" in Keys(es) {
      var i :| 0 <= i < |es| && es[i].0 == "forceLoginComment";
      GetUnique(es, i);
      forall j | 0 <= j < |es| && j != i ensures EntryWrite(parse, es[j], "LOGIN").None? {
        if es[j].0 != "otherConfig" {
          OnlyForceLoginWritesLogin(parse, es[j]);
        }
      }
      LastWriteSole(parse, es, "LOGIN", i);
    } else {
      forall j | 0 <= j < |es| ensures EntryWrite(parse, es[j], "LOGIN").None? {
        if es[j].0 != "otherConfig" {
          OnlyForceLoginWritesLogin(parse, es[j]);
        }
      }
      LastWriteNone(parse, es, "LOGIN");
    }
  }

  lemma OnlyForceLoginWritesLogin(parse: Parser, e: (string, Json))
    requires e.0 != "forceLoginComment" && e.0 != "otherConfig"
    ensures EntryWrite(parse, e, "LOGIN").None?
  {
  }

  /** `akismet.enabled === false` writes `AKISMET_KEY='false'` at that point of
      the loop; any other value of that entry writes nothing. */
  lemma AkismetDisabledWrites(parse: Parser, v: Json, name: string)
    ensures EntryWrite(parse, ("akismet.enabled", v), name) ==
      if v == JBool(false) && name == "AKISMET_KEY" then Some(JStr("false")) else None
  {
  }

  /** When the `akismet.enabled: false` entry comes after every entry that
      writes `AKISMET_KEY`, the environment says `AKISMET_KEY=false`. */
  lemma AkismetDisabledLast(parse: Parser, es: Assoc, i: int)
    requires GivesObjects(parse)
    requires 0 <= i < |es| && es[i] == ("akismet.enabled", JBool(false))
    requires forall j :: i < j < |es| ==> EntryWrite(parse, es[j], "AKISMET_KEY").None?
    ensures Get(EnvOfSettings(parse, Some(es)), "AKISMET_KEY") == Some(JStr("false"))
  {
    LastWriterWins(parse, es, "AKISMET_KEY", i);
  }

  /** The opt-out does not win by itself: an `akismet.key` that comes later in
      `Object.keys` order overwrites the `'false'`. */
  lemma AkismetKeyAfterOptOut(parse: Parser)
    requires GivesObjects(parse)
    ensures Get(EnvOfSettings(parse, Some([("akismet.enabled", JBool(false)), ("akismet.key", JStr("k"))])),
                "AKISMET_KEY") == Some(JStr("k"))
  {
    var es := [("akismet.enabled", JBool(false)), ("akismet.key", JStr("k"))];
    LastWriterWins(parse, es, "AKISMET_KEY", 1);
  }

  /** Valid `otherConfig` JSON writes every one of its entries verbatim. */
  lemma OtherConfigWrites(parse: Parser, v: Json, k: string, x: Json)
    requires GivesObjects(parse)
    requires Truthy(v) && parse(v).Some? && (k, x) in parse(v).value
    ensures EntryWrite(parse, ("otherConfig", v), k) == Some(x)
  {
    var entries := parse(v).value;
    var i :| 0 <= i < |entries| && entries[i] == (k, x);
    GetUnique(entries, i);
  }

  /** Keys of the table write their environment name with numbers in decimal. */
  lemma TableWrites(parse: Parser, key: string, v: Json)
    requires !IsSpecialKey(key) && EnvName(key).Some?
    ensures EntryWrite(parse, (key, v), EnvName(key).value) == Some(EnvValue(v))
    ensures forall name :: name != EnvName(key).value ==> EntryWrite(parse, (key, v), name).None?
  {
  }

  /** An entry that writes nothing: a falsy `forceLoginComment`, an
      `akismet.enabled` that is not `false`, an `otherConfig` that is empty or
      not valid JSON, or a key missing from the table. */
  predicate Inert(parse: Parser, e: (string, Json)) {
    var (key, v) := e;
    if key == "forceLoginComment" then !Truthy(v)
    else if key == "akismet.enabled" then v != JBool(false)
    else if key == "otherConfig" then !Truthy(v) || parse(v) == None || parse(v) == Some([])
    else EnvName(key).None?
  }

  lemma InertStep(parse: Parser, result: Assoc, e: (string, Json))
    requires Inert(parse, e)
    ensures Step(parse, result, e) == result
  {
  }

  lemma {:induction false} AccumulateDropInert(parse: Parser, a: Assoc, e: (string, Json), b: Assoc)
    requires Inert(parse, e)
    ensures Accumulate(parse, a + [e] + b) == Accumulate(parse, a + b)
    decreases |b|
  {
    if b == [] {
      assert (a + [e] + b)[..|a + [e] + b| - 1] == a;
      assert a + b == a;
      InertStep(parse, Accumulate(parse, a), e);
    } else {
      var b0 := b[..|b| - 1];
      assert (a + [e] + b)[..|a + [e] + b| - 1] == a + [e] + b0;
      assert (a + b)[..|a + b| - 1] == a + b0;
      AccumulateDropInert(parse, a, e, b0);
    }
  }

  /** An entry that writes nothing (and is not `smtp.enabled`) can be left out
      of the settings without changing the environment: unknown keys produce
      no output and invalid `otherConfig` JSON is ignored without an error. */
  lemma DropInertEntry(parse: Parser, a: Assoc, e: (string, Json), b: Assoc)
    requires Inert(parse, e) && e.0 != "smtp.enabled"
    ensures EnvOfSettings(parse, Some(a + [e] + b)) == EnvOfSettings(parse, Some(a + b))
  {
    AccumulateDropInert(parse, a, e, b);
    GetConcat(a + [e], b, "smtp.enabled");
    GetConcat(a, [e], "smtp.enabled");
    GetConcat(a, b, "smtp.enabled");
    assert Keys(a + [e]) == Keys(a) + [e.0];
  }

  /** Mail on, a mail host and Akismet switched off: when `smtp.host: h` is the
      last entry writing `SMTP_HOST` and `akismet.enabled: false` the last one
      writing `AKISMET_KEY`, the child gets that host and `AKISMET_KEY=false`. */
  lemma MailHostAndAkismetOff(parse: Parser, es: Assoc, h: string, i: int, k: int)
    requires GivesObjects(parse) && Truthy(Prop(es, "smtp.enabled"))
    requires 0 <= i < |es| && es[i] == ("smtp.host", JStr(h))
    requires forall j :: i < j < |es| ==> EntryWrite(parse, es[j], "SMTP_HOST").None?
    requires 0 <= k < |es| && es[k] == ("akismet.enabled", JBool(false))
    requires forall j :: k < j < |es| ==> EntryWrite(parse, es[j], "AKISMET_KEY").None?
    ensures var env := EnvOfSettings(parse, Some(es));
            Get(env, "SMTP_HOST") == Some(JStr(h)) && Get(env, "AKISMET_KEY") == Some(JStr("false"))
  {
    LastWriterWins(parse, es, "SMTP_HOST", i);
    AkismetDisabledLast(parse, es, k);
  }

  // ---------------------------------------------------------------------
  // loadEnv

  datatype MongoUrl = MongoUrl(hostname: string, port: string, username: string, password: string)

  datatype SiteInfo = SiteInfo(siteName: Json, baseUrl: Json)

  /** The database layer; in development a host of `mongo` or an empty host means this machine. */
  function MongoEnv(url: MongoUrl, isDev: bool, walineDB: string): (r: Assoc)
    ensures UniqueKeys(r)
    ensures Get(r, "MONGO_HOST") ==
      Some(JStr(if isDev && (url.hostname == "mongo" || url.hostname == "") then "127.0.0.1" else url.hostname))
  {
    var host := if isDev && (url.hostname == "mongo" || url.hostname == "") then "127.0.0.1" else url.hostname;
    [("MONGO_HOST", JStr(host)), ("MONGO_PORT", JStr(url.port)), ("MONGO_USER", JStr(url.username)),
     ("MONGO_PASSWORD", JStr(url.password)), ("MONGO_DB", JStr(walineDB)), ("MONGO_AUTHSOURCE", JStr("admin"))]
  }

  /** The site layer: site name and address when set, and the process-wide
      token secret, or a fresh salt (`salt`) when there is none. */
  function SiteEnv(siteInfo: Option<SiteInfo>, jwtSecret: Json, salt: string): (r: Assoc)
    ensures UniqueKeys(r)
    ensures Get(r, "JWT_TOKEN") == Some(if Truthy(jwtSecret) then jwtSecret else JStr(salt))
  {
    var name := if siteInfo.Some? then Or(siteInfo.value.siteName, JUndefined) else JUndefined;
    var url := if siteInfo.Some? then Or(siteInfo.value.baseUrl, JUndefined) else JUndefined;
    [("SITE_NAME", name), ("SITE_URL", url), ("JWT_TOKEN", Or(jwtSecret, JStr(salt)))]
  }

  /** `this.env` after `loadEnv`: the three layers spread in order, then a
      falsy `AKISMET_KEY` replaced by `'false'`. */
  function LoadedEnv(mongo: Assoc, site: Assoc, settings: Assoc): (r: Assoc)
    ensures Truthy(Prop(r, "AKISMET_KEY"))
  {
    var env := Spread(Spread(Spread([], mongo), site), settings);
    if !Truthy(Prop(env, "AKISMET_KEY")) then Assign(env, "AKISMET_KEY", JStr("false")) else env
  }

  /** The settings layer overrides the site layer, which overrides the
      database layer; a falsy `AKISMET_KEY` becomes `'false'`. */
  lemma LoadedEnvGet(mongo: Assoc, site: Assoc, settings: Assoc, name: string)
    requires UniqueKeys(mongo) && UniqueKeys(site) && UniqueKeys(settings)
    ensures var layered :=
              if name in Keys(settings) then Get(settings, name)
              else if name in Keys(site) then Get(site, name)
              else Get(mongo, name);
            Get(LoadedEnv(mongo, site, settings), name) ==
              if name == "AKISMET_KEY" && !(layered.Some? && Truthy(layered.value)) then Some(JStr("false"))
              else layered
  {
    var e1 := Spread([], mongo);
    var e2 := Spread(e1, site);
    var e3 := Spread(e2, settings);
    SpreadGet([], mongo, name);
    SpreadGet(e1, site, name);
    SpreadGet(e2, settings, name);
    if name != "AKISMET_KEY" {
      SpreadGet(e2, settings, "AKISMET_KEY");
    }
  }
}
