/** The React key of a navigation menu entry (`getMenuItemKey`): the entry's
    id, level, link and name joined by dashes, then an optional suffix. */
module MenuKey {
  import opened Js

  /** A navigation menu entry; an entry without sub-entries has `children == []`. */
  datatype MenuItem = MenuItem(id: Json, level: Json, value: Json, name: Json, children: seq<MenuItem>)

  /** The four fields with `??` fallbacks, as `join` writes them. */
  function Parts(item: MenuItem): seq<string> {
    [ToJsString(Coalesce(item.id, JStr("menu"))),
     ToJsString(Coalesce(item.level, JNum(0))),
     ToJsString(Coalesce(item.value, JStr("value"))),
     ToJsString(Coalesce(item.name, JStr("name")))]
  }

  /** `parts.join("-")`. */
  function JoinDash(parts: seq<string>): (r: string)
    ensures parts == [] ==> r == ""
    ensures |parts| == 1 ==> r == parts[0]
  {
    if parts == [] then ""
    else if |parts| == 1 then parts[0]
    else parts[0] + "-" + JoinDash(parts[1..])
  }

  function BaseKey(item: MenuItem): string {
    JoinDash(Parts(item))
  }

  function GetMenuItemKey(item: MenuItem, extra: Json): (r: string)
    ensures (extra.JNull? || extra.JUndefined?) ==> r == BaseKey(item)
    ensures !(extra.JNull? || extra.JUndefined?) ==>
      |BaseKey(item)| < |r| && r[..|BaseKey(item)|] == BaseKey(item) &&
      r[|BaseKey(item)|..] == "-" + ToJsString(extra)
  {
    var base := BaseKey(item);
    if extra.JUndefined? || extra.JNull? then base
    else base + "-" + ToJsString(extra)
  }

  /** Without a suffix the key is the four fields, in order, each followed by a dash but the last. */
  lemma KeyJoinsFields(item: MenuItem)
    ensures GetMenuItemKey(item, JUndefined) == GetMenuItemKey(item, JNull)
    ensures var p := Parts(item);
            GetMenuItemKey(item, JUndefined) == p[0] + "-" + p[1] + "-" + p[2] + "-" + p[3]
  {
    var p := Parts(item);
    assert JoinDash(p[3..]) == p[3];
    assert JoinDash(p[2..]) == p[2] + "-" + p[3] by {
      assert p[2..][1..] == p[3..];
    }
    assert JoinDash(p[1..]) == p[1] + "-" + (p[2] + "-" + p[3]) by {
      assert p[1..][1..] == p[2..];
    }
  }

  /** Missing fields fall back to `menu`, `0`, `value` and `name`. */
  lemma KeyFallbacks(item: MenuItem)
    requires item.id.JNull? || item.id.JUndefined?
    requires item.level.JNull? || item.level.JUndefined?
    requires item.value.JNull? || item.value.JUndefined?
    requires item.name.JNull? || item.name.JUndefined?
    ensures GetMenuItemKey(item, JUndefined) == "menu-0-value-name"
  {
    KeyJoinsFields(item);
  }

  /** Present fields, `0`, `false` and `""` included, are kept: `??` only
      replaces null and undefined. */
  lemma KeyKeepsPresent(item: MenuItem)
    ensures !(item.id.JNull? || item.id.JUndefined?) ==> Parts(item)[0] == ToJsString(item.id)
    ensures !(item.level.JNull? || item.level.JUndefined?) ==> Parts(item)[1] == ToJsString(item.level)
    ensures !(item.value.JNull? || item.value.JUndefined?) ==> Parts(item)[2] == ToJsString(item.value)
    ensures !(item.name.JNull? || item.name.JUndefined?) ==> Parts(item)[3] == ToJsString(item.name)
  {
  }

  /** Two keys of the same entry are equal only when their suffixes read the same. */
  lemma SuffixDecidesKey(item: MenuItem, e1: Json, e2: Json)
    requires !(e1.JNull? || e1.JUndefined?) && !(e2.JNull? || e2.JUndefined?)
    requires GetMenuItemKey(item, e1) == GetMenuItemKey(item, e2)
    ensures ToJsString(e1) == ToJsString(e2)
  {
    var b := |BaseKey(item)|;
    assert "-" + ToJsString(e1) == GetMenuItemKey(item, e1)[b..];
    assert ("-" + ToJsString(e1))[1..] == ToJsString(e1);
    assert ("-" + ToJsString(e2))[1..] == ToJsString(e2);
  }
}
