/** The mobile navigation menu (`NavBarMobile`): which logo it shows, and the
    flat list of links it renders from the menu tree, each root entry
    followed by its sub-entries. */
module NavBarMobile {
  import opened Js
  import opened Strings
  import opened MenuKey

  /** `picUrl`: the dark logo on a dark theme when one is set, the normal logo otherwise. */
  function PicUrl(theme: string, logo: string, logoDark: Option<string>): (r: string)
    ensures Contains(theme, "dark") && logoDark.Some? && logoDark.value != "" ==> r == logoDark.value
    ensures r != logo ==> Contains(theme, "dark") && logoDark.Some? && logoDark.value != "" && r == logoDark.value
    ensures !(Contains(theme, "dark") && logoDark.Some? && logoDark.value != "") ==> r == logo
  {
    if Contains(theme, "dark") && logoDark.Some? && logoDark.value != "" then logoDark.value else logo
  }

  /** One rendered list entry, by what `renderItem` is called with: the menu
      entry, whether it is indented as a sub-entry, and its key suffix. */
  datatype Entry = Entry(item: MenuItem, sub: bool, suffix: string)

  /** The React key of a rendered entry. */
  function Key(e: Entry): string {
    GetMenuItemKey(e.item, JStr(e.suffix))
  }

  /** What `renderItem` renders: an `<a target="_blank">` or a `Link` inside
      the site, with the entry's key and address; sub-entries are indented. */
  datatype Link =
    | External(key: string, href: Json, indented: bool)
    | Internal(key: string, href: Json, indented: bool)

  /** `renderItem`: the link opens a new tab exactly when its address contains `http`. */
  function RenderItem(e: Entry): (r: Link)
    ensures r.External? <==> e.item.value.JStr? && Contains(e.item.value.s, "http")
    ensures r.key == GetMenuItemKey(e.item, JStr(e.suffix)) && r.href == e.item.value && r.indented == e.sub
  {
    if e.item.value.JStr? && Contains(e.item.value.s, "http") then External(Key(e), e.item.value, e.sub)
    else Internal(Key(e), e.item.value, e.sub)
  }

  /** The key suffixes of the root entry `p` and of its sub-entry `c`. */
  function RootSuffix(p: nat): string {
    "root-" + NatToString(p)
  }

  function ChildSuffix(p: nat, c: nat): string {
    "child-" + NatToString(p) + "-" + NatToString(c)
  }

  /** The sub-entries of root `p`, in order. */
  function ChildEntries(children: seq<MenuItem>, p: nat): (r: seq<Entry>)
    ensures |r| == |children|
  {
    seq(|children|, c requires 0 <= c < |children| => Entry(children[c], true, ChildSuffix(p, c)))
  }

  /** Root `p` followed by its sub-entries. */
  function Group(item: MenuItem, p: nat): seq<Entry> {
    [Entry(item, false, RootSuffix(p))] + ChildEntries(item.children, p)
  }

  /** The list for the menu `menus`, group after group. */
  function Links(menus: seq<MenuItem>): seq<Entry>
    decreases |menus|
  {
    if menus == [] then []
    else Links(menus[..|menus| - 1]) + Group(menus[|menus| - 1], |menus| - 1)
  }

  /** The number of sub-entries of all of `menus`. */
  function ChildCount(menus: seq<MenuItem>): nat
    decreases |menus|
  {
    if menus == [] then 0
    else ChildCount(menus[..|menus| - 1]) + |menus[|menus| - 1].children|
  }

  /** The list for the first `k + 1` roots extends the list for the first `k`. */
  lemma LinksPrefix(menus: seq<MenuItem>, k: nat)
    requires k < |menus|
    ensures Links(menus[..k + 1]) == Links(menus[..k]) + Group(menus[k], k)
  {
    assert menus[..k + 1][..k] == menus[..k];
  }

  /** `renderLinks`. */
  method RenderLinks(menus: seq<MenuItem>) returns (arr: seq<Entry>)
    ensures arr == Links(menus)
  {
    arr := [];
    var parentIdx := 0;
    while parentIdx < |menus|
      invariant 0 <= parentIdx <= |menus|
      invariant arr == Links(menus[..parentIdx])
    {
      var item := menus[parentIdx];
      var head := arr + [Entry(item, false, RootSuffix(parentIdx))];
      ghost var children := ChildEntries(item.children, parentIdx);
      arr := head;
      if |item.children| > 0 {
        var childIdx := 0;
        while childIdx < |item.children|
          invariant 0 <= childIdx <= |item.children|
          invariant arr == head + children[..childIdx]
        {
          assert children[..childIdx + 1] == children[..childIdx] + [children[childIdx]];
          arr := arr + [Entry(item.children[childIdx], true, ChildSuffix(parentIdx, childIdx))];
          childIdx := childIdx + 1;
        }
      }
      assert children[..|item.children|] == children;
      LinksPrefix(menus, parentIdx);
      parentIdx := parentIdx + 1;
    }
    assert menus[..|menus|] == menus;
  }

  /** The list has one entry per root and one per sub-entry. */
  lemma {:induction false} LinksLength(menus: seq<MenuItem>)
    ensures |Links(menus)| == |menus| + ChildCount(menus)
    decreases |menus|
  {
    if menus != [] {
      LinksLength(menus[..|menus| - 1]);
    }
  }

  /** Where root `p` sits: after the earlier roots and all their sub-entries. */
  function Offset(menus: seq<MenuItem>, p: nat): nat
    requires p <= |menus|
  {
    p + ChildCount(menus[..p])
  }

  /** Root `p` and its sub-entries fill `Offset(menus, p)` up to `Offset(menus, p + 1)`. */
  lemma {:induction false} GroupAt(menus: seq<MenuItem>, p: nat)
    requires p < |menus|
    ensures Offset(menus, p) + |Group(menus[p], p)| <= |Links(menus)|
    ensures Links(menus)[Offset(menus, p)..Offset(menus, p) + |Group(menus[p], p)|] == Group(menus[p], p)
    decreases |menus|
  {
    var init := menus[..|menus| - 1];
    LinksLength(init);
    if p < |menus| - 1 {
      GroupAt(init, p);
      assert init[..p] == menus[..p];
      assert init[p] == menus[p];
      var o := Offset(menus, p);
      var g := Group(menus[p], p);
      assert Links(menus)[o..o + |g|] == Links(init)[o..o + |g|];
    } else {
      assert menus[..p] == init;
    }
  }

  /** Root `p` is at `Offset(menus, p)` with its own key suffix, its sub-entry
      `c` right after it at `Offset(menus, p) + 1 + c`, and nothing else comes
      between a root and its sub-entries. */
  lemma LinksLayout(menus: seq<MenuItem>, p: nat)
    requires p < |menus|
    ensures Offset(menus, p) + |menus[p].children| < |Links(menus)|
    ensures Links(menus)[Offset(menus, p)] == Entry(menus[p], false, RootSuffix(p))
    ensures forall c :: 0 <= c < |menus[p].children| ==>
      Links(menus)[Offset(menus, p) + 1 + c] == Entry(menus[p].children[c], true, ChildSuffix(p, c))
  {
    GroupAt(menus, p);
    var o := Offset(menus, p);
    var g := Group(menus[p], p);
    forall c | 0 <= c < |menus[p].children|
      ensures Links(menus)[o + 1 + c] == Entry(menus[p].children[c], true, ChildSuffix(p, c))
    {
      assert Links(menus)[o + 1 + c] == Links(menus)[o..o + |g|][1 + c];
    }
    assert Links(menus)[o] == Links(menus)[o..o + |g|][0];
  }

  /** The length of the run of digits `s` starts with. */
  function DigitRun(s: string): (n: nat)
    ensures n <= |s|
  {
    if s != [] && IsDigit(s[0]) then 1 + DigitRun(s[1..]) else 0
  }

  lemma {:induction false} DigitRunThenDash(a: string, x: string)
    requires forall i :: 0 <= i < |a| ==> IsDigit(a[i])
    ensures DigitRun(a + "-" + x) == |a|
  {
    if a != [] {
      assert (a + "-" + x)[1..] == a[1..] + "-" + x;
      DigitRunThenDash(a[1..], x);
    }
  }

  /** Digits never hold a dash, so the first dash after them splits the text back. */
  lemma DashAfterDigits(a: string, x: string, b: string, y: string)
    requires forall i :: 0 <= i < |a| ==> IsDigit(a[i])
    requires forall i :: 0 <= i < |b| ==> IsDigit(b[i])
    requires a + "-" + x == b + "-" + y
    ensures a == b && x == y
  {
    DigitRunThenDash(a, x);
    DigitRunThenDash(b, y);
    assert a == (a + "-" + x)[..|a|];
    assert b == (b + "-" + y)[..|b|];
    assert x == (a + "-" + x)[|a| + 1..];
    assert y == (b + "-" + y)[|b| + 1..];
  }

  /** Different positions in the menu tree get different key suffixes. */
  lemma SuffixesDistinct(p: nat, q: nat, c: nat, d: nat)
    ensures RootSuffix(p) == RootSuffix(q) ==> p == q
    ensures ChildSuffix(p, c) == ChildSuffix(q, d) ==> p == q && c == d
    ensures RootSuffix(p) != ChildSuffix(q, d)
  {
    if RootSuffix(p) == RootSuffix(q) {
      assert NatToString(p) == RootSuffix(p)[5..];
      assert NatToString(q) == RootSuffix(q)[5..];
      NatToStringInjective(p, q);
    }
    if ChildSuffix(p, c) == ChildSuffix(q, d) {
      var s, t := NatToString(p) + "-" + NatToString(c), NatToString(q) + "-" + NatToString(d);
      assert s == ChildSuffix(p, c)[6..];
      assert t == ChildSuffix(q, d)[6..];
      DashAfterDigits(NatToString(p), NatToString(c), NatToString(q), NatToString(d));
      NatToStringInjective(p, q);
      NatToStringInjective(c, d);
    }
    assert RootSuffix(p)[0] == 'r' && ChildSuffix(q, d)[0] == 'c';
  }
}
