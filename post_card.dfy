/** The decisions of an article card (`PostCard`): whether it starts locked,
    whether it offers the donate block and the table of contents, and which
    text it shows. Whether the content has headings for a table of contents
    (`hasToc`) is a parameter. */
module PostCard {
  import opened Js
  import opened Strings

  const MoreTag: string := "<!-- more -->"
  const LockedNotice: string := "该文章已加密，点击 `阅读全文` 并输入密码后方可查看。"
  const ExcerptLength: nat := 50

  /** Where the card is shown: in a list of articles, as a whole article, or as the about page. */
  datatype CardType = Overview | Article | About

  /** The properties the decisions read; absent optional flags are `false`. */
  datatype Card = Card(kind: CardType, isPrivate: bool, pay: Option<seq<string>>,
                       hideDonate: bool, showDonateInAbout: bool, content: string)

  /** The initial `lock` state. */
  function InitialLock(card: Card): (r: bool)
    ensures r <==> card.kind != Overview && card.isPrivate
  {
    card.kind != Overview && card.isPrivate
  }

  /** `showDonate` for the current `lock` state. */
  function ShowDonate(card: Card, lock: bool): (r: bool)
    ensures r ==> !lock && card.kind != Overview && card.pay.Some?
  {
    if lock then false
    else if card.hideDonate then false
    else if card.pay.None? || |card.pay.value| <= 0 then false
    else if card.kind == Article then true
    else if card.kind == About && card.showDonateInAbout then true
    else false
  }

  /** The donate block shows exactly when the card is unlocked, donating is not
      hidden and there is a payment code, on an article, or on the about page
      when that is asked for; never in a list. */
  lemma ShowDonateRule(card: Card, lock: bool)
    ensures ShowDonate(card, lock) <==>
      !lock && !card.hideDonate && card.pay.Some? && |card.pay.value| > 0 &&
      (card.kind == Article || (card.kind == About && card.showDonateInAbout))
    ensures card.kind == Overview ==> !ShowDonate(card, lock)
  {
  }

  /** `calContent`: the placeholder for a private card in a list, else the text
      before the first more tag (`split(...)[0]` when the split has more than
      one part), else the first 50 characters; whole cards drop the first more
      tag only (`replace` with a string pattern). */
  function CalContent(card: Card): (r: string)
    ensures !(card.kind == Overview && card.isPrivate) ==> |r| <= |card.content|
  {
    if card.kind == Overview then
      if card.isPrivate then LockedNotice
      else
        var idx := IndexOf(card.content, MoreTag);
        if idx >= 0 then card.content[..idx] else Take(card.content, ExcerptLength)
    else
      var idx := IndexOf(card.content, MoreTag);
      if idx >= 0 then card.content[..idx] + card.content[idx + |MoreTag|..] else card.content
  }

  /** No occurrence of `pat` lies wholly before its first occurrence. */
  lemma BeforeFirstHasNone(s: string, pat: string)
    requires pat != [] && IndexOf(s, pat) >= 0
    ensures !Contains(s[..IndexOf(s, pat)], pat)
  {
    var idx := IndexOf(s, pat);
    var pre := s[..idx];
    forall j | 0 <= j <= |pre|
      ensures !OccursAt(pre, pat, j)
    {
      if j + |pat| <= |pre| {
        assert pre[j..j + |pat|] == s[j..j + |pat|];
        assert !OccursAt(s, pat, j);
      }
    }
  }

  /** In a list a private card shows only the placeholder. */
  lemma PrivateOverviewHidden(card: Card)
    requires card.kind == Overview && card.isPrivate
    ensures CalContent(card) == LockedNotice
  {
  }

  /** In a list a public card shows the text before the first more tag, which
      holds no tag itself, or without a tag at most the first 50 characters. */
  lemma OverviewExcerpt(card: Card)
    requires card.kind == Overview && !card.isPrivate
    ensures var r := CalContent(card);
            |r| <= |card.content| && r == card.content[..|r|]
    ensures Contains(card.content, MoreTag) ==>
      CalContent(card) == card.content[..IndexOf(card.content, MoreTag)] && !Contains(CalContent(card), MoreTag)
    ensures !Contains(card.content, MoreTag) ==>
      |CalContent(card)| == if |card.content| <= ExcerptLength then |card.content| else ExcerptLength
  {
    if Contains(card.content, MoreTag) {
      BeforeFirstHasNone(card.content, MoreTag);
    }
  }

  /** A whole card shows the content with its first more tag cut out: putting the
      tag back at the same place gives the content again. */
  lemma FullContentDropsFirstTag(card: Card)
    requires card.kind != Overview
    ensures !Contains(card.content, MoreTag) ==> CalContent(card) == card.content
    ensures Contains(card.content, MoreTag) ==>
      var idx := IndexOf(card.content, MoreTag);
      var r := CalContent(card);
      |r| == |card.content| - |MoreTag| && idx <= |r| &&
      r[..idx] + MoreTag + r[idx..] == card.content && !Contains(r[..idx], MoreTag)
  {
    if Contains(card.content, MoreTag) {
      var s := card.content;
      var idx := IndexOf(s, MoreTag);
      var r := CalContent(card);
      assert r[..idx] == s[..idx];
      assert r[idx..] == s[idx + |MoreTag|..];
      assert s[idx..idx + |MoreTag|] == MoreTag;
      assert s == s[..idx] + s[idx..idx + |MoreTag|] + s[idx + |MoreTag|..];
      BeforeFirstHasNone(s, MoreTag);
    }
  }

  /** `showToc`, for `hasToc` the verdict on the card's content. */
  function ShowToc(card: Card, hasToc: bool): (r: bool)
    ensures r <==> hasToc && card.kind == Article
  {
    if !hasToc then false
    else if card.kind == Article then true
    else false
  }
}
