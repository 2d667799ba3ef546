// The editor's Welcome pane "tip of the day": a cursor over a fixed list of
// tips, and the extraction of at most one HTML-style link from a tip. The
// label's rendering and layout are not modelled; the pane's outputs are
// the displayed text, the link area and the link target.
module WelcomePane {
  import opened Wrappers
  import opened CInt

  const LINK_OPEN: string := "<a href=\""
  const LINK_CLOSE: string := "</a>"
  const HELP_PREFIX: string := "help:"
  const TIPS_OF_THE_DAY: seq<string> := [
    "You can right-click some selected sprites in the Sprite Manager, and use the Assign to View option to quickly add them to a view.",
    "You can right-click on a variable in the script editor and choose 'Go To Definition' to see where it was defined.",
    "In 256-colour games, you can right-click on the palette to export or replace it.",
    "Use the drop-down list at the top of the script editor to easily navigate through the script.",
    "The <a href=\"help:Global variables\">Global Variables</a> pane allows you to easily create variables that are shared between all your scripts.",
    "Alpha-channel sprites allow you to have much smoother edges, but only work in 32-bit colour games.",
    "The <a href=\"https://www.adventuregamestudio.co.uk/forums/\">AGS Forums</a> has several script modules and plugins that you can download to easily implement features in your game.",
    "The <a href=\"https://www.adventuregamestudio.co.uk/wiki/\">AGS Wiki</a> has lots of scripting tips. Why not contribute some yourself?",
    "To contribute to AGS development, check out <a href=\"https://github.com/adventuregamestudio\">AGS on GitHub.</a>",
    "Use the 'F' key to quickly flip frames in the view editor.",
    "Characters can talk and move between different rooms; objects cannot.",
    "You can select multiple sprites and move/delete them all in one go.",
    "Use the <a href=\"help:Character.ActiveInventory\">player.ActiveInventory property</a> to find out which item the player used in Use Inventory events.",
    "If your room background is continually flashing, make sure you didn't accidentally import a second background."]

  /** A LinkLabel's link area: where the link starts and how many
      characters it spans. */
  datatype LinkArea = LinkArea(start: int, length: int)

  /** What the pane shows for a tip. */
  datatype TipView = TipView(text: string, area: LinkArea, target: Option<string>)

  /** What clicking the link does. */
  datatype LinkAction = LaunchHelp(keyword: string) | OpenUrl(url: string)

  predicate OccursAt(s: string, p: string, i: int)
  {
    0 <= i && i + |p| <= |s| && s[i..i + |p|] == p
  }

  /** String.IndexOf(p, from): the first occurrence at or after `from`. */
  function IndexOfFrom(s: string, p: string, from: nat): (r: int)
    requires from <= |s|
    ensures r == -1 || (from <= r && OccursAt(s, p, r))
    decreases |s| - from
  {
    if OccursAt(s, p, from) then from
    else if from == |s| then -1
    else IndexOfFrom(s, p, from + 1)
  }

  /** The search finds nothing exactly when there is no occurrence at or
      after `from`, and otherwise no earlier occurrence. */
  lemma {:induction false} IndexOfFromIsFirst(s: string, p: string, from: nat)
    requires from <= |s|
    ensures var r := IndexOfFrom(s, p, from);
      (r == -1 <==> forall i :: from <= i <= |s| ==> !OccursAt(s, p, i)) &&
      (r != -1 ==> forall i :: from <= i < r ==> !OccursAt(s, p, i))
    decreases |s| - from
  {
    if !OccursAt(s, p, from) && from < |s| {
      IndexOfFromIsFirst(s, p, from + 1);
    }
  }

  function IndexOf(s: string, p: string): (r: int)
    ensures r == -1 || OccursAt(s, p, r)
  {
    IndexOfFrom(s, p, 0)
  }

  /** IndexOf gives -1 exactly when the pattern does not occur, and
      otherwise its first occurrence. */
  lemma IndexOfIsFirst(s: string, p: string)
    ensures IndexOf(s, p) == -1 <==> forall i :: 0 <= i <= |s| ==> !OccursAt(s, p, i)
    ensures IndexOf(s, p) != -1 ==> forall i :: 0 <= i < IndexOf(s, p) ==> !OccursAt(s, p, i)
  {
    IndexOfFromIsFirst(s, p, 0);
  }

  /** ShowTipOfTheDay on one tip. With no link the tip is shown as it is.
      Otherwise the target runs from after `<a href="` to the next quote;
      the opening tag is cut out (taking the quote and one more character,
      the tag's `>`), then the first `</a>`; the link area starts where the
      tag was and ends where `</a>` was. A tag whose target has no closing
      quote, or that ends right after it, makes the source throw. */
  function ShowTip(tip: string): (r: Result<TipView>)
  {
    var linkOffset := IndexOf(tip, LINK_OPEN);
    if linkOffset < 0 then Ok(TipView(tip, LinkArea(0, 0), None))
    else
      var rest := tip[linkOffset + |LINK_OPEN|..];
      var quote := IndexOf(rest, "\"");
      if quote < 0 then Err("target has no closing quote")
      else if linkOffset + |LINK_OPEN| + quote + 2 > |tip| then Err("tag ends at the end of the tip")
      else
        var target := rest[..quote];
        var cut := tip[..linkOffset] + tip[linkOffset + |LINK_OPEN| + quote + 2..];
        var linkEnd := IndexOf(cut, LINK_CLOSE);
        var text := if linkEnd >= 0 then cut[..linkEnd] + cut[linkEnd + |LINK_CLOSE|..] else cut;
        Ok(TipView(text, LinkArea(linkOffset, linkEnd - linkOffset), Some(target)))
  }

  /** A tip without `<a href="` is shown unchanged, with no target and an
      empty link area. */
  lemma TipWithoutLink(tip: string)
    requires forall i :: 0 <= i <= |tip| ==> !OccursAt(tip, LINK_OPEN, i)
    ensures ShowTip(tip) == Ok(TipView(tip, LinkArea(0, 0), None))
  {
    IndexOfIsFirst(tip, LINK_OPEN);
  }

  /** For a linked tip the target is exactly what stands between the
      opening `<a href="` and the next quote. */
  lemma LinkTargetBetweenQuotes(tip: string)
    requires ShowTip(tip).Ok? && ShowTip(tip).value.target.Some?
    ensures var off := IndexOf(tip, LINK_OPEN);
      var target := ShowTip(tip).value.target.value;
      off >= 0 && OccursAt(tip, LINK_OPEN, off) &&
      off + |LINK_OPEN| + |target| < |tip| &&
      tip[off + |LINK_OPEN|..off + |LINK_OPEN| + |target|] == target &&
      tip[off + |LINK_OPEN| + |target|] == '"' &&
      forall k :: 0 <= k < |target| ==> target[k] != '"'
  {
    var off := IndexOf(tip, LINK_OPEN);
    var rest := tip[off + |LINK_OPEN|..];
    var quote := IndexOf(rest, "\"");
    IndexOfIsFirst(rest, "\"");
    forall k | 0 <= k < quote
      ensures rest[k] != '"'
    {
      assert !OccursAt(rest, "\"", k);
      assert rest[k..k + 1] == [rest[k]];
    }
    assert rest[quote..quote + 1] == "\"";
  }

  /** The first occurrence of a pattern is found where it occurs when no
      earlier character starts it. */
  lemma FirstOccurrence(s: string, p: string, k: int)
    requires |p| > 0 && OccursAt(s, p, k)
    requires forall i :: 0 <= i < k ==> s[i] != p[0]
    ensures IndexOf(s, p) == k
  {
    forall i | 0 <= i < k
      ensures !OccursAt(s, p, i)
    {
      assert s[i] != p[0];
    }
    IndexOfIsFirst(s, p);
  }

  predicate Lacks(s: string, c: char)
  {
    forall i :: 0 <= i < |s| ==> s[i] != c
  }

  /** The opening tag is found right after a prefix without `<`. */
  lemma OpenTagAfter(pre: string, rest: string)
    requires Lacks(pre, '<')
    ensures var tip := pre + LINK_OPEN + rest;
      IndexOf(tip, LINK_OPEN) == |pre| && tip[|pre| + |LINK_OPEN|..] == rest
  {
    var tip := pre + LINK_OPEN + rest;
    assert tip[|pre|..|pre| + |LINK_OPEN|] == LINK_OPEN;
    FirstOccurrence(tip, LINK_OPEN, |pre|);
    assert tip[|pre| + |LINK_OPEN|..] == rest;
  }

  /** The target ends at the first quote. */
  lemma QuoteAfter(target: string, rest: string)
    requires Lacks(target, '"')
    ensures var s := target + "\"" + rest;
      IndexOf(s, "\"") == |target| && s[..|target|] == target
  {
    var s := target + "\"" + rest;
    assert s[|target|..|target| + 1] == "\"";
    FirstOccurrence(s, "\"", |target|);
    assert s[..|target|] == target;
  }

  /** The closing tag is found right after text without `<`, and cutting
      it out joins the two sides. */
  lemma CloseTagAfter(text: string, post: string)
    requires Lacks(text, '<')
    ensures var s := text + LINK_CLOSE + post;
      IndexOf(s, LINK_CLOSE) == |text| &&
      s[..|text|] + s[|text| + |LINK_CLOSE|..] == text + post
  {
    var s := text + LINK_CLOSE + post;
    assert s[|text|..|text| + |LINK_CLOSE|] == LINK_CLOSE;
    FirstOccurrence(s, LINK_CLOSE, |text|);
    assert s[..|text|] == text;
    assert s[|text| + |LINK_CLOSE|..] == post;
  }

  /** ShowTip on a tip whose opening tag, target quote and closing tag
      have been located. */
  lemma ShowLinkedTip(tip: string, off: int, rest: string, target: string, cut: string, linkEnd: int, text: string)
    requires IndexOf(tip, LINK_OPEN) == off >= 0
    requires off + |LINK_OPEN| + |target| + 2 <= |tip|
    requires rest == tip[off + |LINK_OPEN|..]
    requires IndexOf(rest, "\"") == |target| && rest[..|target|] == target
    requires cut == tip[..off] + tip[off + |LINK_OPEN| + |target| + 2..]
    requires IndexOf(cut, LINK_CLOSE) == linkEnd && 0 <= linkEnd && linkEnd + |LINK_CLOSE| <= |cut|
    requires text == cut[..linkEnd] + cut[linkEnd + |LINK_CLOSE|..]
    ensures ShowTip(tip).Ok?
    ensures ShowTip(tip).value.text == text
    ensures ShowTip(tip).value.area == LinkArea(off, linkEnd - off)
    ensures ShowTip(tip).value.target == Some(target)
  {
  }

  /** Cutting the opening tag out of a linked tip joins what stood before
      it to what followed its `>`. */
  lemma CutOpenTag(pre: string, target: string, tail: string)
    ensures var tip := pre + LINK_OPEN + (target + "\"" + (">" + tail));
      tip[..|pre|] + tip[|pre| + |LINK_OPEN| + |target| + 2..] == pre + tail
  {
    var tip := pre + LINK_OPEN + (target + "\"" + (">" + tail));
    assert tip[..|pre|] == pre;
    assert tip[|pre| + |LINK_OPEN| + |target| + 2..] == tail;
  }

  lemma TagShape(pre: string, target: string, anchor: string, post: string)
    ensures pre + LINK_OPEN + target + "\">" + anchor + LINK_CLOSE + post ==
      pre + LINK_OPEN + (target + "\"" + (">" + (anchor + LINK_CLOSE + post)))
  {
  }

  /** A tip of the shape the list uses, `pre<a href="target">anchor</a>post`
      with no `<` before the link or in the anchor and no quote in the
      target, shows as `pre anchor post` with the link area on the anchor
      and the target as the link. */
  lemma WellFormedTip(pre: string, target: string, anchor: string, post: string)
    requires Lacks(pre, '<') && Lacks(target, '"') && Lacks(anchor, '<')
    ensures var v := ShowTip(pre + LINK_OPEN + target + "\">" + anchor + LINK_CLOSE + post);
      v.Ok? && v.value.text == pre + anchor + post &&
      v.value.area == LinkArea(|pre|, |anchor|) && v.value.target == Some(target)
  {
    var tail := anchor + LINK_CLOSE + post;
    var rest := target + "\"" + (">" + tail);
    var tip := pre + LINK_OPEN + rest;
    assert tip == pre + LINK_OPEN + target + "\">" + anchor + LINK_CLOSE + post by {
      TagShape(pre, target, anchor, post);
    }
    assert IndexOf(tip, LINK_OPEN) == |pre| && tip[|pre| + |LINK_OPEN|..] == rest by {
      OpenTagAfter(pre, rest);
    }
    assert IndexOf(rest, "\"") == |target| && rest[..|target|] == target by {
      QuoteAfter(target, ">" + tail);
    }
    var cut := tip[..|pre|] + tip[|pre| + |LINK_OPEN| + |target| + 2..];
    assert cut == (pre + anchor) + LINK_CLOSE + post by {
      CutOpenTag(pre, target, tail);
    }
    var linkEnd := |pre + anchor|;
    assert IndexOf(cut, LINK_CLOSE) == linkEnd && cut[..linkEnd] + cut[linkEnd + |LINK_CLOSE|..] == pre + anchor + post by {
      CloseTagAfter(pre + anchor, post);
    }
    ShowLinkedTip(tip, |pre|, rest, target, cut, linkEnd, pre + anchor + post);
  }

  /** lnkTipText_LinkClicked: a "help:" target opens the help page named by
      the rest of the target; any other target is opened as a URL; with no
      target (a tip without a link) the source dereferences null. */
  function LinkClicked(target: Option<string>): (r: Result<LinkAction>)
    ensures r.Err? <==> target.None?
    ensures r.Ok? ==> (r.value.LaunchHelp? <==> |target.value| >= |HELP_PREFIX| && target.value[..|HELP_PREFIX|] == HELP_PREFIX)
    ensures r.Ok? && r.value.LaunchHelp? ==> target.value == HELP_PREFIX + r.value.keyword
    ensures r.Ok? && r.value.OpenUrl? ==> r.value.url == target.value
  {
    if target.None? then Err("no link target")
    else if |target.value| >= |HELP_PREFIX| && target.value[..|HELP_PREFIX|] == HELP_PREFIX then
      Ok(LaunchHelp(target.value[|HELP_PREFIX|..]))
    else Ok(OpenUrl(target.value))
  }

  /** "Next tip": one on, and back to the first after the last. */
  function NextTipIndex(index: int, count: int): (r: int)
    requires count > 0 && 0 <= index < count
    ensures 0 <= r < count
    ensures r == (index + 1) % count
  {
    if index + 1 >= count then 0 else index + 1
  }

  function NextTipIndexN(index: int, count: int, n: nat): (r: int)
    requires count > 0 && 0 <= index < count
    ensures 0 <= r < count
    decreases n
  {
    if n == 0 then index else NextTipIndexN(NextTipIndex(index, count), count, n - 1)
  }

  /** Clicking "next tip" n times moves the cursor n places round the list. */
  lemma {:induction false} NextTipCycles(index: int, count: int, n: nat)
    requires count > 0 && 0 <= index < count
    ensures NextTipIndexN(index, count, n) == (index + n) % count
    decreases n
  {
    if n > 0 {
      NextTipCycles(NextTipIndex(index, count), count, n - 1);
      ModAddOne(index, n - 1, count);
    }
  }

  /** After a full round the cursor is back where it started. */
  lemma FullRoundReturns(index: int, count: int)
    requires count > 0 && 0 <= index < count
    ensures NextTipIndexN(index, count, count) == index
  {
    NextTipCycles(index, count, count);
    SplitAt(1, index, count);
  }

  lemma ModAddOne(index: int, m: nat, count: int)
    requires count > 0 && 0 <= index < count
    ensures ((index + 1) % count + m) % count == (index + 1 + m) % count
  {
    if index + 1 == count {
      var q, r := m / count, m % count;
      assert m == q * count + r;
      SplitAt(q, r, count);
      SplitAt(q + 1, r, count);
      assert (q + 1) * count + r == count + m;
    }
  }

  /** A "help:" link opens the help page on what follows the prefix, and
      a link with any other start opens as a URL unchanged. */
  lemma HelpLinkOpensHelp(keyword: string, url: string)
    requires !(|url| >= |HELP_PREFIX| && url[..|HELP_PREFIX|] == HELP_PREFIX)
    ensures LinkClicked(Some(HELP_PREFIX + keyword)) == Ok(LaunchHelp(keyword))
    ensures LinkClicked(Some(url)) == Ok(OpenUrl(url))
  {
    assert (HELP_PREFIX + keyword)[..|HELP_PREFIX|] == HELP_PREFIX;
    assert (HELP_PREFIX + keyword)[|HELP_PREFIX|..] == keyword;
  }

  /** The pane's tip cursor and what it shows. */
  class WelcomePaneState {
    const tips: seq<string>
    var currentTipIndex: int
    var currentTipLinkTarget: Option<string>
    var tipText: string
    var linkArea: LinkArea

    predicate Valid()
      reads this
    {
      0 <= currentTipIndex < |tips|
    }

    /** The pane cycles through TIPS_OF_THE_DAY and opens on a tip picked
        at random (`first`). */
    constructor (first: int)
      requires 0 <= first < |TIPS_OF_THE_DAY|
      ensures Valid() && tips == TIPS_OF_THE_DAY && currentTipIndex == first
      ensures currentTipLinkTarget.None? && linkArea == LinkArea(0, 0) && tipText == ""
    {
      tips := TIPS_OF_THE_DAY;
      currentTipIndex := first;
      currentTipLinkTarget := None;
      tipText := "";
      linkArea := LinkArea(0, 0);
    }

    /** ShowTipOfTheDay: the label shows the tip's view. The link area and
        target are cleared first, so a tip that makes the source throw
        leaves them cleared and the old text in place. */
    method ShowTipOfTheDay(tipIndex: int) returns (r: Result<()>)
      requires 0 <= tipIndex < |tips|
      modifies this
      ensures currentTipIndex == old(currentTipIndex)
      ensures var v := ShowTip(tips[tipIndex]);
        if v.Err? then r.Err? && tipText == old(tipText) && linkArea == LinkArea(0, 0) && currentTipLinkTarget.None?
        else r.Ok? && tipText == v.value.text && linkArea == v.value.area && currentTipLinkTarget == v.value.target
    {
      linkArea := LinkArea(0, 0);
      currentTipLinkTarget := None;
      var v := ShowTip(tips[tipIndex]);
      if v.Err? {
        return Err(v.msg);
      }
      currentTipLinkTarget := v.value.target;
      tipText := v.value.text;
      linkArea := v.value.area;
      r := Ok(());
    }

    /** lnkNextTip_LinkClicked: the next tip, wrapping to the first. */
    method NextTip() returns (r: Result<()>)
      requires Valid()
      modifies this
      ensures Valid() && currentTipIndex == NextTipIndex(old(currentTipIndex), |tips|)
      ensures r.Ok? <==> ShowTip(tips[currentTipIndex]).Ok?
      ensures var v := ShowTip(tips[currentTipIndex]);
        if v.Err? then tipText == old(tipText) && linkArea == LinkArea(0, 0) && currentTipLinkTarget.None?
        else tipText == v.value.text && linkArea == v.value.area && currentTipLinkTarget == v.value.target
    {
      currentTipIndex := currentTipIndex + 1;
      if currentTipIndex >= |tips| {
        currentTipIndex := 0;
      }
      r := ShowTipOfTheDay(currentTipIndex);
    }

    /** lnkTipText_LinkClicked on the current target. */
    method TipLinkClicked() returns (r: Result<LinkAction>)
      ensures r == LinkClicked(currentTipLinkTarget)
    {
      r := LinkClicked(currentTipLinkTarget);
    }
  }
}
