// Engine-side GUI rules: the script setters and getters of a GUI, the
// @macro@ expander used for GUI labels, the draw-order sort, popup removal
// and the placement of text away from GUIs.
module GuiEngine {
  import opened Wrappers
  import opened CInt
  import opened ScriptString

  /** The GUI fields the engine rules read and write. Whether a GUI is
      displayed is its Visible flag unless the engine conceals it. */
  /** Every mutable field of a GUIMain, so that a setter can state that it
      changes the named fields and nothing else. */
  datatype GuiFields = GuiFields(x: int, y: int, width: int, height: int, bgColor: int, bgImage: int,
                                 fgColor: int, padding: int, popupAtMouseY: int, transparency: int,
                                 zOrder: int, visible: bool, concealed: bool, hasChanged: bool)

  class GUIMain {
    var x: int
    var y: int
    var width: int
    var height: int
    var bgColor: int
    var bgImage: int
    /** Border colour of a normal GUI, text colour of a text window. */
    var fgColor: int
    var padding: int
    var popupAtMouseY: int
    /** Legacy 255-range transparency: 255 is fully transparent. */
    var transparency: int
    var zOrder: int
    const isTextWindow: bool
    var visible: bool
    var concealed: bool
    var hasChanged: bool

    constructor (textWindow: bool, x0: int, y0: int, w: int, h: int)
      ensures isTextWindow == textWindow && x == x0 && y == y0 && width == w && height == h
      ensures bgColor == 0 && bgImage == 0 && fgColor == 0 && padding == 0 && transparency == 0
      ensures zOrder == 0 && visible && !concealed && !hasChanged
    {
      isTextWindow := textWindow;
      x, y, width, height := x0, y0, w, h;
      bgColor, bgImage, fgColor, padding, popupAtMouseY, transparency, zOrder := 0, 0, 0, 0, 0, 0, 0;
      visible, concealed, hasChanged := true, false, false;
    }

    predicate IsDisplayed()
      reads this
      ensures IsDisplayed() <==> visible && !concealed
    {
      visible && !concealed
    }

    function Fields(): (f: GuiFields)
      reads this
      ensures f.width == width && f.height == height && f.hasChanged == hasChanged
    {
      GuiFields(x, y, width, height, bgColor, bgImage, fgColor, padding, popupAtMouseY,
                transparency, zOrder, visible, concealed, hasChanged)
    }
  }

  /** GUI.SetSize: sizes below 1 quit; the size is converted to game
      coordinates, and only an actual change marks the GUI changed. */
  method SetSize(g: GUIMain, widd: int, hitt: int, dataToGame: int -> int) returns (ok: bool)
    modifies g
    ensures ok <==> widd >= 1 && hitt >= 1
    ensures ok ==> g.width == dataToGame(widd) && g.height == dataToGame(hitt)
    ensures ok && old(g.width) == dataToGame(widd) && old(g.height) == dataToGame(hitt) ==> g.hasChanged == old(g.hasChanged)
    ensures ok && (old(g.width) != dataToGame(widd) || old(g.height) != dataToGame(hitt)) ==> g.hasChanged
    ensures !ok ==> g.Fields() == old(g.Fields())
    ensures ok ==> g.Fields() == old(g.Fields()).(width := g.width, height := g.height, hasChanged := g.hasChanged)
  {
    if widd < 1 || hitt < 1 {
      return false;
    }
    var w, h := dataToGame(widd), dataToGame(hitt);
    ok := true;
    if g.width == w && g.height == h {
      return;
    }
    g.width, g.height := w, h;
    g.hasChanged := true;
  }

  /** GUI.Transparency setter: only percentages 0..100 are accepted. */
  method SetTransparency(g: GUIMain, trans: int, percentToLegacy255: int -> int) returns (ok: bool)
    modifies g
    ensures ok <==> 0 <= trans <= 100
    ensures ok ==> g.transparency == percentToLegacy255(trans)
    ensures !ok ==> g.Fields() == old(g.Fields())
    ensures ok ==> g.Fields() == old(g.Fields()).(transparency := percentToLegacy255(trans))
  {
    if trans < 0 || trans > 100 {
      return false;
    }
    g.transparency := percentToLegacy255(trans);
    ok := true;
  }

  function GetPopupYPos(g: GUIMain): (r: int)
    reads g
    ensures r == g.popupAtMouseY
  {
    g.popupAtMouseY
  }

  /** Text windows ignore a popup position. */
  method SetPopupYPos(g: GUIMain, newpos: int)
    modifies g
    ensures g.popupAtMouseY == if g.isTextWindow then old(g.popupAtMouseY) else newpos
    ensures g.hasChanged == old(g.hasChanged)
    ensures g.Fields() == old(g.Fields()).(popupAtMouseY := g.popupAtMouseY)
  {
    if !g.isTextWindow {
      g.popupAtMouseY := newpos;
    }
  }

  method SetBackgroundGraphic(g: GUIMain, slot: int)
    modifies g
    ensures g.bgImage == slot
    ensures g.hasChanged == (old(g.hasChanged) || old(g.bgImage) != slot)
    ensures g.Fields() == old(g.Fields()).(bgImage := slot, hasChanged := g.hasChanged)
  {
    if g.bgImage != slot {
      g.bgImage := slot;
      g.hasChanged := true;
    }
  }

  /** Any sprite number below 1 reads as "no background graphic", 0. */
  function GetBackgroundGraphic(g: GUIMain): (r: int)
    reads g
    ensures r >= 0
    ensures r == 0 <==> g.bgImage < 1
    ensures r != 0 ==> r == g.bgImage
  {
    if g.bgImage < 1 then 0 else g.bgImage
  }

  method SetBackgroundColor(g: GUIMain, col: int)
    modifies g
    ensures g.bgColor == col
    ensures g.hasChanged == (old(g.hasChanged) || old(g.bgColor) != col)
    ensures g.Fields() == old(g.Fields()).(bgColor := col, hasChanged := g.hasChanged)
  {
    if g.bgColor != col {
      g.bgColor := col;
      g.hasChanged := true;
    }
  }

  function GetBackgroundColor(g: GUIMain): (r: int)
    reads g
    ensures r == g.bgColor
  {
    g.bgColor
  }

  /** The border colour belongs to normal GUIs only. */
  method SetBorderColor(g: GUIMain, col: int)
    modifies g
    ensures g.isTextWindow ==> g.fgColor == old(g.fgColor) && g.hasChanged == old(g.hasChanged)
    ensures !g.isTextWindow ==> g.fgColor == col && g.hasChanged == (old(g.hasChanged) || old(g.fgColor) != col)
    ensures GetBorderColor(g) == if g.isTextWindow then 0 else col
    ensures g.Fields() == old(g.Fields()).(fgColor := g.fgColor, hasChanged := g.hasChanged)
  {
    if g.isTextWindow {
      return;
    }
    if g.fgColor != col {
      g.fgColor := col;
      g.hasChanged := true;
    }
  }

  function GetBorderColor(g: GUIMain): (r: int)
    reads g
    ensures g.isTextWindow ==> r == 0
    ensures !g.isTextWindow ==> r == g.fgColor
  {
    if g.isTextWindow then 0 else g.fgColor
  }

  /** The text colour belongs to text windows only. */
  method SetTextColor(g: GUIMain, col: int)
    modifies g
    ensures !g.isTextWindow ==> g.fgColor == old(g.fgColor) && g.hasChanged == old(g.hasChanged)
    ensures g.isTextWindow ==> g.fgColor == col && g.hasChanged == (old(g.hasChanged) || old(g.fgColor) != col)
    ensures GetTextColor(g) == if g.isTextWindow then col else 0
    ensures g.Fields() == old(g.Fields()).(fgColor := g.fgColor, hasChanged := g.hasChanged)
  {
    if !g.isTextWindow {
      return;
    }
    if g.fgColor != col {
      g.fgColor := col;
      g.hasChanged := true;
    }
  }

  function GetTextColor(g: GUIMain): (r: int)
    reads g
    ensures !g.isTextWindow ==> r == 0
    ensures g.isTextWindow ==> r == g.fgColor
  {
    if !g.isTextWindow then 0 else g.fgColor
  }

  function GetTextPadding(g: GUIMain): (r: int)
    reads g
    ensures r == g.padding
  {
    g.padding
  }

  /** Padding is set on text windows only; it does not mark a change. */
  method SetTextPadding(g: GUIMain, newpos: int)
    modifies g
    ensures g.padding == if g.isTextWindow then newpos else old(g.padding)
    ensures g.Fields() == old(g.Fields()).(padding := g.padding)
  {
    if g.isTextWindow {
      g.padding := newpos;
    }
  }


  // ---------------------------------------------------------------------
  // @macro@ tokens in GUI texts

  /** What the macros read: scores, the game name, and the location under the
      mouse as GetLocationName reports it. */
  datatype MacroEnv = MacroEnv(score: int, totalScore: int, gameName: string,
                               interfaceEnabled: bool, locationName: string)

  const MAX_MACRO_NAME: nat := 20

  /** Reads a macro name starting at position p, at most 20 characters: it
      ends at a closing '@' (consumed) or at the end of the text. Returns the
      name and the position after it. */
  function ScanMacroName(t: string, p: nat, idd: nat): (r: (string, nat))
    requires p <= |t| && idd <= MAX_MACRO_NAME
    ensures p <= r.1 <= |t| && |r.0| <= MAX_MACRO_NAME - idd
    ensures '@' !in r.0
    decreases MAX_MACRO_NAME - idd
  {
    if idd == MAX_MACRO_NAME || p == |t| then ("", p)
    else if t[p] == '@' then ("", p + 1)
    else
      var r := ScanMacroName(t, p + 1, idd + 1);
      ([t[p]] + r.0, r.1)
  }

  /** The text a macro name stands for, compared ignoring ASCII case. */
  function MacroValue(name: string, env: MacroEnv): (v: Option<string>)
    ensures v.Some? <==> Lower(name) in {"score", "totalscore", "scoretext", "gamename", "overhotspot"}
  {
    var l := Lower(name);
    if l == "score" then Some(IntToDecimal(env.score))
    else if l == "totalscore" then Some(IntToDecimal(env.totalScore))
    else if l == "scoretext" then Some(IntToDecimal(env.score) + " of " + IntToDecimal(env.totalScore))
    else if l == "gamename" then Some(env.gameName)
    else if l == "overhotspot" then Some(if env.interfaceEnabled then env.locationName else "")
    else None
  }

  /** The expansion of t from position p: other characters are copied; a
      recognised macro is replaced by its value; any other '@' is copied and
      scanning resumes just after it. */
  function ExpandFrom(t: string, p: nat, env: MacroEnv): string
    requires p <= |t|
    decreases |t| - p
  {
    if p == |t| then ""
    else if t[p] == '@' then
      var r := ScanMacroName(t, p + 1, 0);
      match MacroValue(r.0, env)
      case Some(v) => v + ExpandFrom(t, r.1, env)
      case None => "@" + ExpandFrom(t, p + 1, env)
    else [t[p]] + ExpandFrom(t, p + 1, env)
  }

  /** The inner loop of replace_macro_tokens: collects a macro name. */
  method ReadMacroName(text: CString, start: nat) returns (name: string, cur: nat)
    requires start <= |text|
    ensures (name, cur) == ScanMacroName(text, start, 0)
  {
    name := "";
    cur := start;
    var idd := 0;
    ghost var full := ScanMacroName(text, start, 0);
    while idd < MAX_MACRO_NAME
      invariant idd <= MAX_MACRO_NAME && cur == start + idd && cur <= |text|
      invariant full.0 == name + ScanMacroName(text, cur, idd).0
      invariant full.1 == ScanMacroName(text, cur, idd).1
    {
      if cur == |text| {
        assert name + "" == name;
        return;
      }
      if text[cur] == '@' {
        assert name + "" == name;
        cur := cur + 1;
        return;
      }
      ghost var rest := ScanMacroName(text, cur + 1, idd + 1);
      assert name + ([text[cur]] + rest.0) == (name + [text[cur]]) + rest.0;
      name := name + [text[cur]];
      cur := cur + 1;
      idd := idd + 1;
    }
    assert name + "" == name;
  }


  /** replace_macro_tokens: empties the output, then scans the text once. */
  method ReplaceMacroTokens(text: CString, env: MacroEnv) returns (fixedText: string)
    ensures fixedText == ExpandFrom(text, 0, env)
  {
    fixedText := "";
    var cur := 0;
    while cur < |text|
      invariant 0 <= cur <= |text|
      invariant fixedText + ExpandFrom(text, cur, env) == ExpandFrom(text, 0, env)
      decreases |text| - cur
    {
      ExpandStep(text, cur, env);
      if text[cur] == '@' {
        var wasAt := cur;
        var name, next := ReadMacroName(text, cur + 1);
        var value := MacroValue(name, env);
        if value.Some? {
          assert fixedText + (value.value + ExpandFrom(text, next, env)) ==
                 (fixedText + value.value) + ExpandFrom(text, next, env);
          fixedText := fixedText + value.value;
          cur := next;
        } else {
          assert fixedText + ("@" + ExpandFrom(text, wasAt + 1, env)) ==
                 (fixedText + "@") + ExpandFrom(text, wasAt + 1, env);
          cur := wasAt + 1;
          fixedText := fixedText + "@";
        }
      } else {
        assert fixedText + ([text[cur]] + ExpandFrom(text, cur + 1, env)) ==
               (fixedText + [text[cur]]) + ExpandFrom(text, cur + 1, env);
        fixedText := fixedText + [text[cur]];
        cur := cur + 1;
      }
    }
  }

  lemma ExpandStep(t: string, p: nat, env: MacroEnv)
    requires p < |t|
    ensures t[p] != '@' ==> ExpandFrom(t, p, env) == [t[p]] + ExpandFrom(t, p + 1, env)
    ensures t[p] == '@' && MacroValue(ScanMacroName(t, p + 1, 0).0, env).Some? ==>
      ExpandFrom(t, p, env) == MacroValue(ScanMacroName(t, p + 1, 0).0, env).value +
                               ExpandFrom(t, ScanMacroName(t, p + 1, 0).1, env)
    ensures t[p] == '@' && MacroValue(ScanMacroName(t, p + 1, 0).0, env).None? ==>
      ExpandFrom(t, p, env) == "@" + ExpandFrom(t, p + 1, env)
  {
  }

  /** Text without '@' is copied unchanged. */
  lemma {:induction false} ExpandWithoutMacros(t: string, p: nat, env: MacroEnv)
    requires p <= |t|
    requires forall i :: p <= i < |t| ==> t[i] != '@'
    ensures ExpandFrom(t, p, env) == t[p..]
    decreases |t| - p
  {
    if p < |t| {
      ExpandWithoutMacros(t, p + 1, env);
      assert t[p..] == [t[p]] + t[p + 1..];
    }
  }

  /** A name without '@' and shorter than 20 characters, followed by '@' or by
      the end of the text, is read whole. */
  lemma {:induction false} ScanWholeName(t: string, p: nat, idd: nat, name: string)
    requires p + |name| <= |t| && idd + |name| < MAX_MACRO_NAME
    requires t[p..p + |name|] == name && '@' !in name
    ensures p + |name| == |t| ==> ScanMacroName(t, p, idd) == (name, |t|)
    ensures p + |name| < |t| && t[p + |name|] == '@' ==> ScanMacroName(t, p, idd) == (name, p + |name| + 1)
    decreases |name|
  {
    if |name| > 0 {
      assert t[p] == name[0];
      assert t[p + 1..p + |name|] == name[1..];
      ScanWholeName(t, p + 1, idd + 1, name[1..]);
      assert name == [name[0]] + name[1..];
    }
  }

  /** "@name@" for a recognised macro, in any letter case, is replaced by its
      value and the rest of the text is expanded after the closing '@'. */
  lemma KnownMacroExpands(name: string, rest: string, env: MacroEnv)
    requires '@' !in name && |name| < MAX_MACRO_NAME
    requires MacroValue(name, env).Some?
    ensures ExpandFrom("@" + name + "@" + rest, 0, env) ==
            MacroValue(name, env).value + ExpandFrom("@" + name + "@" + rest, |name| + 2, env)
  {
    var t := "@" + name + "@" + rest;
    assert t[1..1 + |name|] == name;
    ScanWholeName(t, 1, 0, name);
  }

  /** A recognised macro left unterminated at the end of the text, such as
      "@SCORETEXT", is still replaced by its value. */
  lemma UnterminatedMacroExpands(name: string, env: MacroEnv)
    requires '@' !in name && |name| < MAX_MACRO_NAME
    requires MacroValue(name, env).Some?
    ensures ExpandFrom("@" + name, 0, env) == MacroValue(name, env).value
  {
    var t := "@" + name;
    assert t[1..1 + |name|] == name;
    ScanWholeName(t, 1, 0, name);
  }


  // ---------------------------------------------------------------------
  // Draw order

  /** `order` lists GUI numbers by ascending z-order. */
  ghost predicate SortedByZ(order: seq<int>, z: seq<int>)
    requires forall i :: 0 <= i < |order| ==> 0 <= order[i] < |z|
  {
    forall i, j :: 0 <= i < j < |order| ==> z[order[i]] <= z[order[j]]
  }

  function InsertByZ(g: int, sorted: seq<int>, z: seq<int>): (r: seq<int>)
    requires 0 <= g < |z|
    requires forall i :: 0 <= i < |sorted| ==> 0 <= sorted[i] < |z|
    ensures forall i :: 0 <= i < |r| ==> 0 <= r[i] < |z|
    ensures multiset(r) == multiset(sorted) + multiset{g}
  {
    if |sorted| == 0 then [g]
    else if z[g] <= z[sorted[0]] then [g] + sorted
    else
      assert sorted == [sorted[0]] + sorted[1..];
      [sorted[0]] + InsertByZ(g, sorted[1..], z)
  }

  /** A z-order no greater than the inserted GUI's and every sorted GUI's
      is no greater than any GUI's after the insertion. */
  lemma {:induction false} InsertByZBounded(g: int, sorted: seq<int>, z: seq<int>, lo: int)
    requires 0 <= g < |z| && lo <= z[g]
    requires forall i :: 0 <= i < |sorted| ==> 0 <= sorted[i] < |z| && lo <= z[sorted[i]]
    ensures forall i :: 0 <= i < |InsertByZ(g, sorted, z)| ==> lo <= z[InsertByZ(g, sorted, z)[i]]
    decreases |sorted|
  {
    if |sorted| > 0 && z[g] > z[sorted[0]] {
      InsertByZBounded(g, sorted[1..], z, lo);
    }
  }

  /** Inserting into a sorted order keeps it sorted. */
  lemma {:induction false} InsertByZSorted(g: int, sorted: seq<int>, z: seq<int>)
    requires 0 <= g < |z|
    requires forall i :: 0 <= i < |sorted| ==> 0 <= sorted[i] < |z|
    requires SortedByZ(sorted, z)
    ensures SortedByZ(InsertByZ(g, sorted, z), z)
    decreases |sorted|
  {
    if |sorted| > 0 && z[g] > z[sorted[0]] {
      var t := InsertByZ(g, sorted[1..], z);
      InsertByZSorted(g, sorted[1..], z);
      InsertByZBounded(g, sorted[1..], z, z[sorted[0]]);
      var r := [sorted[0]] + t;
      forall i, j | 0 <= i < j < |r|
        ensures z[r[i]] <= z[r[j]]
      {
        if i > 0 {
          assert r[i] == t[i - 1] && r[j] == t[j - 1];
        } else {
          assert r[j] == t[j - 1];
        }
      }
    }
  }



  /** The draw order sorted by z-order, as std::sort with sort_gui_less leaves it
      (a stable choice among GUIs of equal z-order). */
  function SortByZOrder(order: seq<int>, z: seq<int>): (r: seq<int>)
    requires forall i :: 0 <= i < |order| ==> 0 <= order[i] < |z|
    ensures forall i :: 0 <= i < |r| ==> 0 <= r[i] < |z|
    ensures multiset(r) == multiset(order)
    ensures SortedByZ(r, z)
  {
    if |order| == 0 then []
    else
      assert order == order[..|order| - 1] + [order[|order| - 1]];
      var rest := SortByZOrder(order[..|order| - 1], z);
      InsertByZSorted(order[|order| - 1], rest, z);
      InsertByZ(order[|order| - 1], rest, z)
  }

  // ---------------------------------------------------------------------
  // Placement of text away from GUIs

  datatype GuiView = GuiView(displayed: bool, x: int, y: int, width: int, height: int,
                             bgColor: int, bgImage: int, transparency: int)

  /** A GUI with no background colour and no image, or fully transparent. */
  predicate TotallyTransparent(v: GuiView)
  {
    (v.bgColor == 0 && v.bgImage < 1) || v.transparency == 255
  }

  /** One step of adjust_x_for_guis: a GUI covering (xx, yy) and not spanning
      the screen width pushes xx past its right edge. */
  function AdjustXStep(v: GuiView, xx: int, yy: int, fullWidth: int): (r: int)
    ensures r >= xx
    ensures r != xx ==> r == v.x + v.width + 2 && v.displayed && v.x <= xx < v.x + v.width &&
                        v.y <= yy <= v.y + v.height && !TotallyTransparent(v) && v.x + v.width < fullWidth
  {
    if !v.displayed then xx
    else if v.x > xx || v.y > yy || v.y + v.height < yy then xx
    else if TotallyTransparent(v) then xx
    else if v.x + v.width >= fullWidth then xx
    else if xx < v.x + v.width then v.x + v.width + 2
    else xx
  }

  function AdjustXFrom(vs: seq<GuiView>, k: nat, xx: int, yy: int, fullWidth: int): (r: int)
    requires k <= |vs|
    ensures r >= xx
    decreases |vs| - k
  {
    if k == |vs| then xx else AdjustXFrom(vs, k + 1, AdjustXStep(vs[k], xx, yy, fullWidth), yy, fullWidth)
  }

  /** One step of adjust_y_for_guis: a GUI starting above yy and not spanning
      the screen height pushes yy below its bottom edge. */
  function AdjustYStep(v: GuiView, yy: int, fullHeight: int): (r: int)
    ensures r >= yy
    ensures r != yy ==> r == v.y + v.height + 2 && v.displayed && v.y <= yy < v.y + v.height &&
                        !TotallyTransparent(v) && v.height <= fullHeight
  {
    if !v.displayed then yy
    else if v.y > yy then yy
    else if TotallyTransparent(v) then yy
    else if v.height > fullHeight then yy
    else if yy < v.y + v.height then v.y + v.height + 2
    else yy
  }

  function AdjustYFrom(vs: seq<GuiView>, k: nat, yy: int, fullHeight: int): (r: int)
    requires k <= |vs|
    ensures r >= yy
    decreases |vs| - k
  {
    if k == |vs| then yy else AdjustYFrom(vs, k + 1, AdjustYStep(vs[k], yy, fullHeight), fullHeight)
  }

  /** Nothing moves when no GUI is displayed. */
  lemma {:induction false} AdjustXNoDisplayedGui(vs: seq<GuiView>, k: nat, xx: int, yy: int, fullWidth: int)
    requires k <= |vs|
    requires forall i :: k <= i < |vs| ==> !vs[i].displayed
    ensures AdjustXFrom(vs, k, xx, yy, fullWidth) == xx
    decreases |vs| - k
  {
    if k < |vs| {
      AdjustXNoDisplayedGui(vs, k + 1, xx, yy, fullWidth);
    }
  }

  // ---------------------------------------------------------------------
  // Global GUI state

  class GuiSystem {
    var guis: seq<GUIMain>
    /** GUI numbers in drawing order (play.gui_draw_order). */
    var drawOrder: seq<int>
    /** The GUI currently popped up by the mouse, or -1. */
    var ifacePopped: int
    var mouseOnIface: int
    var mouseX: int
    var mouseY: int

    ghost predicate Valid()
      reads this
    {
      (forall i :: 0 <= i < |drawOrder| ==> 0 <= drawOrder[i] < |guis|) &&
      -1 <= ifacePopped < |guis|
    }

    constructor (gs: seq<GUIMain>)
      ensures Valid() && guis == gs && ifacePopped == -1 && mouseOnIface == -1
      ensures drawOrder == seq(|gs|, i => i)
    {
      guis := gs;
      drawOrder := seq(|gs|, i => i);
      ifacePopped := -1;
      mouseOnIface := -1;
      mouseX, mouseY := 0, 0;
    }

    function ZOrders(): (z: seq<int>)
      reads this, guis
      ensures |z| == |guis| && forall i :: 0 <= i < |guis| ==> z[i] == guis[i].zOrder
    {
      var gs := guis;
      seq(|gs|, i reads gs requires 0 <= i < |gs| => gs[i].zOrder)
    }

    function Views(): (vs: seq<GuiView>)
      reads this, guis
      ensures |vs| == |guis|
    {
      var gs := guis;
      seq(|gs|, i reads gs requires 0 <= i < |gs| =>
        GuiView(gs[i].IsDisplayed(), gs[i].x, gs[i].y, gs[i].width, gs[i].height,
                gs[i].bgColor, gs[i].bgImage, gs[i].transparency))
    }

    /** update_gui_zorder: the draw order sorted ascending by z-order. */
    method UpdateGuiZOrder()
      requires Valid()
      modifies this`drawOrder
      ensures Valid()
      ensures drawOrder == SortByZOrder(old(drawOrder), ZOrders())
      ensures multiset(drawOrder) == multiset(old(drawOrder)) && SortedByZ(drawOrder, ZOrders())
    {
      var z := ZOrders();
      var sorted := SortByZOrder(drawOrder, z);
      drawOrder := sorted;
      assert ZOrders() == z;
    }

    /** GUI.ZOrder setter: stores the value and re-sorts the draw order. */
    method SetZOrder(id: int, z: int)
      requires Valid() && 0 <= id < |guis|
      modifies this`drawOrder, guis[id]
      ensures Valid() && guis == old(guis) && guis[id].zOrder == z
      ensures guis[id].Fields() == old(guis[id].Fields()).(zOrder := z)
      ensures drawOrder == SortByZOrder(old(drawOrder), ZOrders())
      ensures multiset(drawOrder) == multiset(old(drawOrder)) && SortedByZ(drawOrder, ZOrders())
      ensures ifacePopped == old(ifacePopped) && mouseOnIface == old(mouseOnIface)
      ensures mouseX == old(mouseX) && mouseY == old(mouseY)
    {
      guis[id].zOrder := z;
      UpdateGuiZOrder();
    }

    /** remove_popup_interface: only the popped GUI is removed; it is concealed,
        the mouse is moved below its popup line, and it stops being the GUI under
        the mouse. */
    method RemovePopupInterface(ifacenum: int)
      requires Valid() && 0 <= ifacenum < |guis|
      modifies this, guis[ifacenum]
      ensures Valid() && guis == old(guis)
      ensures forall g :: g in guis && g != guis[ifacenum] ==> g.Fields() == old(g.Fields())
      ensures old(ifacePopped) != ifacenum ==>
        ifacePopped == old(ifacePopped) && mouseY == old(mouseY) && mouseOnIface == old(mouseOnIface) &&
        guis[ifacenum].Fields() == old(guis[ifacenum].Fields())
      ensures old(ifacePopped) == ifacenum ==>
        ifacePopped == -1 && guis[ifacenum].Fields() == old(guis[ifacenum].Fields()).(concealed := true) &&
        mouseY == (if old(mouseY) <= guis[ifacenum].popupAtMouseY then guis[ifacenum].popupAtMouseY + 2 else old(mouseY)) &&
        mouseOnIface == (if old(mouseOnIface) == ifacenum then -1 else old(mouseOnIface))
      ensures mouseX == old(mouseX) && drawOrder == old(drawOrder)
    {
      if ifacePopped != ifacenum {
        return;
      }
      ifacePopped := -1;
      guis[ifacenum].concealed := true;
      if mouseY <= guis[ifacenum].popupAtMouseY {
        mouseY := guis[ifacenum].popupAtMouseY + 2;
      }
      if ifacenum == mouseOnIface {
        mouseOnIface := -1;
      }
    }

    /** adjust_x_for_guis: moves a text x position right of every displayed,
        non-transparent GUI covering it, unless GUIs are off while disabled. */
    method AdjustXForGuis(xx: int, yy: int, guisOffWhileDisabled: bool, fullWidth: int) returns (r: int)
      ensures guisOffWhileDisabled ==> r == xx
      ensures !guisOffWhileDisabled ==> r == AdjustXFrom(Views(), 0, xx, yy, fullWidth)
      ensures r >= xx
    {
      if guisOffWhileDisabled {
        return xx;
      }
      var x := xx;
      var aa := 0;
      while aa < |guis|
        invariant 0 <= aa <= |guis|
        invariant AdjustXFrom(Views(), aa, x, yy, fullWidth) == AdjustXFrom(Views(), 0, xx, yy, fullWidth)
      {
        var g := guis[aa];
        if !g.IsDisplayed() || g.x > x || g.y > yy || g.y + g.height < yy {
        } else if (g.bgColor == 0 && g.bgImage < 1) || g.transparency == 255 {
        } else if g.x + g.width >= fullWidth {
        } else if x < g.x + g.width {
          x := g.x + g.width + 2;
        }
        aa := aa + 1;
      }
      r := x;
    }

    /** adjust_y_for_guis: moves a text y position below every displayed,
        non-transparent GUI above it that does not span the screen height. */
    method AdjustYForGuis(yy: int, guisOffWhileDisabled: bool, fullHeight: int) returns (r: int)
      ensures guisOffWhileDisabled ==> r == yy
      ensures !guisOffWhileDisabled ==> r == AdjustYFrom(Views(), 0, yy, fullHeight)
      ensures r >= yy
    {
      if guisOffWhileDisabled {
        return yy;
      }
      var y := yy;
      var aa := 0;
      while aa < |guis|
        invariant 0 <= aa <= |guis|
        invariant AdjustYFrom(Views(), aa, y, fullHeight) == AdjustYFrom(Views(), 0, yy, fullHeight)
      {
        var g := guis[aa];
        if !g.IsDisplayed() || g.y > y {
        } else if (g.bgColor == 0 && g.bgImage < 1) || g.transparency == 255 {
        } else if g.height > fullHeight {
        } else if y < g.y + g.height {
          y := g.y + g.height + 2;
        }
        aa := aa + 1;
      }
      r := y;
    }
  }
}
