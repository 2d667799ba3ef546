// The engine's built-in dialog system (CSCI): a fixed table of on-screen
// windows stacked by "previous top" links, and a fixed table of controls,
// each tagged with the window level it was created on. Drawing, input and
// the controls' own behaviour are not modelled: a control's reply to a
// message and the width of a button title are parameters.
module CsciDialog {
  import opened Wrappers
  import opened CInt

  const MAXCONTROLS: int := 20
  const MAXSCREENWINDOWS: int := 5
  const TOO_MANY_WINDOWS: string := "Too many windows created."
  const TOO_MANY_CONTROLS: string := "Too many controls created"
  const UNKNOWN_CONTROL_TYPE: string := "Unknown control type requested"
  /** What a push button adds to its title's width when none is given. */
  const BUTTON_TITLE_PADDING: int := 20

  /** A window slot; a negative handle marks it free. */
  datatype OnScreenWindow = OnScreenWindow(x: int, y: int, handle: int, oldtop: int)

  const FREE_WINDOW: OnScreenWindow := OnScreenWindow(0, 0, -1, -1)

  datatype ControlKind = PushButton | ListBox | Label | TextBox

  /** The control type codes of the dialog header. */
  const CNT_PUSHBUTTON: int := 0x001
  const CNT_LISTBOX: int := 0x002
  const CNT_LABEL: int := 0x003
  const CNT_TEXTBOX: int := 0x004

  /** A control with the arguments it was created with: labels and text
      boxes take no height, list boxes no title. */
  datatype NewControl = NewControl(kind: ControlKind, typeAndFlags: int, wlevel: int, x: int, y: int,
                                   width: int, height: Option<int>, title: Option<string>)

  /** The globals the window functions update. */
  datatype Desk = Desk(windows: seq<OnScreenWindow>, top: int, count: int, ignoreBounds: int,
                       winX: int, winY: int, winWidth: int, winHeight: int)

  /** The UI's base width and the game's pixel upscale factor. */
  datatype UiEnv = UiEnv(baseWidth: int, upscale: int)

  // ---------------------------------------------------------------------
  // Coordinate scaling

  /** get_fixed_pixel_size: a coordinate scaled by the upscale factor. */
  function FixedPixelSize(env: UiEnv, coord: int): int
  {
    coord * env.upscale
  }

  /** multiply_up for one horizontal coordinate: fixed scaling, then 5/4
      for 400- and 800-wide UIs and 16/10 for 1024-wide ones (C division). */
  function ScaleX(env: UiEnv, x: int): int
  {
    var v := FixedPixelSize(env, x);
    if env.baseWidth == 400 || env.baseWidth == 800 then CDiv(v * 5, 4)
    else if env.baseWidth == 1024 then CDiv(v * 16, 10)
    else v
  }

  /** ... and for one vertical coordinate: 3/2, or 384/200. */
  function ScaleY(env: UiEnv, y: int): int
  {
    var v := FixedPixelSize(env, y);
    if env.baseWidth == 400 || env.baseWidth == 800 then CDiv(v * 3, 2)
    else if env.baseWidth == 1024 then CDiv(v * 384, 200)
    else v
  }

  /** multiply_up: the two points (or a position and a size) scaled. */
  function MultiplyUp(env: UiEnv, x1: int, y1: int, x2: int, y2: int): (r: (int, int, int, int))
    ensures r == (ScaleX(env, x1), ScaleY(env, y1), ScaleX(env, x2), ScaleY(env, y2))
  {
    (ScaleX(env, x1), ScaleY(env, y1), ScaleX(env, x2), ScaleY(env, y2))
  }

  /** Scaling never shrinks a non-negative coordinate and at most doubles
      it, over the fixed pixel size; other base widths keep that size. */
  lemma ScalingBounds(env: UiEnv, c: int)
    requires c >= 0 && env.upscale >= 1
    ensures var v := c * env.upscale;
      v <= ScaleX(env, c) <= 2 * v && v <= ScaleY(env, c) <= 2 * v
    ensures env.baseWidth != 400 && env.baseWidth != 800 && env.baseWidth != 1024 ==>
      ScaleX(env, c) == c * env.upscale && ScaleY(env, c) == c * env.upscale
  {
    MulNonNegative(c, env.upscale);
  }

  // ---------------------------------------------------------------------
  // Windows

  /** The lowest free window slot at or after i, -1 when none is free. */
  function FirstFreeWindowFrom(ws: seq<OnScreenWindow>, i: nat): (r: int)
    requires i <= |ws|
    ensures r == -1 <==> forall j :: i <= j < |ws| ==> ws[j].handle >= 0
    ensures r != -1 ==> i <= r < |ws| && ws[r].handle < 0 && forall j :: i <= j < r ==> ws[j].handle >= 0
    decreases |ws| - i
  {
    if i == |ws| then -1
    else if ws[i].handle < 0 then i
    else FirstFreeWindowFrom(ws, i + 1)
  }

  /** Free slots hold no handle; a used slot's handle is its index; the top
      window and every "previous top" is a slot index or -1. */
  predicate ValidDesk(d: Desk)
  {
    |d.windows| == MAXSCREENWINDOWS && -1 <= d.top < MAXSCREENWINDOWS &&
    forall i :: 0 <= i < |d.windows| ==>
      (d.windows[i].handle < 0 || d.windows[i].handle == i) && -1 <= d.windows[i].oldtop < MAXSCREENWINDOWS
  }

  /** CSCIDrawWindow: the lowest free slot takes a window 2 pixels bigger
      on every side than the scaled rectangle, remembers the old top window
      and becomes the top; no free slot is fatal. */
  function DrawWindow(d: Desk, env: UiEnv, xx: int, yy: int, wid: int, hit: int): (r: Result<(Desk, int)>)
    requires |d.windows| == MAXSCREENWINDOWS
  {
    var slot := FirstFreeWindowFrom(d.windows, 0);
    if slot < 0 then Err(TOO_MANY_WINDOWS)
    else
      var (x, y, w, h) := MultiplyUp(env, xx, yy, wid, hit);
      var win := OnScreenWindow(x - 2, y - 2, slot, d.top);
      Ok((Desk(d.windows[slot := win], slot, d.count + 1, d.ignoreBounds + 1, x - 2, y - 2, w + 4, h + 4), slot))
  }

  /** CSCIEraseWindow: the window's previous top becomes the top again and
      its slot is freed. */
  function EraseWindow(d: Desk, handle: int): (r: Desk)
    requires 0 <= handle < |d.windows|
  {
    d.(windows := d.windows[handle := d.windows[handle].(handle := -1)],
       top := d.windows[handle].oldtop, count := d.count - 1, ignoreBounds := d.ignoreBounds - 1)
  }

  /** Drawing fails exactly when every slot is in use; otherwise it takes
      the lowest free slot, which becomes the top, and keeps the desk valid. */
  lemma DrawWindowTakesLowestFree(d: Desk, env: UiEnv, xx: int, yy: int, wid: int, hit: int)
    requires ValidDesk(d)
    ensures var r := DrawWindow(d, env, xx, yy, wid, hit);
      (r.Err? <==> forall j :: 0 <= j < |d.windows| ==> d.windows[j].handle >= 0) &&
      (r.Ok? ==> var (d', slot) := r.value;
        0 <= slot < MAXSCREENWINDOWS && d.windows[slot].handle < 0 &&
        (forall j :: 0 <= j < slot ==> d.windows[j].handle >= 0) &&
        d'.top == slot && d'.windows[slot].handle == slot && d'.windows[slot].oldtop == d.top &&
        d'.count == d.count + 1 && ValidDesk(d') &&
        forall j :: 0 <= j < MAXSCREENWINDOWS && j != slot ==> d'.windows[j] == d.windows[j])
  {
  }

  /** Erasing the window just drawn brings back the previous top window,
      the window count and the set of free slots. */
  lemma {:induction false} EraseUndoesDraw(d: Desk, env: UiEnv, xx: int, yy: int, wid: int, hit: int)
    requires ValidDesk(d) && DrawWindow(d, env, xx, yy, wid, hit).Ok?
    ensures var (d', slot) := DrawWindow(d, env, xx, yy, wid, hit).value;
      var e := EraseWindow(d', slot);
      e.top == d.top && e.count == d.count && e.ignoreBounds == d.ignoreBounds && ValidDesk(e) &&
      forall j :: 0 <= j < MAXSCREENWINDOWS ==> (e.windows[j].handle < 0 <==> d.windows[j].handle < 0)
  {
    var slot := FirstFreeWindowFrom(d.windows, 0);
    assert slot >= 0 && d.windows[slot].handle < 0;
  }

  // ---------------------------------------------------------------------
  // Controls

  /** The lowest empty control slot at or after i, -1 when none is. */
  function FirstFreeControlFrom(cs: seq<Option<NewControl>>, i: nat): (r: int)
    requires i <= |cs|
    ensures r == -1 <==> forall j :: i <= j < |cs| ==> cs[j].Some?
    ensures r != -1 ==> i <= r < |cs| && cs[r].None? && forall j :: i <= j < r ==> cs[j].Some?
    decreases |cs| - i
  {
    if i == |cs| then -1
    else if cs[i].None? then i
    else FirstFreeControlFrom(cs, i + 1)
  }

  /** typeandflags & flagmask is not zero, on 32-bit C ints. */
  predicate Intersects(a: int, b: int)
  {
    ((a % 0x1_0000_0000) as bv32) & ((b % 0x1_0000_0000) as bv32) != 0
  }

  /** The lowest slot at or after i holding a control on the top window
      level whose flags meet the mask, -1 when there is none. */
  function DefaultControlFrom(cs: seq<Option<NewControl>>, top: int, mask: int, i: nat): (r: int)
    requires i <= |cs|
    ensures r == -1 <==> forall j :: i <= j < |cs| ==> !IsDefaultFor(cs, j, top, mask)
    ensures r != -1 ==> (i <= r < |cs| && IsDefaultFor(cs, r, top, mask) &&
                         forall j :: i <= j < r ==> !IsDefaultFor(cs, j, top, mask))
    decreases |cs| - i
  {
    if i == |cs| then -1
    else if IsDefaultFor(cs, i, top, mask) then i
    else DefaultControlFrom(cs, top, mask, i + 1)
  }

  predicate IsDefaultFor(cs: seq<Option<NewControl>>, j: int, top: int, mask: int)
    requires 0 <= j < |cs|
  {
    cs[j].Some? && cs[j].value.wlevel == top && Intersects(cs[j].value.typeAndFlags, mask)
  }

  /** The control type is the low byte of typeandflags. */
  function ControlType(typeAndFlags: int): (t: int)
    ensures 0 <= t < 256
  {
    typeAndFlags % 256
  }

  /** The kind of control a type code names, if any. */
  function KindOf(t: int): (k: Option<ControlKind>)
    ensures k.Some? <==> CNT_PUSHBUTTON <= t <= CNT_TEXTBOX
    ensures k == Some(PushButton) <==> t == CNT_PUSHBUTTON
    ensures k == Some(ListBox) <==> t == CNT_LISTBOX
    ensures k == Some(Label) <==> t == CNT_LABEL
    ensures k == Some(TextBox) <==> t == CNT_TEXTBOX
  {
    if t == CNT_PUSHBUTTON then Some(PushButton)
    else if t == CNT_LISTBOX then Some(ListBox)
    else if t == CNT_LABEL then Some(Label)
    else if t == CNT_TEXTBOX then Some(TextBox)
    else None
  }

  /** The control CSCICreateControl builds, from the kind its type byte
      names (none for an unknown type). */
  function BuildControl(kind: ControlKind, typeAndFlags: int, top: int, x: int, y: int, w: int, h: int,
                        title: string, titleWidth: int): NewControl
  {
    match kind
    case PushButton =>
      NewControl(kind, typeAndFlags, top, x, y, if w == -1 then titleWidth + BUTTON_TITLE_PADDING else w, Some(h), Some(title))
    case ListBox => NewControl(kind, typeAndFlags, top, x, y, w, Some(h), None)
    case Label => NewControl(kind, typeAndFlags, top, x, y, w, None, Some(title))
    case TextBox => NewControl(kind, typeAndFlags, top, x, y, w, None, Some(title))
  }

  /** CSCICreateControl on the slot table: slot 0 is never used; no free
      slot and an unknown type are fatal. */
  function CreateControl(cs: seq<Option<NewControl>>, top: int, env: UiEnv,
                         typeAndFlags: int, xx: int, yy: int, wii: int, hii: int, title: string, titleWidth: int)
    : (r: Result<(seq<Option<NewControl>>, int)>)
    requires |cs| == MAXCONTROLS
  {
    var slot := FirstFreeControlFrom(cs, 1);
    if slot < 0 then Err(TOO_MANY_CONTROLS)
    else
      var (x, y, w, h) := MultiplyUp(env, xx, yy, wii, hii);
      var kind := KindOf(ControlType(typeAndFlags));
      if kind.None? then Err(UNKNOWN_CONTROL_TYPE)
      else Ok((cs[slot := Some(BuildControl(kind.value, typeAndFlags, top, x, y, w, h, title, titleWidth))], slot))
  }

  /** A new control goes in the lowest empty slot above 0, on the top
      window's level, with the full typeandflags; slot 0 is left alone. */
  lemma CreateTakesLowestFreeAboveZero(cs: seq<Option<NewControl>>, top: int, env: UiEnv,
                                       typeAndFlags: int, xx: int, yy: int, wii: int, hii: int, title: string, titleWidth: int)
    requires |cs| == MAXCONTROLS
    ensures var r := CreateControl(cs, top, env, typeAndFlags, xx, yy, wii, hii, title, titleWidth);
      ((forall j :: 1 <= j < MAXCONTROLS ==> cs[j].Some?) ==> r == Err(TOO_MANY_CONTROLS)) &&
      ((exists j :: 1 <= j < MAXCONTROLS && cs[j].None?) ==>
         (r == Err(UNKNOWN_CONTROL_TYPE) <==> !(CNT_PUSHBUTTON <= typeAndFlags % 256 <= CNT_TEXTBOX))) &&
      (r.Ok? ==> var (cs', slot) := r.value;
        1 <= slot < MAXCONTROLS && cs[slot].None? && (forall j :: 1 <= j < slot ==> cs[j].Some?) &&
        |cs'| == MAXCONTROLS && cs'[0] == cs[0] && cs'[slot].Some? &&
        cs'[slot].value.wlevel == top && cs'[slot].value.typeAndFlags == typeAndFlags &&
        Some(cs'[slot].value.kind) == KindOf(typeAndFlags % 256) &&
        forall j :: 0 <= j < MAXCONTROLS && j != slot ==> cs'[j] == cs[j])
  {
  }

  /** Deleting the control just created gives back the table as it was. */
  lemma DeleteUndoesCreate(cs: seq<Option<NewControl>>, top: int, env: UiEnv,
                           typeAndFlags: int, xx: int, yy: int, wii: int, hii: int, title: string, titleWidth: int)
    requires |cs| == MAXCONTROLS
    requires CreateControl(cs, top, env, typeAndFlags, xx, yy, wii, hii, title, titleWidth).Ok?
    ensures var (cs', slot) := CreateControl(cs, top, env, typeAndFlags, xx, yy, wii, hii, title, titleWidth).value;
      cs'[slot := None] == cs
  {
    var slot := FirstFreeControlFrom(cs, 1);
    assert cs[slot] == None;
  }

  // ---------------------------------------------------------------------
  // The dialog system's global tables

  class CsciDialogs {
    const oswi: array<OnScreenWindow>
    const vobjs: array<Option<NewControl>>
    var topwindowhandle: int
    var windowcount: int
    var ignoreBounds: int
    var winX: int
    var winY: int
    var winWidth: int
    var winHeight: int

    function CurrentDesk(): Desk
      reads this, oswi
    {
      Desk(oswi[..], topwindowhandle, windowcount, ignoreBounds, winX, winY, winWidth, winHeight)
    }

    predicate Valid()
      reads this, oswi
    {
      vobjs.Length == MAXCONTROLS && ValidDesk(CurrentDesk())
    }

    /** Every window and control slot starts free; there is no top window. */
    constructor ()
      ensures Valid() && fresh(oswi) && fresh(vobjs)
      ensures oswi[..] == seq(MAXSCREENWINDOWS, _ => FREE_WINDOW) && vobjs[..] == seq(MAXCONTROLS, _ => None)
      ensures topwindowhandle == -1 && windowcount == 0
    {
      oswi := new OnScreenWindow[MAXSCREENWINDOWS](_ => FREE_WINDOW);
      vobjs := new Option<NewControl>[MAXCONTROLS](_ => None);
      topwindowhandle := -1;
      windowcount := 0;
      ignoreBounds := 0;
      winX, winY, winWidth, winHeight := 0, 0, 0, 0;
    }

    method CSCIDrawWindow(env: UiEnv, xx: int, yy: int, wid: int, hit: int) returns (r: Result<int>)
      requires Valid()
      modifies this, oswi
      ensures Valid()
      ensures var expected := DrawWindow(old(CurrentDesk()), env, xx, yy, wid, hit);
        if expected.Err? then r == Err(expected.msg) && CurrentDesk() == old(CurrentDesk())
        else r == Ok(expected.value.1) && CurrentDesk() == expected.value.0
    {
      var drawit := -1;
      var aa := 0;
      while aa < MAXSCREENWINDOWS
        invariant 0 <= aa <= MAXSCREENWINDOWS
        invariant forall j :: 0 <= j < aa ==> oswi[j].handle >= 0
        invariant FirstFreeWindowFrom(oswi[..], aa) == FirstFreeWindowFrom(oswi[..], 0)
      {
        if oswi[aa].handle < 0 {
          drawit := aa;
          break;
        }
        aa := aa + 1;
      }
      if drawit < 0 {
        return Err(TOO_MANY_WINDOWS);
      }
      ignoreBounds := ignoreBounds + 1;
      var (x, y, w, h) := MultiplyUp(env, xx, yy, wid, hit);
      windowcount := windowcount + 1;
      x, y, w, h := x - 2, y - 2, w + 4, h + 4;
      oswi[drawit] := OnScreenWindow(x, y, drawit, topwindowhandle);
      topwindowhandle := drawit;
      winX, winY, winWidth, winHeight := x, y, w, h;
      r := Ok(drawit);
    }

    method CSCIEraseWindow(handl: int)
      requires Valid() && 0 <= handl < MAXSCREENWINDOWS
      modifies this, oswi
      ensures Valid() && CurrentDesk() == EraseWindow(old(CurrentDesk()), handl)
    {
      ignoreBounds := ignoreBounds - 1;
      topwindowhandle := oswi[handl].oldtop;
      oswi[handl] := oswi[handl].(handle := -1);
      windowcount := windowcount - 1;
    }

    method CSCICreateControl(env: UiEnv, typeAndFlags: int,
                             xx: int, yy: int, wii: int, hii: int, title: string, titleWidth: int)
      returns (r: Result<int>)
      requires Valid()
      modifies vobjs
      ensures var expected := CreateControl(old(vobjs[..]), topwindowhandle, env, typeAndFlags, xx, yy, wii, hii, title, titleWidth);
        if expected.Err? then r == Err(expected.msg) && vobjs[..] == old(vobjs[..])
        else r == Ok(expected.value.1) && vobjs[..] == expected.value.0
    {
      var (x, y, w, h) := MultiplyUp(env, xx, yy, wii, hii);
      var usec := -1;
      var hh := 1;
      while hh < MAXCONTROLS
        invariant 1 <= hh <= MAXCONTROLS
        invariant forall j :: 1 <= j < hh ==> vobjs[j].Some?
        invariant FirstFreeControlFrom(vobjs[..], hh) == FirstFreeControlFrom(vobjs[..], 1)
      {
        if vobjs[hh].None? {
          usec := hh;
          break;
        }
        hh := hh + 1;
      }
      if usec < 0 {
        return Err(TOO_MANY_CONTROLS);
      }
      var kind := KindOf(ControlType(typeAndFlags));
      if kind.None? {
        return Err(UNKNOWN_CONTROL_TYPE);
      }
      vobjs[usec] := Some(BuildControl(kind.value, typeAndFlags, topwindowhandle, x, y, w, h, title, titleWidth));
      r := Ok(usec);
    }

    method CSCIDeleteControl(haa: int)
      requires Valid() && 0 <= haa < MAXCONTROLS
      modifies vobjs
      ensures vobjs[..] == old(vobjs[..])[haa := None]
    {
      vobjs[haa] := None;
    }

    /** CSCISendControlMessage: -1 for an empty slot, otherwise the
        control's own reply. */
    method CSCISendControlMessage(haa: int, reply: int) returns (r: int)
      requires Valid() && 0 <= haa < MAXCONTROLS
      ensures vobjs[haa].None? ==> r == -1
      ensures vobjs[haa].Some? ==> r == reply
    {
      if vobjs[haa].None? {
        return -1;
      }
      return reply;
    }

    /** finddefaultcontrol: the lowest slot with a control on the top
        window's level whose flags meet the mask, -1 when none. */
    method FindDefaultControl(flagmask: int) returns (r: int)
      requires Valid()
      ensures r == DefaultControlFrom(vobjs[..], topwindowhandle, flagmask, 0)
      ensures r == -1 <==> forall j :: 0 <= j < MAXCONTROLS ==> !IsDefaultFor(vobjs[..], j, topwindowhandle, flagmask)
    {
      var ff := 0;
      while ff < MAXCONTROLS
        invariant 0 <= ff <= MAXCONTROLS
        invariant DefaultControlFrom(vobjs[..], topwindowhandle, flagmask, ff) == DefaultControlFrom(vobjs[..], topwindowhandle, flagmask, 0)
      {
        if vobjs[ff].None? {
          ff := ff + 1;
          continue;
        }
        if vobjs[ff].value.wlevel != topwindowhandle {
          ff := ff + 1;
          continue;
        }
        if Intersects(vobjs[ff].value.typeAndFlags, flagmask) {
          return ff;
        }
        ff := ff + 1;
      }
      return -1;
    }
  }
}
