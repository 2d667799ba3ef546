// The editor's conversion of old-style interaction command lists into
// script text. The StringBuilder and the shared run-script counter become a
// ConversionOutput object; a thrown exception is an Err result. The sample
// script table, the game's names and the GUID generator are parameters.
module InteractionConversion {
  import opened Wrappers
  import opened CInt
  import ScriptString

  /** AppendLine's line terminator. */
  const NEWLINE: string := "\r\n"
  const SINGLE_RUN_MARKER: string := "$$SINGLE_RUN_SCRIPT$$"
  /** What *runScriptCount is set to by any command other than Run Script. */
  const NOT_SINGLE_RUN: int := 1000
  const IF_INV_WAS_USED: int := 20
  const INVALID_TYPE: string := "Invalid interaction type found"
  const TOO_MANY_EVENTS: string := "Invalid interaction data: too many interaction events"

  /** The five Data[k].Value arguments of a command. */
  datatype CommandArgs = CommandArgs(v0: int, v1: int, v2: int, v3: int, v4: int)

  /** InteractionCommandList: the commands of one response, in order. */
  datatype CommandList = CommandList(cmds: seq<InteractionCommand>)

  /** One command; `children` is None where the child list pointer is null. */
  datatype InteractionCommand = InteractionCommand(cmdType: int, args: CommandArgs, children: Option<CommandList>)

  /** The parts of AGS::Types::Game the conversion reads: character script
      names and old interaction variable script names. */
  datatype GameInfo = GameInfo(characterScriptNames: seq<string>, variableScriptNames: seq<string>)

  /** What stays fixed during one conversion. `sampleScript(t)` is the
      action table's script template for type t; `newGuid(k)` is the k-th
      GUID drawn; `target` is targetTypeForUnhandledEvent. */
  datatype Context = Context(prefix: string, game: Option<GameInfo>, sampleScript: int -> string,
                             newGuid: nat -> string, target: int)

  /** The StringBuilder's text, *runScriptCount, and how many GUIDs were drawn. */
  datatype Conversion = Conversion(text: string, runScriptCount: int, guidsDrawn: nat)

  /** Types whose action-table script is used as is, arguments substituted. */
  predicate IsSampleScriptType(t: int)
  {
    (3 <= t <= 11) || t == 13 || (15 <= t <= 17) || (20 <= t <= 22) || (24 <= t <= 32) || (36 <= t <= 47)
  }

  /** Every type the switch has a case for. */
  predicate IsKnownType(t: int)
  {
    0 <= t <= 2 || t == 12 || t == 14 || t == 18 || t == 19 || t == 23 || (33 <= t <= 35) || IsSampleScriptType(t)
  }

  /** Convert::ToChar(v + 'a'): code units outside 0..0xFFFF overflow. */
  predicate RunScriptCharOk(v: int)
  {
    var code := v + 97;
    (0 <= code < 0xD800) || (0xE000 <= code < 0x1_0000)
  }

  /** Indexing OldInteractionVariables with a negative number throws. */
  predicate VariableIndexOk(index: int, game: Option<GameInfo>)
  {
    game.None? || index >= |game.value.variableScriptNames| || index >= 0
  }

  /** The conditions under which one command converts without throwing. */
  predicate Convertible(c: InteractionCommand, game: Option<GameInfo>)
  {
    IsKnownType(c.cmdType) &&
    (c.cmdType == 1 ==> RunScriptCharOk(c.args.v0)) &&
    (c.cmdType == 23 || c.cmdType == 33 ==> VariableIndexOk(c.args.v0, game))
  }

  /** GetCharacterScriptName: the script name when the character exists and
      has a non-empty one, otherwise "character[<id>]". */
  function CharacterScriptName(charId: int, game: Option<GameInfo>): (name: string)
    ensures |name| > 0
  {
    if charId >= 0 && game.Some? && charId < |game.value.characterScriptNames|
       && |game.value.characterScriptNames[charId]| > 0
    then game.value.characterScriptNames[charId]
    else "character[" + IntToDecimal(charId) + "]"
  }

  /** The name an interaction variable is written under: its script name
      when the game lists it, otherwise the placeholder __INTRVAL$<n>$. */
  function VariableName(index: int, game: Option<GameInfo>): string
    requires VariableIndexOk(index, game)
  {
    if game.None? || index >= |game.value.variableScriptNames| then "__INTRVAL$" + IntToDecimal(index) + "$"
    else game.value.variableScriptNames[index]
  }

  function BlockingName(flag: int, ifSet: string, ifClear: string): string
  {
    if flag != 0 then ifSet else ifClear
  }

  /** The action-table template, behind "else " when it continues a chain of
      inventory-used tests, with $$1..$$4 replaced by the arguments. */
  function SampleScriptLine(c: InteractionCommand, template: string, onlyInv: bool, offset: nat): string
  {
    var s0 := if onlyInv && offset > 0 then "else " + template else template;
    var s1 := ScriptString.ReplaceSpec(s0, "$$1", IntToDecimal(c.args.v0), true);
    var s2 := ScriptString.ReplaceSpec(s1, "$$2", IntToDecimal(c.args.v1), true);
    var s3 := ScriptString.ReplaceSpec(s2, "$$3", IntToDecimal(c.args.v2), true);
    ScriptString.ReplaceSpec(s3, "$$4", IntToDecimal(c.args.v3), true)
  }

  /** Add Score On First Execution. */
  function DoOnceOnlyScore(guid: string, points: int): string
  {
    "if (Game.DoOnceOnly(\"" + guid + "\")) {\n  GiveScore(" + IntToDecimal(points) + ");\n}"
  }

  /** Run Script: a call of the event's function, whose letter is 'a' + v0. */
  function RunScriptCall(prefix: string, v0: int): string
    requires RunScriptCharOk(v0)
  {
    prefix + [(v0 + 97) as char] + "();"
  }

  /** Change Room: the position argument only when it is positive. */
  function ChangeRoomCall(a: CommandArgs): string
  {
    "player.ChangeRoomAutoPosition(" + IntToDecimal(a.v0) + (if a.v1 > 0 then ", " + IntToDecimal(a.v1) else "") + ");"
  }

  function MoveObjectCall(a: CommandArgs): string
  {
    "object[" + IntToDecimal(a.v0) + "].Move(" + IntToDecimal(a.v1) + ", " + IntToDecimal(a.v2) + ", "
      + IntToDecimal(a.v3) + ", " + BlockingName(a.v4, "eBlock", "eNoBlock") + ");"
  }

  function AnimateObjectCall(a: CommandArgs): string
  {
    "object[" + IntToDecimal(a.v0) + "].Animate(" + IntToDecimal(a.v1) + ", " + IntToDecimal(a.v2) + ", "
      + BlockingName(a.v3, "eRepeat", "eOnce") + ", eNoBlock);"
  }

  function WalkCharacterCall(a: CommandArgs, game: Option<GameInfo>): string
  {
    CharacterScriptName(a.v0, game) + ".Walk(" + IntToDecimal(a.v1) + ", " + IntToDecimal(a.v2) + ", "
      + BlockingName(a.v3, "eBlock", "eNoBlock") + ");"
  }

  /** IF variable set to value (type 23) or Set variable (type 33). */
  function VariableLine(isTest: bool, a: CommandArgs, game: Option<GameInfo>): string
    requires VariableIndexOk(a.v0, game)
  {
    var name := VariableName(a.v0, game);
    if isTest then "if (" + name + " == " + IntToDecimal(a.v1) + ") {"
    else name + " = " + IntToDecimal(a.v1) + ";"
  }

  function AnimateCharacterCall(a: CommandArgs, game: Option<GameInfo>): string
  {
    CharacterScriptName(a.v0, game) + ".Animate(" + IntToDecimal(a.v1) + ", " + IntToDecimal(a.v2) + ", eOnce, eBlock);"
  }

  /** Quick animation: lock the view, animate once, unlock. */
  function QuickAnimationCalls(a: CommandArgs, game: Option<GameInfo>): string
  {
    var name := CharacterScriptName(a.v0, game);
    name + ".LockView(" + IntToDecimal(a.v1) + ");\n"
      + name + ".Animate(" + IntToDecimal(a.v2) + ", " + IntToDecimal(a.v3) + ", eOnce, eBlock);\n"
      + name + ".UnlockView();"
  }

  /** The text ConvertInteractionToScript appends for command `c`, given the
      onlyIfInvWasUseds flag as already updated for `c`. */
  function CommandText(c: InteractionCommand, ctx: Context, onlyInv: bool, offset: nat, guid: string): (r: Result<string>)
    ensures r.Ok? <==> Convertible(c, ctx.game)
    ensures r.Ok? && c.cmdType == 0 ==> r.value == ""
    ensures r.Ok? && c.cmdType != 0 ==> |r.value| >= 2 && r.value[|r.value| - 2..] == NEWLINE
  {
    var a := c.args;
    var t := c.cmdType;
    if t == 0 then Ok("")
    else if t == 1 then
      if RunScriptCharOk(a.v0) then Ok(RunScriptCall(ctx.prefix, a.v0) + NEWLINE)
      else Err("Value was either too large or too small for a character.")
    else if t == 2 then Ok(DoOnceOnlyScore(guid, a.v0) + NEWLINE)
    else if t == 12 then Ok(ChangeRoomCall(a) + NEWLINE)
    else if t == 14 then Ok(MoveObjectCall(a) + NEWLINE)
    else if t == 18 then Ok(AnimateObjectCall(a) + NEWLINE)
    else if t == 19 then Ok(WalkCharacterCall(a, ctx.game) + NEWLINE)
    else if t == 23 || t == 33 then
      if VariableIndexOk(a.v0, ctx.game) then Ok(VariableLine(t == 23, a, ctx.game) + NEWLINE)
      else Err("Index was out of range.")
    else if t == 34 then Ok(AnimateCharacterCall(a, ctx.game) + NEWLINE)
    else if t == 35 then Ok(QuickAnimationCalls(a, ctx.game) + NEWLINE)
    else if IsSampleScriptType(t) then Ok(SampleScriptLine(c, ctx.sampleScript(t), onlyInv, offset) + NEWLINE)
    else Err(INVALID_TYPE)
  }

  /** ConvertInteractionToScript: one command at position `offset` of its
      list. Returns the new state and the new onlyIfInvWasUseds flag. */
  function ConvertCommand(c: InteractionCommand, ctx: Context, st: Conversion, onlyInv: bool, offset: nat): (r: Result<(Conversion, bool)>)
    ensures r.Ok? <==> Convertible(c, ctx.game)
    ensures r.Ok? ==> r.value.1 == (onlyInv && c.cmdType == IF_INV_WAS_USED)
    ensures r.Ok? ==> r.value.0.runScriptCount == (if c.cmdType == 1 then st.runScriptCount + 1 else NOT_SINGLE_RUN)
    ensures r.Ok? ==> |st.text| <= |r.value.0.text| && r.value.0.text[..|st.text|] == st.text
  {
    var only := if c.cmdType != IF_INV_WAS_USED then false else onlyInv;
    var count := if c.cmdType != 1 then NOT_SINGLE_RUN else st.runScriptCount + 1;
    match CommandText(c, ctx, only, offset, ctx.newGuid(st.guidsDrawn))
    case Err(m) => Err(m)
    case Ok(s) =>
      var drawn := if c.cmdType == 2 then st.guidsDrawn + 1 else st.guidsDrawn;
      Ok((Conversion(st.text + s, count, drawn), only))
  }

  /** The block appended after a non-empty list of inventory-used tests. */
  function UnhandledEventBlock(target: int): string
  {
    "else {" + NEWLINE + " unhandled_event(" + IntToDecimal(target) + ", 3);" + NEWLINE + "}" + NEWLINE
  }

  /** ConvertInteractionCommandList: every command in order (one with a
      child list is followed by the children's conversion and a closing
      brace), then the unhandled-event block when onlyIfInvWasUseds is still
      set, the target type is positive and the list is not empty. */
  function ConvertList(l: CommandList, ctx: Context, st: Conversion): Result<Conversion>
    decreases l, 1
  {
    match ConvertFrom(l, 0, ctx, st, true)
    case Err(m) => Err(m)
    case Ok(res) =>
      if res.1 && ctx.target > 0 && |l.cmds| > 0 then Ok(res.0.(text := res.0.text + UnhandledEventBlock(ctx.target)))
      else Ok(res.0)
  }

  /** The loop of ConvertInteractionCommandList from command i on. */
  function ConvertFrom(l: CommandList, i: nat, ctx: Context, st: Conversion, onlyInv: bool): Result<(Conversion, bool)>
    requires i <= |l.cmds|
    decreases l, 0, |l.cmds| - i + 1
  {
    if i == |l.cmds| then Ok((st, onlyInv))
    else
      match ConvertAt(l, i, ctx, st, onlyInv)
      case Err(m) => Err(m)
      case Ok(res) => ConvertFrom(l, i + 1, ctx, res.0, res.1)
  }

  /** One pass of the loop body: command i, then its child list, if any,
      and the closing brace after it. */
  function ConvertAt(l: CommandList, i: nat, ctx: Context, st: Conversion, onlyInv: bool): Result<(Conversion, bool)>
    requires i < |l.cmds|
    decreases l, 0, 0
  {
    var c := l.cmds[i];
    match ConvertCommand(c, ctx, st, onlyInv, i)
    case Err(m) => Err(m)
    case Ok(res) =>
      if c.children.None? then Ok(res)
      else
        match ConvertList(c.children.value, ctx, res.0)
        case Err(m) => Err(m)
        case Ok(st2) => Ok((st2.(text := st2.text + "}" + NEWLINE), res.1))
  }

  /** Every command of the tree converts without throwing. */
  predicate AllConvertible(l: CommandList, game: Option<GameInfo>)
    decreases l
  {
    forall j :: 0 <= j < |l.cmds| ==> TreeConvertible(l.cmds[j], game)
  }

  /** A command and all the commands below it convert without throwing. */
  predicate TreeConvertible(c: InteractionCommand, game: Option<GameInfo>)
    decreases c
  {
    Convertible(c, game) && (c.children.Some? ==> AllConvertible(c.children.value, game))
  }

  /** Every command of the list itself (not its children) has type t. */
  predicate AllOfType(l: CommandList, t: int)
  {
    forall j :: 0 <= j < |l.cmds| ==> l.cmds[j].cmdType == t
  }

  /** Every command of the tree is a Run Script command. */
  predicate AllRunScript(l: CommandList)
    decreases l
  {
    forall j :: 0 <= j < |l.cmds| ==> TreeRunScript(l.cmds[j])
  }

  /** A command and all the commands below it are Run Script commands. */
  predicate TreeRunScript(c: InteractionCommand)
    decreases c
  {
    c.cmdType == 1 && (c.children.Some? ==> AllRunScript(c.children.value))
  }

  /** Number of commands in the tree from position i of the top list on. */
  function SizeFrom(l: CommandList, i: nat): nat
    requires i <= |l.cmds|
    decreases l, |l.cmds| - i
  {
    if i == |l.cmds| then 0
    else 1 + (if l.cmds[i].children.Some? then SizeFrom(l.cmds[i].children.value, 0) else 0) + SizeFrom(l, i + 1)
  }

  // ---------------------------------------------------------------------
  // Which lists convert

  /** The conversion succeeds exactly when every command in the tree does. */
  lemma {:induction false} ConvertListOkIffAllConvertible(l: CommandList, ctx: Context, st: Conversion)
    ensures ConvertList(l, ctx, st).Ok? <==> AllConvertible(l, ctx.game)
    decreases l, 1
  {
    ConvertFromOkIff(l, 0, ctx, st, true);
  }

  lemma {:induction false} ConvertFromOkIff(l: CommandList, i: nat, ctx: Context, st: Conversion, onlyInv: bool)
    requires i <= |l.cmds|
    ensures ConvertFrom(l, i, ctx, st, onlyInv).Ok? <==> forall j :: i <= j < |l.cmds| ==> TreeConvertible(l.cmds[j], ctx.game)
    decreases l, 0, |l.cmds| - i + 1
  {
    if i < |l.cmds| {
      ConvertAtOkIff(l, i, ctx, st, onlyInv);
      var r := ConvertAt(l, i, ctx, st, onlyInv);
      if r.Ok? {
        ConvertFromOkIff(l, i + 1, ctx, r.value.0, r.value.1);
      }
    }
  }

  lemma {:induction false} ConvertAtOkIff(l: CommandList, i: nat, ctx: Context, st: Conversion, onlyInv: bool)
    requires i < |l.cmds|
    ensures ConvertAt(l, i, ctx, st, onlyInv).Ok? <==> TreeConvertible(l.cmds[i], ctx.game)
    decreases l, 0, 0
  {
    var c := l.cmds[i];
    var r := ConvertCommand(c, ctx, st, onlyInv, i);
    if r.Ok? && c.children.Some? {
      ConvertListOkIffAllConvertible(c.children.value, ctx, r.value.0);
    }
  }

  // ---------------------------------------------------------------------
  // The unhandled-event block

  /** After the loop, onlyIfInvWasUseds is still set exactly when it was set
      on entry and every command from i on was an inventory-used test. */
  lemma {:induction false} OnlyInvFlagAfterLoop(l: CommandList, i: nat, ctx: Context, st: Conversion, onlyInv: bool)
    requires i <= |l.cmds|
    requires ConvertFrom(l, i, ctx, st, onlyInv).Ok?
    ensures ConvertFrom(l, i, ctx, st, onlyInv).value.1 ==
      (onlyInv && forall j :: i <= j < |l.cmds| ==> l.cmds[j].cmdType == IF_INV_WAS_USED)
    decreases |l.cmds| - i
  {
    if i < |l.cmds| {
      var res := ConvertAt(l, i, ctx, st, onlyInv).value;
      assert res.1 == (onlyInv && l.cmds[i].cmdType == IF_INV_WAS_USED);
      OnlyInvFlagAfterLoop(l, i + 1, ctx, res.0, res.1);
    }
  }

  /** A converted list ends with `else { unhandled_event(t, 3); }` exactly
      when all its own commands are inventory-used tests, t > 0 and the
      list is not empty; otherwise the text is the commands' text alone. */
  lemma UnhandledEventIffAllInventoryTests(l: CommandList, ctx: Context, st: Conversion)
    requires ConvertList(l, ctx, st).Ok?
    ensures ConvertList(l, ctx, st).value.text ==
      ConvertFrom(l, 0, ctx, st, true).value.0.text +
      (if AllOfType(l, IF_INV_WAS_USED) && ctx.target > 0 && |l.cmds| > 0 then UnhandledEventBlock(ctx.target) else "")
  {
    OnlyInvFlagAfterLoop(l, 0, ctx, st, true);
  }

  // ---------------------------------------------------------------------
  // The run-script counter

  /** Over a tree of Run Script commands the counter grows by the number of
      commands; a tree holding any other command leaves it at 1000 or more,
      and once at 1000 or more it stays there. */
  lemma {:induction false} RunScriptCountOfList(l: CommandList, ctx: Context, st: Conversion)
    requires st.runScriptCount >= 0
    requires ConvertList(l, ctx, st).Ok?
    ensures var n := ConvertList(l, ctx, st).value.runScriptCount;
      n >= 0 && (st.runScriptCount >= NOT_SINGLE_RUN ==> n >= NOT_SINGLE_RUN) &&
      (AllRunScript(l) ==> n == st.runScriptCount + SizeFrom(l, 0)) &&
      (!AllRunScript(l) ==> n >= NOT_SINGLE_RUN)
    decreases l, 1
  {
    RunScriptCountFrom(l, 0, ctx, st, true);
  }

  lemma {:induction false} RunScriptCountFrom(l: CommandList, i: nat, ctx: Context, st: Conversion, onlyInv: bool)
    requires i <= |l.cmds|
    requires st.runScriptCount >= 0
    requires ConvertFrom(l, i, ctx, st, onlyInv).Ok?
    ensures var n := ConvertFrom(l, i, ctx, st, onlyInv).value.0.runScriptCount;
      var allRun := forall j :: i <= j < |l.cmds| ==> TreeRunScript(l.cmds[j]);
      n >= 0 && (st.runScriptCount >= NOT_SINGLE_RUN ==> n >= NOT_SINGLE_RUN) &&
      (allRun ==> n == st.runScriptCount + SizeFrom(l, i)) &&
      (!allRun ==> n >= NOT_SINGLE_RUN)
    decreases l, 0, |l.cmds| - i + 1
  {
    if i < |l.cmds| {
      RunScriptCountAt(l, i, ctx, st, onlyInv);
      var res := ConvertAt(l, i, ctx, st, onlyInv).value;
      RunScriptCountFrom(l, i + 1, ctx, res.0, res.1);
    }
  }

  lemma {:induction false} RunScriptCountAt(l: CommandList, i: nat, ctx: Context, st: Conversion, onlyInv: bool)
    requires i < |l.cmds|
    requires st.runScriptCount >= 0
    requires ConvertAt(l, i, ctx, st, onlyInv).Ok?
    ensures var n := ConvertAt(l, i, ctx, st, onlyInv).value.0.runScriptCount;
      var c := l.cmds[i];
      n >= 0 && (st.runScriptCount >= NOT_SINGLE_RUN ==> n >= NOT_SINGLE_RUN) &&
      (TreeRunScript(c) ==> n == st.runScriptCount + 1 + (if c.children.Some? then SizeFrom(c.children.value, 0) else 0)) &&
      (!TreeRunScript(c) ==> n >= NOT_SINGLE_RUN)
    decreases l, 0, 0
  {
    var c := l.cmds[i];
    var res := ConvertCommand(c, ctx, st, onlyInv, i).value;
    assert res.0.runScriptCount == (if c.cmdType == 1 then st.runScriptCount + 1 else NOT_SINGLE_RUN);
    if c.children.Some? {
      var st2 := ConvertList(c.children.value, ctx, res.0).value;
      assert ConvertAt(l, i, ctx, st, onlyInv).value.0.runScriptCount == st2.runScriptCount;
      RunScriptCountOfList(c.children.value, ctx, res.0);
    } else {
      assert ConvertAt(l, i, ctx, st, onlyInv).value.0 == res.0;
    }
  }

  /** An event's script gets the single-run marker exactly when its response
      is one Run Script command and nothing else. */
  lemma SingleRunScriptIffOneRunScript(l: CommandList, ctx: Context)
    requires ConvertList(l, ctx, Conversion("", 0, 0)).Ok?
    ensures ConvertList(l, ctx, Conversion("", 0, 0)).value.runScriptCount == 1 <==>
      AllRunScript(l) && SizeFrom(l, 0) == 1
  {
    RunScriptCountOfList(l, ctx, Conversion("", 0, 0));
  }

  // ---------------------------------------------------------------------
  // Events

  /** The script imported for one event's response. */
  function EventScript(l: CommandList, ctx: Context): (r: Result<string>)
    ensures r.Ok? <==> AllConvertible(l, ctx.game)
  {
    ConvertListOkIffAllConvertible(l, ctx, Conversion("", 0, 0));
    match ConvertList(l, ctx, Conversion("", 0, 0))
    case Err(m) => Err(m)
    case Ok(st) => Ok(if st.runScriptCount == 1 then st.text + SINGLE_RUN_MARKER else st.text)
  }

  function EventContext(prefix: string, game: Option<GameInfo>, sampleScript: int -> string,
                        newGuids: nat -> nat -> string, target: int, event: nat): Context
  {
    Context(prefix, game, sampleScript, newGuids(event), target)
  }

  /** The StringBuilder and the counter of one conversion in progress. */
  class ConversionOutput {
    var text: string
    var runScriptCount: int
    var guidsDrawn: nat

    constructor ()
      ensures State() == Conversion("", 0, 0)
    {
      text := "";
      runScriptCount := 0;
      guidsDrawn := 0;
    }

    function State(): Conversion
      reads this
    {
      Conversion(text, runScriptCount, guidsDrawn)
    }

    method SetState(st: Conversion)
      modifies this
      ensures State() == st
    {
      text, runScriptCount, guidsDrawn := st.text, st.runScriptCount, st.guidsDrawn;
    }
  }

  /** ConvertInteractionCommandList over `out`: on success `out` holds what
      the specification produces, and it fails exactly where it does. */
  method ConvertInteractionCommandList(out: ConversionOutput, l: CommandList, ctx: Context) returns (error: Option<string>)
    modifies out
    decreases l
    ensures var e := ConvertList(l, ctx, old(out.State()));
      (error.None? <==> e.Ok?) && (e.Ok? ==> out.State() == e.value)
  {
    ghost var st0 := out.State();
    var onlyInv := true;
    var i := 0;
    while i < |l.cmds|
      invariant 0 <= i <= |l.cmds|
      invariant ConvertFrom(l, 0, ctx, st0, true) == ConvertFrom(l, i, ctx, out.State(), onlyInv)
    {
      var c := l.cmds[i];
      var r := ConvertCommand(c, ctx, out.State(), onlyInv, i);
      if r.Err? {
        return Some(r.msg);
      }
      out.SetState(r.value.0);
      onlyInv := r.value.1;
      if c.children.Some? {
        var childError := ConvertInteractionCommandList(out, c.children.value, ctx);
        if childError.Some? {
          return childError;
        }
        out.text := out.text + "}" + NEWLINE;
      }
      i := i + 1;
    }
    if onlyInv && ctx.target > 0 && |l.cmds| > 0 {
      out.text := out.text + UnhandledEventBlock(ctx.target);
    }
    return None;
  }

  /** ConvertInteractions: too many events throws before anything is
      written; otherwise each event with a response gets its script (and the
      single-run marker when its only command was one Run Script). */
  method ConvertInteractions(events: seq<Option<CommandList>>, importedScripts: array<string>, prefix: string,
                             game: Option<GameInfo>, sampleScript: int -> string, newGuids: nat -> nat -> string,
                             target: int) returns (error: Option<string>)
    modifies importedScripts
    ensures |events| > importedScripts.Length ==> error == Some(TOO_MANY_EVENTS) && importedScripts[..] == old(importedScripts[..])
    ensures |events| <= importedScripts.Length ==>
      (error.None? <==> forall i :: 0 <= i < |events| && events[i].Some? ==> AllConvertible(events[i].value, game))
    ensures error.None? ==> forall i :: 0 <= i < importedScripts.Length ==>
      importedScripts[i] == (if i < |events| && events[i].Some?
                             then EventScript(events[i].value, EventContext(prefix, game, sampleScript, newGuids, target, i)).value
                             else old(importedScripts[i]))
  {
    if |events| > importedScripts.Length {
      return Some(TOO_MANY_EVENTS);
    }
    var i := 0;
    while i < |events|
      invariant 0 <= i <= |events|
      invariant forall j :: 0 <= j < i && events[j].Some? ==> AllConvertible(events[j].value, game)
      invariant forall j :: 0 <= j < importedScripts.Length ==>
        importedScripts[j] == (if j < i && events[j].Some?
                               then EventScript(events[j].value, EventContext(prefix, game, sampleScript, newGuids, target, j)).value
                               else old(importedScripts[j]))
    {
      if events[i].Some? {
        var ctx := EventContext(prefix, game, sampleScript, newGuids, target, i);
        var out := new ConversionOutput();
        var convError := ConvertInteractionCommandList(out, events[i].value, ctx);
        ConvertListOkIffAllConvertible(events[i].value, ctx, Conversion("", 0, 0));
        if convError.Some? {
          return convError;
        }
        var script := out.text;
        if out.runScriptCount == 1 {
          script := script + SINGLE_RUN_MARKER;
        }
        importedScripts[i] := script;
      }
      i := i + 1;
    }
    return None;
  }
}
