/**
 * `TerminalViewModel`: the terminal screen's state (output lines, the input
 * field, the command history and the position of history navigation) and the
 * handling of a typed line: echo, history, built-in commands, parsing and
 * validation, and the hand-off of a valid command to the device link.
 */
module Terminal {
  import opened Wrappers
  import opened Text
  import opened ProxmarkCommands
  import ProxmarkCommandParser
  import CommandTranslator
  import Connection

  datatype TerminalLineType = COMMAND | RESPONSE | ERROR | INFO | OUTPUT

  /** `TerminalLine`, without its creation timestamp. */
  datatype TerminalLine = TerminalLine(text: string, kind: TerminalLineType)

  const MAX_OUTPUT: nat := 1000
  const MAX_HISTORY: nat := 100

  const Welcome: seq<TerminalLine> := [
    TerminalLine("Chameleon Ultra Terminal", INFO),
    TerminalLine("Type 'help' for available commands", INFO),
    TerminalLine("", OUTPUT)
  ]

  const Cleared: seq<TerminalLine> := [
    TerminalLine("Terminal cleared", INFO),
    TerminalLine("", OUTPUT)
  ]

  // The texts `executeCommand` writes and the built-in keywords it recognises.
  const PROMPT := "proxmark3> "
  const MSG_INVALID_FORMAT := "Invalid command format"
  const MSG_UNKNOWN := "Unknown command: "
  const MSG_DID_YOU_MEAN := "Did you mean: "
  const MSG_GOODBYE := "Goodbye!"
  const MSG_NOT_CONNECTED := "Device not connected"
  const MSG_NOT_SUPPORTED := "Command not supported: "
  const MSG_EXECUTING := "Executing: "
  const MSG_SEND_FAILED := "Failed to send command"
  const KEY_HELP := "help"
  const KEY_CLEAR := "clear"
  const KEY_CLS := "cls"
  const KEY_QUIT := "quit"
  const KEY_EXIT := "exit"

  /**
   * Appending to a list kept at most `cap` long: when the list outgrows the
   * cap, its oldest element is removed.
   */
  function Capped<T>(s: seq<T>, x: T, cap: nat): (r: seq<T>)
    requires cap >= 1
    ensures |s| <= cap ==> |r| <= cap
    ensures r != [] && r[|r| - 1] == x
    ensures |s| < cap ==> r == s + [x]
    ensures |s| >= cap ==> r == s[1..] + [x]
  {
    var grown := s + [x];
    if |grown| > cap then grown[1..] else grown
  }

  /** Several `addOutputLine` calls in a row. */
  function AppendAll(out: seq<TerminalLine>, lines: seq<TerminalLine>): (r: seq<TerminalLine>)
    decreases |lines|
  {
    if lines == [] then out
    else Capped(AppendAll(out, lines[..|lines| - 1]), lines[|lines| - 1], MAX_OUTPUT)
  }

  lemma {:induction false} AppendAllBound(out: seq<TerminalLine>, lines: seq<TerminalLine>)
    requires |out| <= MAX_OUTPUT
    ensures |AppendAll(out, lines)| <= MAX_OUTPUT
    decreases |lines|
  {
    if lines != [] {
      AppendAllBound(out, lines[..|lines| - 1]);
    }
  }

  /** Below the cap, appending several lines is concatenation. */
  lemma {:induction false} AppendAllSmall(out: seq<TerminalLine>, lines: seq<TerminalLine>)
    requires |out| + |lines| <= MAX_OUTPUT
    ensures AppendAll(out, lines) == out + lines
    decreases |lines|
  {
    if lines != [] {
      var init := lines[..|lines| - 1];
      AppendAllSmall(out, init);
      assert init + [lines[|lines| - 1]] == lines;
    }
  }

  lemma AppendAllSnoc(out: seq<TerminalLine>, lines: seq<TerminalLine>, x: TerminalLine)
    ensures AppendAll(out, lines + [x]) == Capped(AppendAll(out, lines), x, MAX_OUTPUT)
  {
    assert (lines + [x])[..|lines|] == lines;
  }

  lemma AppendAllOne(out: seq<TerminalLine>, x: TerminalLine)
    ensures AppendAll(out, [x]) == Capped(out, x, MAX_OUTPUT)
  {
    assert [x][..0] == [];
  }

  lemma AppendAllTwo(out: seq<TerminalLine>, x: TerminalLine, y: TerminalLine)
    ensures AppendAll(out, [x, y]) == Capped(Capped(out, x, MAX_OUTPUT), y, MAX_OUTPUT)
  {
    AppendAllOne(out, x);
    AppendAllSnoc(out, [x], y);
    assert [x] + [y] == [x, y];
  }

  /** The help texts as `INFO` lines. */
  function InfoLines(texts: seq<string>): (r: seq<TerminalLine>)
    ensures |r| == |texts|
    ensures forall k :: 0 <= k < |r| ==> r[k] == TerminalLine(texts[k], INFO)
  {
    seq(|texts|, k requires 0 <= k < |texts| => TerminalLine(texts[k], INFO))
  }

  /** The commands `executeCommand` handles itself, by their lowercased text. */
  datatype Builtin = Help | Clear | Quit | NotBuiltin

  function ClassifyBuiltin(key: string): (b: Builtin)
    ensures b == Help <==> key == KEY_HELP
    ensures b == Clear <==> key == KEY_CLEAR || key == KEY_CLS
    ensures b == Quit <==> key == KEY_QUIT || key == KEY_EXIT
  {
    if key == KEY_HELP then Help
    else if key == KEY_CLEAR || key == KEY_CLS then Clear
    else if key == KEY_QUIT || key == KEY_EXIT then Quit
    else NotBuiltin
  }

  function Echo(trimmed: string): TerminalLine
  {
    TerminalLine(PROMPT + trimmed, COMMAND)
  }

  /** The help listing as output lines. */
  function HelpLines(): (r: seq<TerminalLine>)
    ensures |r| == 10
  {
    InfoLines(CommandTranslator.GetAvailableCommands())
  }

  /** How the parse and catalog checks judge a line that is not a built-in. */
  datatype Verdict =
    | Malformed
    | Accepted(command: ProxmarkCommand)
    | Unknown(command: ProxmarkCommand, suggestions: seq<string>)

  /** `parseCommand`, then `isValidCommand`, then `getCommandSuggestions` for an unknown keyword. */
  function Judge(trimmed: string): (v: Verdict)
    ensures v.Malformed? <==> ProxmarkCommandParser.ParseCommand(trimmed).None?
    ensures !v.Malformed? ==> ProxmarkCommandParser.ParseCommand(trimmed) == Some(v.command)
    ensures v.Accepted? <==> !v.Malformed? && ProxmarkCommandParser.IsValidCommand(v.command.command)
  {
    match ProxmarkCommandParser.ParseCommand(trimmed)
    case None => Malformed
    case Some(p) =>
      if ProxmarkCommandParser.IsValidCommand(p.command) then Accepted(p)
      else Unknown(p, ProxmarkCommandParser.GetCommandSuggestions(p.command))
  }

  /** What the parse and catalog checks add to the output. */
  function ParsedOutput(echoed: seq<TerminalLine>, v: Verdict): seq<TerminalLine>
  {
    match v
    case Malformed => Capped(echoed, TerminalLine(MSG_INVALID_FORMAT, ERROR), MAX_OUTPUT)
    case Accepted(_) => echoed
    case Unknown(p, suggestions) =>
      var unknown := Capped(echoed, TerminalLine(MSG_UNKNOWN + p.command, ERROR), MAX_OUTPUT);
      if suggestions != [] then
        Capped(unknown, TerminalLine(MSG_DID_YOU_MEAN + JoinWith(suggestions, ", "), INFO), MAX_OUTPUT)
      else unknown
  }

  /**
   * The output after `executeCommand` has handled a non-blank line whose
   * trimmed text is `trimmed`, up to the asynchronous dispatch.
   */
  function CommandOutput(out0: seq<TerminalLine>, trimmed: string): seq<TerminalLine>
  {
    Response(Capped(out0, Echo(trimmed), MAX_OUTPUT), trimmed)
  }

  /** What follows the echo: the built-in's effect or the parse and catalog report. */
  function Response(echoed: seq<TerminalLine>, trimmed: string): seq<TerminalLine>
  {
    match ClassifyBuiltin(Lower(trimmed))
    case Help => AppendAll(echoed, HelpLines())
    case Clear => Cleared
    case Quit => Capped(echoed, TerminalLine(MSG_GOODBYE, INFO), MAX_OUTPUT)
    case NotBuiltin => ParsedOutput(echoed, Judge(trimmed))
  }

  /** The command handed on for dispatch: a parsed, catalog-valid, non-built-in command. */
  function PendingCommand(trimmed: string): (r: Option<ProxmarkCommand>)
    ensures r.Some? <==> ClassifyBuiltin(Lower(trimmed)) == NotBuiltin && Judge(trimmed).Accepted?
    ensures r.Some? ==> r == Some(Judge(trimmed).command)
  {
    if ClassifyBuiltin(Lower(trimmed)) == NotBuiltin && Judge(trimmed).Accepted? then
      Some(Judge(trimmed).command)
    else None
  }

  /** A pending command is what the parser produced, and the catalog knows its keyword. */
  lemma PendingIsValid(trimmed: string)
    requires PendingCommand(trimmed).Some?
    ensures ProxmarkCommandParser.ParseCommand(trimmed) == PendingCommand(trimmed)
    ensures ProxmarkCommandParser.IsValidCommand(PendingCommand(trimmed).value.command)
  {
  }

  /** The parse and catalog checks add at most two lines and keep what was there. */
  lemma ParsedOutputShape(echoed: seq<TerminalLine>, v: Verdict)
    ensures |echoed| <= MAX_OUTPUT ==> |ParsedOutput(echoed, v)| <= MAX_OUTPUT
    ensures |echoed| + 2 <= MAX_OUTPUT ==>
              |ParsedOutput(echoed, v)| >= |echoed| && ParsedOutput(echoed, v)[..|echoed|] == echoed
  {
  }

  /** The output never exceeds 1000 lines. */
  lemma CommandOutputBound(out0: seq<TerminalLine>, trimmed: string)
    requires |out0| <= MAX_OUTPUT
    ensures |CommandOutput(out0, trimmed)| <= MAX_OUTPUT
  {
    var echoed := Capped(out0, Echo(trimmed), MAX_OUTPUT);
    match ClassifyBuiltin(Lower(trimmed))
    case Help => AppendAllBound(echoed, HelpLines());
    case Clear =>
    case Quit =>
    case NotBuiltin => ParsedOutputShape(echoed, Judge(trimmed));
  }

  /** `clear` and `cls`, in any case, leave exactly the two cleared lines. */
  lemma ClearResets(out0: seq<TerminalLine>, trimmed: string)
    requires Lower(trimmed) == KEY_CLEAR || Lower(trimmed) == KEY_CLS
    ensures CommandOutput(out0, trimmed) == Cleared
  {
  }

  /** With room left, every other line is echoed after the old output. */
  lemma EchoKept(out0: seq<TerminalLine>, trimmed: string)
    requires |out0| + 11 <= MAX_OUTPUT
    requires Lower(trimmed) != KEY_CLEAR && Lower(trimmed) != KEY_CLS
    ensures |CommandOutput(out0, trimmed)| > |out0|
    ensures CommandOutput(out0, trimmed)[..|out0| + 1] == out0 + [Echo(trimmed)]
  {
    var echoed := out0 + [Echo(trimmed)];
    match ClassifyBuiltin(Lower(trimmed))
    case Help =>
      AppendAllSmall(echoed, HelpLines());
      assert (echoed + HelpLines())[..|out0| + 1] == echoed;
    case Clear =>
    case Quit =>
    case NotBuiltin =>
      var v := Judge(trimmed);
      ParsedOutputShape(echoed, v);
      assert ParsedOutput(echoed, v)[..|out0| + 1] == echoed;
  }

  /** With room left, `help` lists the ten help lines after the echo. */
  lemma HelpListing(out0: seq<TerminalLine>, trimmed: string)
    requires |out0| + 11 <= MAX_OUTPUT
    requires Lower(trimmed) == KEY_HELP
    ensures CommandOutput(out0, trimmed) == out0 + [Echo(trimmed)] + HelpLines()
  {
    AppendAllSmall(out0 + [Echo(trimmed)], HelpLines());
  }

  /**
   * An unknown keyword is reported, but a suggestion line is never added:
   * suggestions exist exactly for the keywords the catalog accepts.
   */
  lemma UnknownWithoutSuggestions(trimmed: string)
    requires Judge(trimmed).Unknown?
    ensures Judge(trimmed).suggestions == []
  {
    ProxmarkCommandParser.SuggestionsIffValid(Judge(trimmed).command.command);
  }

  /** The trimmed form of a non-blank line always parses, so the invalid-format report is never shown. */
  lemma TrimmedAlwaysParses(command: string)
    requires !IsBlank(command)
    ensures !Judge(Trim(command)).Malformed?
  {
    TrimEmptyIffBlank(command);
    var t := Trim(command);
    assert !IsWhitespace(t[0]);
  }

  // ---------------------------------------------------------------- history navigation

  /** The index `getPreviousCommand` moves to: the newest entry first, then older, stopping at the oldest. */
  function PreviousIndex(n: nat, idx: int): (j: int)
    requires n > 0 && -1 <= idx < n
    ensures 0 <= j < n
    ensures idx == -1 ==> j == n - 1
    ensures idx >= 0 ==> j == if idx > 0 then idx - 1 else 0
  {
    if idx == -1 then n - 1 else if idx > 0 then idx - 1 else idx
  }

  /** The index `getNextCommand` moves to: newer entries, then back to "not navigating". */
  function NextIndex(n: nat, idx: int): (j: int)
    requires 0 <= idx < n
    ensures -1 <= j < n
    ensures j == -1 <==> idx == n - 1
    ensures j != -1 ==> j == idx + 1
  {
    if idx + 1 < n then idx + 1 else -1
  }

  /** Next undoes previous except at the oldest entry, and previous undoes next except past the newest. */
  lemma NavigationInverse(n: nat, idx: int)
    requires n > 0 && 0 <= idx < n
    ensures idx >= 1 ==> NextIndex(n, PreviousIndex(n, idx)) == idx
    ensures idx < n - 1 ==> PreviousIndex(n, NextIndex(n, idx)) == idx
    ensures PreviousIndex(n, NextIndex(n, n - 1)) == n - 1
  {
  }

  /** `k` presses of "previous" from the input line. */
  function PreviousTimes(n: nat, k: nat): (j: int)
    requires n > 0
    ensures 0 <= j < n || (k == 0 && j == -1)
  {
    if k == 0 then -1 else PreviousIndex(n, PreviousTimes(n, k - 1))
  }

  /** After `k >= 1` presses the `k`-th newest entry is shown, or the oldest once history runs out. */
  lemma {:induction false} PreviousTimesValue(n: nat, k: nat)
    requires n > 0 && k >= 1
    ensures PreviousTimes(n, k) == if k <= n then n - k else 0
  {
    if k > 1 {
      PreviousTimesValue(n, k - 1);
    }
  }

  // ---------------------------------------------------------------- dispatch

  /** The lines the launched part of `executeCommand` adds. */
  function DispatchLines(c: ProxmarkCommand, frame: Option<seq<byte>>, connected: bool, sent: bool)
    : (r: seq<TerminalLine>)
    ensures 1 <= |r| <= 2
  {
    if !connected then [TerminalLine(MSG_NOT_CONNECTED, ERROR)]
    else if frame.None? then
      [TerminalLine(MSG_NOT_SUPPORTED + FullCommand(c), ERROR)]
    else
      [TerminalLine(MSG_EXECUTING + FullCommand(c), INFO)] +
      (if sent then [] else [TerminalLine(MSG_SEND_FAILED, ERROR)])
  }

  /**
   * A dispatch reports exactly one of: no link, an unsupported command, or
   * the execution (followed by a failure line when the write failed).
   */
  lemma DispatchLinesMeaning(c: ProxmarkCommand, frame: Option<seq<byte>>, connected: bool, sent: bool)
    ensures !connected ==> DispatchLines(c, frame, connected, sent)[0].text == MSG_NOT_CONNECTED
    ensures connected && frame.Some? ==>
              DispatchLines(c, frame, connected, sent)[0] == TerminalLine(MSG_EXECUTING + FullCommand(c), INFO) &&
              (|DispatchLines(c, frame, connected, sent)| == 2 <==> !sent)
    ensures (forall k :: 0 <= k < |DispatchLines(c, frame, connected, sent)| ==>
               DispatchLines(c, frame, connected, sent)[k].kind == ERROR) <==>
            !connected || frame.None?
  {
  }

  class TerminalViewModel {
    const connection: Connection.ConnectionManager
    var output: seq<TerminalLine>
    var currentInput: string
    var history: seq<string>
    var historyIndex: int

    /** Output and history stay within their caps, and the history position is -1 or an entry. */
    ghost predicate Valid()
      reads this
    {
      |output| <= MAX_OUTPUT && |history| <= MAX_HISTORY && -1 <= historyIndex < |history|
    }

    constructor (connection: Connection.ConnectionManager)
      ensures Valid()
      ensures this.connection == connection
      ensures output == Welcome && currentInput == "" && history == [] && historyIndex == -1
    {
      this.connection := connection;
      output := Welcome;
      currentInput := "";
      history := [];
      historyIndex := -1;
    }

    /** `updateInput`. */
    method UpdateInput(input: string)
      requires Valid()
      modifies this
      ensures Valid()
      ensures currentInput == input
      ensures output == old(output) && history == old(history) && historyIndex == old(historyIndex)
    {
      currentInput := input;
    }

    /** `addOutputLine`: appends, dropping the oldest line beyond 1000. */
    method AddOutputLine(text: string, kind: TerminalLineType)
      requires Valid()
      modifies this
      ensures Valid()
      ensures output == Capped(old(output), TerminalLine(text, kind), MAX_OUTPUT)
      ensures currentInput == old(currentInput) && history == old(history) && historyIndex == old(historyIndex)
    {
      output := Capped(output, TerminalLine(text, kind), MAX_OUTPUT);
    }

    /** The collector of device replies: each decoded reply becomes a `RESPONSE` line. */
    method ReceiveResponse(text: string)
      requires Valid()
      modifies this
      ensures Valid()
      ensures output == Capped(old(output), TerminalLine(text, RESPONSE), MAX_OUTPUT)
      ensures currentInput == old(currentInput) && history == old(history) && historyIndex == old(historyIndex)
    {
      AddOutputLine(text, RESPONSE);
    }

    /** `clearTerminal`. */
    method ClearTerminal()
      requires Valid()
      modifies this
      ensures Valid()
      ensures output == Cleared
      ensures currentInput == old(currentInput) && history == old(history) && historyIndex == old(historyIndex)
    {
      output := Cleared;
    }

    /** `getPreviousCommand`: null only with an empty history. */
    method GetPreviousCommand() returns (r: Option<string>)
      requires Valid()
      modifies this
      ensures Valid()
      ensures output == old(output) && currentInput == old(currentInput) && history == old(history)
      ensures history == [] ==> r == None && historyIndex == old(historyIndex)
      ensures history != [] ==> historyIndex == PreviousIndex(|history|, old(historyIndex)) &&
                                r == Some(history[historyIndex])
    {
      if history == [] {
        return None;
      }
      if historyIndex == -1 {
        historyIndex := |history| - 1;
      } else if historyIndex > 0 {
        historyIndex := historyIndex - 1;
      }
      r := if historyIndex >= 0 then Some(history[historyIndex]) else None;
    }

    /** `getNextCommand`: null when not navigating; an empty line after the newest entry. */
    method GetNextCommand() returns (r: Option<string>)
      requires Valid()
      modifies this
      ensures Valid()
      ensures output == old(output) && currentInput == old(currentInput) && history == old(history)
      ensures (history == [] || old(historyIndex) == -1) ==> r == None && historyIndex == old(historyIndex)
      ensures history != [] && old(historyIndex) != -1 ==>
                historyIndex == NextIndex(|history|, old(historyIndex)) &&
                r == Some(if historyIndex == -1 then "" else history[historyIndex])
    {
      if history == [] || historyIndex == -1 {
        return None;
      }
      historyIndex := historyIndex + 1;
      if historyIndex < |history| {
        r := Some(history[historyIndex]);
      } else {
        historyIndex := -1;
        r := Some("");
      }
    }

    /** The `forEach` of the `help` built-in: one `INFO` line per text, in order. */
    method AddInfoLines(texts: seq<string>)
      requires Valid()
      modifies this
      ensures Valid()
      ensures output == AppendAll(old(output), InfoLines(texts))
      ensures currentInput == old(currentInput) && history == old(history) && historyIndex == old(historyIndex)
    {
      var i := 0;
      while i < |texts|
        invariant 0 <= i <= |texts|
        invariant Valid()
        invariant output == AppendAll(old(output), InfoLines(texts[..i]))
        invariant currentInput == old(currentInput) && history == old(history) && historyIndex == old(historyIndex)
      {
        AddOutputLine(texts[i], INFO);
        assert InfoLines(texts[..i + 1]) == InfoLines(texts[..i]) + [TerminalLine(texts[i], INFO)];
        AppendAllSnoc(old(output), InfoLines(texts[..i]), TerminalLine(texts[i], INFO));
        i := i + 1;
      }
      assert texts[..i] == texts;
    }

    /** The `help` built-in: the help list, one `INFO` line per entry. */
    method ShowHelp()
      requires Valid()
      modifies this
      ensures Valid()
      ensures output == AppendAll(old(output), HelpLines())
      ensures currentInput == old(currentInput) && history == old(history) && historyIndex == old(historyIndex)
    {
      AddInfoLines(CommandTranslator.GetAvailableCommands());
    }

    /** Parsing and the catalog check for a line that is not a built-in. */
    method ReportParsed(trimmed: string) returns (pending: Option<ProxmarkCommand>)
      requires Valid()
      modifies this
      ensures Valid()
      ensures output == ParsedOutput(old(output), Judge(trimmed))
      ensures pending == if Judge(trimmed).Accepted? then Some(Judge(trimmed).command) else None
      ensures currentInput == old(currentInput) && history == old(history) && historyIndex == old(historyIndex)
    {
      var parsed := ProxmarkCommandParser.ParseCommand(trimmed);
      if parsed.None? {
        AddOutputLine(MSG_INVALID_FORMAT, ERROR);
        return None;
      }
      var p := parsed.value;
      if !ProxmarkCommandParser.IsValidCommand(p.command) {
        AddOutputLine(MSG_UNKNOWN + p.command, ERROR);
        var suggestions := ProxmarkCommandParser.GetCommandSuggestions(p.command);
        if suggestions != [] {
          AddOutputLine(MSG_DID_YOU_MEAN + JoinWith(suggestions, ", "), INFO);
        }
        return None;
      }
      pending := Some(p);
    }

    /**
     * `executeCommand`, up to the coroutine it launches: a blank line changes
     * nothing; otherwise the trimmed line is echoed and remembered, the input
     * is cleared, and built-ins, format and catalog checks are answered. The
     * command to hand to `Dispatch` is returned.
     */
    method ExecuteCommand(command: string) returns (pending: Option<ProxmarkCommand>)
      requires Valid()
      modifies this
      ensures Valid()
      ensures IsBlank(command) ==>
                pending == None && output == old(output) && currentInput == old(currentInput) &&
                history == old(history) && historyIndex == old(historyIndex)
      ensures !IsBlank(command) ==>
                output == CommandOutput(old(output), Trim(command)) &&
                history == Capped(old(history), Trim(command), MAX_HISTORY) &&
                historyIndex == -1 && currentInput == "" &&
                pending == PendingCommand(Trim(command))
    {
      if IsBlank(command) {
        return None;
      }
      var trimmed := Trim(command);
      AddOutputLine(PROMPT + trimmed, COMMAND);
      history := Capped(history, trimmed, MAX_HISTORY);
      historyIndex := -1;
      currentInput := "";
      pending := Respond(trimmed);
    }

    /** Built-ins, then parsing and the catalog check, after the echo. */
    method Respond(trimmed: string) returns (pending: Option<ProxmarkCommand>)
      requires Valid()
      modifies this
      ensures Valid()
      ensures output == Response(old(output), trimmed)
      ensures pending == PendingCommand(trimmed)
      ensures currentInput == old(currentInput) && history == old(history) && historyIndex == old(historyIndex)
    {
      match ClassifyBuiltin(Lower(trimmed))
      case Help =>
        ShowHelp();
        pending := None;
      case Clear =>
        ClearTerminal();
        pending := None;
      case Quit =>
        AddOutputLine(MSG_GOODBYE, INFO);
        pending := None;
      case NotBuiltin =>
        pending := ReportParsed(trimmed);
    }

    /**
     * The coroutine `executeCommand` launches for a valid command: without a
     * link it reports so; an untranslatable command is reported; otherwise
     * the frame is sent and a failed send is reported.
     */
    method Dispatch(c: ProxmarkCommand, ioOk: bool)
      requires Valid() && connection.Valid()
      modifies this, connection.current
      ensures Valid() && connection.Valid()
      ensures output == AppendAll(old(output), DispatchLines(c, CommandTranslator.Translate(c), old(connection.IsConnected()), ioOk))
      ensures currentInput == old(currentInput) && history == old(history) && historyIndex == old(historyIndex)
      ensures connection.current != null ==> connection.current.open == old(connection.current.open)
      ensures connection.current != null ==>
                connection.current.sent ==
                  if old(connection.IsConnected()) && CommandTranslator.Translate(c).Some? && ioOk
                  then old(connection.current.sent) + [CommandTranslator.Translate(c).value]
                  else old(connection.current.sent)
    {
      var out0 := output;
      var connected := connection.IsConnected();
      if !connected {
        AddOutputLine(MSG_NOT_CONNECTED, ERROR);
        AppendAllOne(out0, TerminalLine(MSG_NOT_CONNECTED, ERROR));
        return;
      }
      var frame := CommandTranslator.Translate(c);
      if frame.None? {
        AddOutputLine(MSG_NOT_SUPPORTED + FullCommand(c), ERROR);
        AppendAllOne(out0, TerminalLine(MSG_NOT_SUPPORTED + FullCommand(c), ERROR));
        return;
      }
      var executing := TerminalLine(MSG_EXECUTING + FullCommand(c), INFO);
      AddOutputLine(executing.text, executing.kind);
      var success := connection.SendData(frame.value, ioOk);
      if !success {
        AddOutputLine(MSG_SEND_FAILED, ERROR);
        AppendAllTwo(out0, executing, TerminalLine(MSG_SEND_FAILED, ERROR));
      } else {
        AppendAllOne(out0, executing);
        assert DispatchLines(c, frame, connected, ioOk) == [executing];
      }
    }
  }
}
