/**
 * `CommandTranslator`: maps the small supported subset of text commands to
 * Chameleon Ultra command frames, decodes hex arguments, and holds the help
 * texts.
 */
module CommandTranslator {
  import opened Wrappers
  import opened Text
  import opened ProxmarkCommands
  import opened ChameleonUltraProtocol
  import ProxmarkCommandParser

  /** Kotlin `getOrNull(i)` (and `firstOrNull()` for `i == 0`). */
  function GetOrNull(args: seq<string>, i: nat): (r: Option<string>)
    ensures r.Some? <==> i < |args|
    ensures r.Some? ==> r.value == args[i]
  {
    if i < |args| then Some(args[i]) else None
  }

  /** Kotlin `drop(n)`. */
  function Drop(args: seq<string>, n: nat): (r: seq<string>)
    ensures n <= |args| ==> r == args[n..]
    ensures n > |args| ==> r == []
  {
    if n <= |args| then args[n..] else []
  }

  // ---------------------------------------------------------------- parseHexData

  /** `joinToString("")`. */
  function Concat(args: seq<string>): string
  {
    if args == [] then "" else args[0] + Concat(args[1..])
  }

  /** `replace(" ", "")`. */
  function RemoveSpaces(s: string): (r: string)
    ensures |r| <= |s|
    ensures forall k :: 0 <= k < |r| ==> r[k] != ' '
    ensures (forall k :: 0 <= k < |s| ==> s[k] != ' ') ==> r == s
  {
    if s == [] then ""
    else (if s[0] == ' ' then "" else [s[0]]) + RemoveSpaces(s[1..])
  }

  /** `chunked(2)`: consecutive pieces of two characters, the last possibly of one. */
  function Chunked(s: string): (chunks: seq<string>)
    ensures |chunks| == (|s| + 1) / 2
    ensures forall i :: 0 <= i < |chunks| ==> 1 <= |chunks[i]| <= 2
    ensures forall i :: 0 <= i < |chunks| - 1 ==> |chunks[i]| == 2
    ensures Concat(chunks) == s
  {
    if |s| <= 2 then (if s == [] then [] else [s])
    else [s[..2]] + Chunked(s[2..])
  }

  /** `map { it.toInt(16).toByte() }`, where a chunk `toInt` rejects makes the whole result null. */
  function ParseChunks(chunks: seq<string>): (r: Option<seq<byte>>)
    ensures r.Some? ==> |r.value| == |chunks|
    ensures r.Some? <==> forall i :: 0 <= i < |chunks| ==> ToIntOrNull(chunks[i], 16).Some?
    ensures r.Some? ==> forall i :: 0 <= i < |chunks| ==>
                          r.value[i] == ToByte(ToIntOrNull(chunks[i], 16).value)
  {
    if chunks == [] then Some([])
    else
      match ToIntOrNull(chunks[0], 16)
      case None => None
      case Some(v) =>
        match ParseChunks(chunks[1..])
        case None => None
        case Some(rest) =>
          assert forall i :: 1 <= i < |chunks| ==> chunks[i] == chunks[1..][i - 1];
          Some([ToByte(v)] + rest)
  }

  /**
   * `parseHexData`: null for no arguments; otherwise the arguments are
   * concatenated, spaces are removed, and the text is decoded two characters
   * at a time; a trailing single character is decoded on its own.
   */
  function ParseHexData(args: seq<string>): (r: Option<seq<byte>>)
    ensures args == [] ==> r.None?
    ensures r.Some? ==> |r.value| == (|RemoveSpaces(Concat(args))| + 1) / 2
  {
    if args == [] then None
    else ParseChunks(Chunked(RemoveSpaces(Concat(args))))
  }

  /** Two hex digits, most significant first, in upper case. */
  function HexPair(b: byte): (s: string)
    ensures |s| == 2
  {
    [DigitChar(b / 16), DigitChar(b % 16)]
  }

  lemma HexPairValue(b: byte)
    ensures ToIntOrNull(HexPair(b), 16) == Some(b)
  {
    var s := HexPair(b);
    DigitCharOf(b / 16, 16);
    DigitCharOf(b % 16, 16);
    assert s[..1] == [s[0]];
    assert DigitsValue(s[..1], 16) == Some(b / 16) by {
      assert s[..1][..0] == [];
    }
  }

  function HexPairs(bytes: seq<byte>): (args: seq<string>)
    ensures |args| == |bytes|
    ensures forall i :: 0 <= i < |args| ==> args[i] == HexPair(bytes[i])
  {
    if bytes == [] then [] else [HexPair(bytes[0])] + HexPairs(bytes[1..])
  }

  lemma {:induction false} ChunkedPairs(bytes: seq<byte>)
    ensures Chunked(Concat(HexPairs(bytes))) == HexPairs(bytes)
    decreases |bytes|
  {
    if bytes != [] {
      var pairs := HexPairs(bytes);
      assert pairs[1..] == HexPairs(bytes[1..]);
      var s := Concat(pairs);
      assert s == pairs[0] + Concat(pairs[1..]);
      ChunkedPairs(bytes[1..]);
      if |bytes| == 1 {
        assert Concat(pairs[1..]) == "";
        assert s == pairs[0];
      } else {
        assert |Concat(pairs[1..])| >= 2 by {
          assert Concat(pairs[1..]) == pairs[1] + Concat(pairs[2..]);
        }
        assert s[..2] == pairs[0];
        assert s[2..] == Concat(pairs[1..]);
      }
    }
  }

  lemma {:induction false} PairsHaveNoSpaces(bytes: seq<byte>)
    ensures forall k :: 0 <= k < |Concat(HexPairs(bytes))| ==> Concat(HexPairs(bytes))[k] != ' '
    decreases |bytes|
  {
    if bytes != [] {
      PairsHaveNoSpaces(bytes[1..]);
      assert HexPairs(bytes)[1..] == HexPairs(bytes[1..]);
      var p := HexPair(bytes[0]);
      assert p[0] != ' ' && p[1] != ' ';
    }
  }

  /**
   * Round trip: bytes written as two-digit hex arguments, one per byte,
   * decode back to themselves.
   */
  lemma ParseHexPairs(bytes: seq<byte>)
    requires bytes != []
    ensures ParseHexData(HexPairs(bytes)) == Some(bytes)
  {
    var pairs := HexPairs(bytes);
    PairsHaveNoSpaces(bytes);
    ChunkedPairs(bytes);
    forall i | 0 <= i < |pairs| ensures ToIntOrNull(pairs[i], 16) == Some(bytes[i]) {
      HexPairValue(bytes[i]);
    }
    var r := ParseChunks(pairs);
    assert r.value == bytes;
  }

  lemma ConcatSingle(s: string)
    ensures Concat([s]) == s
  {
    assert [s][1..] == [];
  }

  /** `parseHexData` depends only on the concatenation of its arguments. */
  lemma ParseHexConcat(args: seq<string>)
    requires args != []
    ensures ParseHexData(args) == ParseHexData([Concat(args)])
  {
    ConcatSingle(Concat(args));
  }

  /** A single digit that forms a whole string. */
  lemma OneDigit(s: string, radix: nat)
    requires 2 <= radix <= 36 && |s| == 1 && DigitOf(s[0], radix) >= 0
    ensures DigitsValue(s, radix) == Some(DigitOf(s[0], radix))
  {
    assert s[..0] == [];
  }

  lemma TwoDigits(s: string, radix: nat)
    requires 2 <= radix <= 36 && |s| == 2
    requires DigitOf(s[0], radix) >= 0 && DigitOf(s[1], radix) >= 0
    ensures DigitsValue(s, radix) == Some(DigitOf(s[0], radix) * radix + DigitOf(s[1], radix))
  {
    OneDigit(s[..1], radix);
  }

  /** A digit string without sign reads as its value when that fits an `Int`. */
  lemma Unsigned(s: string, radix: nat)
    requires 2 <= radix <= 36 && s != [] && s[0] >= '0'
    requires DigitsValue(s, radix).Some? && DigitsValue(s, radix).value < 0x8000_0000
    ensures ToIntOrNull(s, radix) == Some(DigitsValue(s, radix).value)
  {
  }

  lemma NoSpaces(s: string)
    requires forall k :: 0 <= k < |s| ==> s[k] != ' '
    ensures RemoveSpaces(s) == s
  {
  }

  /** Decoding a single argument in which no space occurs. */
  lemma ParseHexSingle(s: string)
    requires forall k :: 0 <= k < |s| ==> s[k] != ' '
    ensures ParseHexData([s]) == ParseChunks(Chunked(s))
  {
    ConcatSingle(s);
    NoSpaces(s);
  }

  /**
   * An odd-length string is accepted: its last chunk is a single digit, so
   * `"1A2"` decodes to 0x1A, 0x02. No arguments at all give null.
   */
  lemma ParseHexOdd(odd: string)
    requires odd == "1A2"
    ensures ParseHexData([odd]) == Some([0x1A, 0x02])
    ensures ParseHexData([]) == None
  {
    var a, two := odd[..2], odd[2..];
    assert Chunked(odd) == [a, two];
    HexPairValue(0x1A);
    assert HexPair(0x1A) == a;
    OneDigit(two, 16);
    Unsigned(two, 16);
    ParseHexSingle(odd);
    var r := ParseChunks([a, two]);
    assert [a, two][0] == a && [a, two][1] == two;
    assert r.Some?;
    assert r.value[0] == 0x1A && r.value[1] == 0x02;
    assert r.value == [0x1A, 0x02];
  }

  /** Arguments are joined before chunking: `"1A", "2B"` decode to 0x1A, 0x2B. */
  lemma ParseHexArguments(a: string, b: string)
    requires a == "1A" && b == "2B"
    ensures ParseHexData([a, b]) == Some([0x1A, 0x2B])
  {
    var bytes: seq<byte> := [0x1A, 0x2B];
    ParseHexPairs(bytes);
    assert HexPair(bytes[0]) == a && HexPair(bytes[1]) == b;
    assert HexPairs(bytes) == [a, b];
  }

  /** Kotlin `toInt(16)` accepts a sign: `"-1"` decodes to the byte 0xFF. */
  lemma ParseHexSigned(neg: string)
    requires neg == "-1"
    ensures ParseHexData([neg]) == Some([0xFF])
  {
    ParseHexSingle(neg);
    assert Chunked(neg) == [neg];
    OneDigit(neg[1..], 16);
    assert ToIntOrNull(neg, 16) == Some(-1);
    var r := ParseChunks([neg]);
    assert [neg][0] == neg;
    assert r.Some?;
    assert r.value[0] == 0xFF;
    assert r.value == [0xFF];
  }

  /** A chunk that is not hexadecimal, such as `"1G"`, makes the result null. */
  lemma ParseHexRejects(bad: string)
    requires bad == "1G"
    ensures ParseHexData([bad]) == None
  {
    ParseHexSingle(bad);
    assert Chunked(bad) == [bad];
    assert DigitOf(bad[1], 16) == -1;
    assert ParseChunks([bad]) == None;
  }

  // ---------------------------------------------------------------- translateProxmarkToChameleon

  /** The `"hw"` branch: `version` and `status` both ask for the firmware version. */
  function TranslateHw(args: seq<string>): (r: Option<seq<byte>>)
  {
    var sub := GetOrNull(args, 0);
    if sub == Some("version") || sub == Some("status") then Some(Frame(CreateGetVersionCommand()))
    else None
  }

  /** The `"hf"` branch: `14a info`/`14a reader`/`search` scan, `14a raw` sends bytes. */
  function TranslateHf(args: seq<string>): (r: Option<seq<byte>>)
  {
    var sub := GetOrNull(args, 0);
    if sub == Some("14a") then
      var op := GetOrNull(args, 1);
      if op == Some("info") || op == Some("reader") then Some(Frame(CreateHf14aScanCommand()))
      else if op == Some("raw") then
        match ParseHexData(Drop(args, 2))
        case Some(data) => Some(Frame(CreateHf14aRawCommand(data)))
        case None => None
      else None
    else if sub == Some("search") then Some(Frame(CreateHf14aScanCommand()))
    else None
  }

  /** The `"data"` branch: `setslot n` for a decimal `n` in 0..7. */
  function TranslateData(args: seq<string>): (r: Option<seq<byte>>)
  {
    if GetOrNull(args, 0) == Some("setslot") then
      var slot := match GetOrNull(args, 1)
                  case Some(s) => ToIntOrNull(s, 10)
                  case None => None;
      if slot.Some? && 0 <= slot.value <= 7 then Some(Frame(CreateSetSlotCommand(ToByte(slot.value))))
      else None
    else None
  }

  /** `translateProxmarkToChameleon`: the frame for a supported command, otherwise null. */
  function Translate(c: ProxmarkCommand): (r: Option<seq<byte>>)
  {
    if c.command == "hw" then TranslateHw(c.args)
    else if c.command == "hf" then TranslateHf(c.args)
    else if c.command == "data" then TranslateData(c.args)
    else None
  }

  const GET_VERSION_FRAME: seq<byte> := [0x00, 0x00, 0x10, 0x00]
  const SCAN_FRAME: seq<byte> := [0x00, 0x00, 0x20, 0x00]
  const RAW_HEADER: seq<byte> := [0x00, 0x00, 0x20, 0x01]
  const SET_SLOT_HEADER: seq<byte> := [0x00, 0x00, 0x10, 0x01]

  /** `hw version` and `hw status` give the get-version frame; later arguments are ignored. */
  lemma TranslateHwForms(sub: string, rest: seq<string>)
    requires sub == "version" || sub == "status"
    ensures Translate(ProxmarkCommand("hw", [sub] + rest)) == Some(GET_VERSION_FRAME)
  {
  }

  /** `hf search`, `hf 14a info` and `hf 14a reader` give the scan frame. */
  lemma TranslateScanForms(op: string, rest: seq<string>)
    requires op == "info" || op == "reader"
    ensures Translate(ProxmarkCommand("hf", ["search"] + rest)) == Some(SCAN_FRAME)
    ensures Translate(ProxmarkCommand("hf", ["14a", op] + rest)) == Some(SCAN_FRAME)
  {
  }

  /** `hf 14a raw <hex...>` gives the raw frame with the decoded bytes; no hex arguments give null. */
  lemma TranslateRaw(rest: seq<string>)
    ensures rest == [] ==> Translate(ProxmarkCommand("hf", ["14a", "raw"] + rest)) == None
    ensures Translate(ProxmarkCommand("hf", ["14a", "raw"] + rest)) ==
              match ParseHexData(rest)
              case Some(data) => Some(RAW_HEADER + data)
              case None => None
  {
    assert (["14a", "raw"] + rest)[2..] == rest;
  }

  /** `data setslot n` gives the set-slot frame exactly when `n` reads as an integer 0..7. */
  lemma TranslateSetSlot(rest: seq<string>)
    ensures Translate(ProxmarkCommand("data", ["setslot"] + rest)).Some? <==>
              rest != [] && ToIntOrNull(rest[0], 10).Some? && 0 <= ToIntOrNull(rest[0], 10).value <= 7
    ensures Translate(ProxmarkCommand("data", ["setslot"] + rest)).Some? ==>
              Translate(ProxmarkCommand("data", ["setslot"] + rest)) ==
                Some(SET_SLOT_HEADER + [ToIntOrNull(rest[0], 10).value])
  {
    var args := ["setslot"] + rest;
    DispatchData(args);
    assert args[0] == "setslot";
    if rest != [] {
      assert args[1] == rest[0];
      var slot := ToIntOrNull(rest[0], 10);
      if slot.Some? && 0 <= slot.value <= 7 {
        SlotFrame(slot.value);
      }
    }
  }

  lemma SlotFrame(slot: int)
    requires 0 <= slot <= 7
    ensures Frame(CreateSetSlotCommand(ToByte(slot))) == SET_SLOT_HEADER + [slot as byte]
  {
  }

  lemma DispatchData(args: seq<string>)
    ensures Translate(ProxmarkCommand("data", args)) == TranslateData(args)
  {
    assert "data"[0] != "hw"[0] && "data"[0] != "hf"[0];
  }

  /** Every slot written in decimal selects that slot. */
  lemma TranslateSlotDecimal(n: nat)
    requires n <= 7
    ensures Translate(ProxmarkCommand("data", ["setslot", Decimal(n)])) == Some(SET_SLOT_HEADER + [n])
  {
    DecimalRoundTrip(n);
    TranslateSetSlot([Decimal(n)]);
    assert ["setslot", Decimal(n)] == ["setslot"] + [Decimal(n)];
  }

  /** Slot 8 and a missing slot are rejected. */
  lemma TranslateSetSlotRejects(eight: string)
    requires eight == "8"
    ensures Translate(ProxmarkCommand("data", ["setslot", eight])) == None
    ensures Translate(ProxmarkCommand("data", ["setslot"])) == None
  {
    OneDigit(eight, 10);
    Unsigned(eight, 10);
  }

  /** The supported text forms, stated on the argument list directly. */
  predicate Supported(c: ProxmarkCommand)
  {
    var a := c.args;
    (c.command == "hw" && |a| >= 1 && (a[0] == "version" || a[0] == "status"))
    || (c.command == "hf" && |a| >= 1 && a[0] == "search")
    || (c.command == "hf" && |a| >= 2 && a[0] == "14a" && (a[1] == "info" || a[1] == "reader"))
    || (c.command == "hf" && |a| >= 3 && a[0] == "14a" && a[1] == "raw" && ParseHexData(a[2..]).Some?)
    || (c.command == "data" && |a| >= 2 && a[0] == "setslot" &&
        ToIntOrNull(a[1], 10).Some? && 0 <= ToIntOrNull(a[1], 10).value <= 7)
  }

  /** The frame headers of the four opcodes the translator emits. */
  predicate RegisteredFrame(f: seq<byte>)
  {
    |f| >= 4 && (f[..4] == GET_VERSION_FRAME || f[..4] == SCAN_FRAME ||
                 f[..4] == RAW_HEADER || f[..4] == SET_SLOT_HEADER)
  }

  lemma HfSupported(args: seq<string>)
    ensures TranslateHf(args).Some? <==>
              (|args| >= 1 && args[0] == "search")
              || (|args| >= 2 && args[0] == "14a" && (args[1] == "info" || args[1] == "reader"))
              || (|args| >= 3 && args[0] == "14a" && args[1] == "raw" && ParseHexData(args[2..]).Some?)
    ensures TranslateHf(args).Some? ==> RegisteredFrame(TranslateHf(args).value)
  {
    if |args| >= 1 && args[0] == "14a" {
      assert args[0] != "search";
    }
    if TranslateHf(args).Some? {
      var f := TranslateHf(args).value;
      assert f[..4] == SCAN_FRAME || f[..4] == RAW_HEADER;
    }
  }

  lemma HwSupported(args: seq<string>)
    ensures TranslateHw(args).Some? <==> |args| >= 1 && (args[0] == "version" || args[0] == "status")
    ensures TranslateHw(args).Some? ==> RegisteredFrame(TranslateHw(args).value)
  {
    if TranslateHw(args).Some? {
      assert TranslateHw(args).value[..4] == GET_VERSION_FRAME;
    }
  }

  lemma DataSupported(args: seq<string>)
    ensures TranslateData(args).Some? <==>
              |args| >= 2 && args[0] == "setslot" &&
              ToIntOrNull(args[1], 10).Some? && 0 <= ToIntOrNull(args[1], 10).value <= 7
    ensures TranslateData(args).Some? ==> RegisteredFrame(TranslateData(args).value)
  {
    if TranslateData(args).Some? {
      assert TranslateData(args).value[..4] == SET_SLOT_HEADER;
    }
  }

  /**
   * Exactly the supported forms translate; everything else, including other
   * catalog commands and differently-cased arguments, gives null. Every frame
   * starts with the header of one of four registered opcodes.
   */
  lemma TranslateSupported(c: ProxmarkCommand)
    ensures Translate(c).Some? <==> Supported(c)
    ensures Translate(c).Some? ==> RegisteredFrame(Translate(c).value)
  {
    if c.command == "hw" {
      HwSupported(c.args);
    } else if c.command == "hf" {
      HfSupported(c.args);
    } else if c.command == "data" {
      DataSupported(c.args);
    }
  }

  /** The argument check is case-sensitive: `hw VERSION` is not supported. */
  lemma TranslateCaseSensitive(upper: string)
    requires upper == "VERSION"
    ensures Translate(ProxmarkCommand("hw", [upper])) == None
  {
    assert upper != "version" && upper != "status" by {
      assert upper[0] != 'v' && upper[0] != 's';
    }
  }

  /**
   * From typed line to frame: the keyword is lowercased by the parser, so
   * `"  DATA   setslot 3 "` selects slot 3.
   */
  lemma ParseAndTranslate(line: string)
    requires line == "  DATA   setslot 3 "
    ensures ProxmarkCommandParser.ParseCommand(line).Some?
    ensures Translate(ProxmarkCommandParser.ParseCommand(line).value) == Some(SET_SLOT_HEADER + [3])
  {
    ProxmarkCommandParser.ParseExample(line);
    TranslateSlotDecimal(3);
    assert Decimal(3) == "3";
  }

  // ---------------------------------------------------------------- help

  const DEFAULT_HELP := "Unknown command. Type 'help' for available commands."

  // The topics `getCommandHelp` knows, one constant each.
  const TOPIC_HW_VERSION := "hw version"
  const TOPIC_HW_STATUS := "hw status"
  const TOPIC_HF_SEARCH := "hf search"
  const TOPIC_HF_14A_INFO := "hf 14a info"
  const TOPIC_HF_14A_READER := "hf 14a reader"
  const TOPIC_HF_14A_RAW := "hf 14a raw"
  const TOPIC_DATA_SETSLOT := "data setslot"
  const TOPIC_HELP := "help"
  const TOPIC_QUIT := "quit"
  const TOPIC_EXIT := "exit"
  const TOPIC_CLEAR := "clear"
  const TOPIC_CLS := "cls"

  // The text `getCommandHelp` gives for each topic.
  const HELP_HW_VERSION := "Get device firmware version"
  const HELP_HW_STATUS := "Get device status information"
  const HELP_HF_SEARCH := "Search for HF tags"
  const HELP_HF_14A_INFO := "Get ISO14443A tag information"
  const HELP_HF_14A_READER := "Read ISO14443A tag"
  const HELP_HF_14A_RAW := "Send raw ISO14443A command"
  const HELP_DATA_SETSLOT := "Set active emulation slot (0-7)"
  const HELP_HELP := "Show available commands"
  const HELP_QUIT := "Exit the application"
  const HELP_CLEAR := "Clear terminal output"

  /** `getCommandHelp`: a fixed text per topic, matched after lowercasing. */
  function GetCommandHelp(command: string): string
  {
    var key := Lower(command);
    if key == TOPIC_HW_VERSION then HELP_HW_VERSION
    else if key == TOPIC_HW_STATUS then HELP_HW_STATUS
    else if key == TOPIC_HF_SEARCH then HELP_HF_SEARCH
    else if key == TOPIC_HF_14A_INFO then HELP_HF_14A_INFO
    else if key == TOPIC_HF_14A_READER then HELP_HF_14A_READER
    else if key == TOPIC_HF_14A_RAW then HELP_HF_14A_RAW
    else if key == TOPIC_DATA_SETSLOT then HELP_DATA_SETSLOT
    else if key == TOPIC_HELP then HELP_HELP
    else if key == TOPIC_QUIT || key == TOPIC_EXIT then HELP_QUIT
    else if key == TOPIC_CLEAR || key == TOPIC_CLS then HELP_CLEAR
    else DEFAULT_HELP
  }

  const HelpTopics: seq<string> := [
    TOPIC_HW_VERSION, TOPIC_HW_STATUS, TOPIC_HF_SEARCH, TOPIC_HF_14A_INFO, TOPIC_HF_14A_READER,
    TOPIC_HF_14A_RAW, TOPIC_DATA_SETSLOT, TOPIC_HELP, TOPIC_QUIT, TOPIC_EXIT, TOPIC_CLEAR, TOPIC_CLS
  ]

  /** Help ignores case. */
  lemma HelpIgnoresCase(command: string)
    ensures GetCommandHelp(command) == GetCommandHelp(Lower(command))
  {
    LowerIdempotent(command);
  }

  /** The default text is given exactly for the strings that lowercase to none of the listed topics. */
  lemma HelpDefault(command: string)
    ensures GetCommandHelp(command) == DEFAULT_HELP <==> Lower(command) !in HelpTopics
  {
  }

  /** `quit` and `exit` share one text, and `clear` and `cls` share another. */
  lemma HelpAliases()
    ensures GetCommandHelp(TOPIC_QUIT) == GetCommandHelp(TOPIC_EXIT)
    ensures GetCommandHelp(TOPIC_CLEAR) == GetCommandHelp(TOPIC_CLS)
  {
    LowerNoUpperText(TOPIC_QUIT);
    LowerNoUpperText(TOPIC_EXIT);
    LowerNoUpperText(TOPIC_CLEAR);
    LowerNoUpperText(TOPIC_CLS);
  }

  lemma LowerNoUpperText(s: string)
    requires forall k :: 0 <= k < |s| ==> !('A' <= s[k] <= 'Z')
    ensures Lower(s) == s
  {
  }

  // The lines of `getAvailableCommands()`, one constant each: the topic, then its summary.
  const LIST_HW_VERSION := TOPIC_HW_VERSION + " - Get device firmware version"
  const LIST_HW_STATUS := TOPIC_HW_STATUS + " - Get device status"
  const LIST_HF_SEARCH := TOPIC_HF_SEARCH + " - Search for HF tags"
  const LIST_HF_14A_INFO := TOPIC_HF_14A_INFO + " - Get ISO14443A tag info"
  const LIST_HF_14A_READER := TOPIC_HF_14A_READER + " - Read ISO14443A tag"
  const LIST_HF_14A_RAW := TOPIC_HF_14A_RAW + " <hex> - Send raw ISO14443A command"
  const LIST_DATA_SETSLOT := TOPIC_DATA_SETSLOT + " <0-7> - Set active emulation slot"
  const LIST_HELP := TOPIC_HELP + " - Show this help"
  const LIST_CLEAR := TOPIC_CLEAR + " - Clear terminal"
  const LIST_QUIT := TOPIC_QUIT + " - Exit application"

  /** `getAvailableCommands()`. */
  function GetAvailableCommands(): (lines: seq<string>)
    ensures |lines| == 10
  {
    [
      LIST_HW_VERSION, LIST_HW_STATUS, LIST_HF_SEARCH, LIST_HF_14A_INFO, LIST_HF_14A_READER,
      LIST_HF_14A_RAW, LIST_DATA_SETSLOT, LIST_HELP, LIST_CLEAR, LIST_QUIT
    ]
  }

  /** The topic each help line is about, in the order of the help list. */
  const ListedTopics: seq<string> := [
    TOPIC_HW_VERSION, TOPIC_HW_STATUS, TOPIC_HF_SEARCH, TOPIC_HF_14A_INFO, TOPIC_HF_14A_READER,
    TOPIC_HF_14A_RAW, TOPIC_DATA_SETSLOT, TOPIC_HELP, TOPIC_CLEAR, TOPIC_QUIT
  ]

  /** Each help line starts with a topic that `getCommandHelp` documents. */
  lemma AvailableCommandsDocumented(i: nat)
    requires i < 10
    ensures StartsWith(GetAvailableCommands()[i], ListedTopics[i])
    ensures ListedTopics[i] in HelpTopics
  {
    if i == 0 { TopicLine(LIST_HW_VERSION, TOPIC_HW_VERSION, " - Get device firmware version"); }
    else if i == 1 { TopicLine(LIST_HW_STATUS, TOPIC_HW_STATUS, " - Get device status"); }
    else if i == 2 { TopicLine(LIST_HF_SEARCH, TOPIC_HF_SEARCH, " - Search for HF tags"); }
    else if i == 3 { TopicLine(LIST_HF_14A_INFO, TOPIC_HF_14A_INFO, " - Get ISO14443A tag info"); }
    else if i == 4 { TopicLine(LIST_HF_14A_READER, TOPIC_HF_14A_READER, " - Read ISO14443A tag"); }
    else if i == 5 { TopicLine(LIST_HF_14A_RAW, TOPIC_HF_14A_RAW, " <hex> - Send raw ISO14443A command"); }
    else if i == 6 { TopicLine(LIST_DATA_SETSLOT, TOPIC_DATA_SETSLOT, " <0-7> - Set active emulation slot"); }
    else if i == 7 { TopicLine(LIST_HELP, TOPIC_HELP, " - Show this help"); }
    else if i == 8 { TopicLine(LIST_CLEAR, TOPIC_CLEAR, " - Clear terminal"); }
    else { TopicLine(LIST_QUIT, TOPIC_QUIT, " - Exit application"); }
  }

  lemma TopicLine(line: string, topic: string, rest: string)
    requires line == topic + rest
    ensures StartsWith(line, topic)
  {
    assert line[..|topic|] == topic;
  }
}
