# Chameleon Ultra terminal: command path and session state in Dafny

This project models the core of an Android terminal app for the Chameleon
Ultra RFID tool. A user types Proxmark-style commands such as
`hf 14a raw 1A2B`, and the app answers them in a scrolling terminal. A small
supported subset is turned into Chameleon Ultra binary frames and written to a
USB-serial or Bluetooth link.

The model covers this path from a typed line to bytes on the link:

- **`ChameleonUltraProtocol`** (`protocol.dfy`): the opcode and status
  registries, and the command frame. A frame is the `Int` opcode as four
  big-endian bytes, each cut to 8 bits, followed by the payload.
  `toByteArray` is a method that fills a 4-byte array by indexed writes, as
  the source does.
  - The reply layout is one status byte followed by the payload.
  - The five `create*Command` factories are included.
- **`ProxmarkCommands`** and **`ProxmarkCommandParser`**
  (`proxmark_command.dfy`, `parser.dfy`):
  - the command record and `getFullCommand`;
  - tokenising with `trim()`, a regex `\s+` split and `lowercase()`;
  - the prefix classification into `CommandCategory`;
  - the permissive catalog check `isValidCommand` over the 59-entry catalog;
  - `getCommandSuggestions`.
- **`CommandTranslator`** (`translator.dfy`):
  - the mapping of supported commands to frames;
  - the hex decoder `parseHexData`, exactly as written;
  - the help texts.
- **`Terminal`** (`terminal.dfy`): the `TerminalViewModel` as a class.
  - Its fields are the output lines (capped at 1000), the input field, the
    command history (capped at 100) and the history cursor.
  - Methods change them step by step, as in the source.
  - `ExecuteCommand` is the synchronous part of `executeCommand`. It returns
    the command that the source hands to its launched coroutine.
  - `Dispatch` models that coroutine as a separate step.
  - Specification functions (`CommandOutput`, `PendingCommand`,
    `DispatchLines`) state the resulting output. Lemmas state what that output
    means.
- **`Connection`** (`connection.dfy`): the `ConnectionManager` as a class over
  an abstract `Transport` (the `DeviceConnection` interface). A transport is
  modelled by two observable facts: whether its link is open, and the list of
  byte arrays written to it.
  - Three facts about the world arrive as parameters: whether a link comes
    up, whether a write succeeds, and whether the Bluetooth permission is
    held.
  - `ghost var published` records every value assigned to the
    connection-state flow.
- **`Text`** and **`Wrappers`** (`text.dfy`, `wrappers.dfy`): the Kotlin
  library behaviour the core relies on, over ASCII:
  - `trim`, `isBlank`, regex `\s+` split, `lowercase`, `startsWith`,
    `joinToString`;
  - `toIntOrNull(radix)`, including its sign rule and `Int` range;
  - `toByte()`;
  - nullable results as `Option`.

Notable behaviours of the code that the proofs make explicit:

- `parseHexData` accepts odd-length hex. `chunked(2)` keeps a final single
  character, so `"1A2"` decodes to `1A 02`. `toInt(16)` accepts a sign, so
  `"-1"` decodes to `FF`.
- Suggestions exist exactly for the keywords that `isValidCommand` accepts
  (`SuggestionsIffValid`). So the "Did you mean" line can never be printed
  (`UnknownWithoutSuggestions`).
- The trimmed form of a non-blank line always parses, so "Invalid command
  format" can never be printed (`TrimmedAlwaysParses`).
- A connect attempt replaces the current transport without closing it, and
  the failed transport stays current.
- A Bluetooth transport whose output stream is null reports a write as
  successful, while USB reports failure (`SendResultMeaning`).

## Model

Source cells are paths in the app's repository.

| member | source | states |
|---|---|---|
| Wrappers.ToByte | app/src/main/java/com/chameleon/ultra/terminal/device/ChameleonUltraProtocol.kt:29-32 | `toByte()` keeps the value modulo 256, and leaves values 0..255 unchanged |
| ChameleonUltraProtocol.HeaderValue | app/src/main/java/com/chameleon/ultra/terminal/device/ChameleonUltraProtocol.kt:28-32 | reading the four header bytes back big-endian gives the opcode modulo 2^32; read as a signed Int, they give the opcode itself |
| ChameleonUltraProtocol.ToByteArray | app/src/main/java/com/chameleon/ultra/terminal/device/ChameleonUltraProtocol.kt:27-35 | the array is the frame: 4 + \|data\| bytes, the payload unchanged from index 4, and the opcode modulo 2^32 in bytes 0..3 |
| ChameleonUltraProtocol.FrameLayout | app/src/main/java/com/chameleon/ultra/terminal/device/ChameleonUltraProtocol.kt:27-35 | every frame is its header followed by the unchanged payload, and the header decodes to the opcode |
| ChameleonUltraProtocol.ParseResponse | app/src/main/java/com/chameleon/ultra/terminal/device/ChameleonUltraProtocol.kt:43-54 | null exactly for an empty array; otherwise the status is the first byte, and status then data is the whole input |
| ChameleonUltraProtocol.ParseResponseRoundTrip | app/src/main/java/com/chameleon/ultra/terminal/device/ChameleonUltraProtocol.kt:38-54 | parsing inverts the reply layout for every status byte, the unregistered ones included; every non-empty array is the layout of what it parses to |
| ChameleonUltraProtocol.ParseSingleByte | app/src/main/java/com/chameleon/ultra/terminal/device/ChameleonUltraProtocol.kt:47-51 | a one-byte reply has an empty payload, whatever the status |
| ChameleonUltraProtocol.CreateGetVersionCommand | app/src/main/java/com/chameleon/ultra/terminal/device/ChameleonUltraProtocol.kt:56-58 | the frame is `00 00 10 00` |
| ChameleonUltraProtocol.CreateHf14aScanCommand | app/src/main/java/com/chameleon/ultra/terminal/device/ChameleonUltraProtocol.kt:60-62 | the frame is `00 00 20 00` |
| ChameleonUltraProtocol.CreateSetSlotCommand | app/src/main/java/com/chameleon/ultra/terminal/device/ChameleonUltraProtocol.kt:64-66 | the frame is `00 00 10 01` followed by the slot byte |
| ChameleonUltraProtocol.CreateSetUidCommand | app/src/main/java/com/chameleon/ultra/terminal/device/ChameleonUltraProtocol.kt:68-70 | the frame is `00 00 30 02` followed by the UID |
| ChameleonUltraProtocol.CreateHf14aRawCommand | app/src/main/java/com/chameleon/ultra/terminal/device/ChameleonUltraProtocol.kt:72-74 | the frame is `00 00 20 01` followed by the data |
| Text.Trim | app/src/main/java/com/chameleon/ultra/terminal/commands/ProxmarkCommandParser.kt:6 | the result is a slice of the input with only whitespace before and after it, and it begins and ends with non-whitespace |
| Text.TrimEmptyIffBlank | app/src/main/java/com/chameleon/ultra/terminal/commands/ProxmarkCommandParser.kt:6-7 | `trim()` is empty exactly when the text `isBlank()` |
| Text.TrimBetween | app/src/main/java/com/chameleon/ultra/terminal/commands/ProxmarkCommandParser.kt:6 | if only whitespace lies outside a slice that begins and ends with non-whitespace, `trim()` is that slice |
| Text.TrimIdempotent | app/src/main/java/com/chameleon/ultra/terminal/commands/ProxmarkCommandParser.kt:6 | trimming twice is trimming once |
| Text.SplitJoin | app/src/main/java/com/chameleon/ultra/terminal/commands/ProxmarkCommandParser.kt:9 | splitting tokens that were joined by single spaces gives back the tokens |
| Text.SplitCons | app/src/main/java/com/chameleon/ultra/terminal/commands/ProxmarkCommandParser.kt:9 | a token, then a run of `\s`, then text not starting with `\s`, splits into the token followed by the split of the text |
| Text.SplitInterleave | app/src/main/java/com/chameleon/ultra/terminal/commands/ProxmarkCommandParser.kt:9 | splitting tokens separated by arbitrary non-empty runs of `\s` gives back the tokens |
| Text.LowerIdempotent | app/src/main/java/com/chameleon/ultra/terminal/commands/ProxmarkCommandParser.kt:12 | lowercasing twice is lowercasing once |
| Text.DecimalRoundTrip | app/src/main/java/com/chameleon/ultra/terminal/commands/CommandTranslator.kt:32 | `toIntOrNull()` reads back the decimal numeral of every natural number that fits an Int |
| ProxmarkCommands.FullCommandIsJoin | app/src/main/java/com/chameleon/ultra/terminal/commands/ProxmarkCommand.kt:7 | the full command is the keyword and the arguments joined by single spaces |
| ProxmarkCommands.FullCommandShape | app/src/main/java/com/chameleon/ultra/terminal/commands/ProxmarkCommand.kt:7 | without arguments the full command is the keyword; with arguments it starts with the keyword and a space; its length is the keyword's length plus, per argument, the argument's length plus one |
| ProxmarkCommands.CategoriesEnumerated | app/src/main/java/com/chameleon/ultra/terminal/commands/ProxmarkCommand.kt:10-19 | the enumeration has eight distinct values and contains every category |
| ProxmarkCommandParser.ParseCommand | app/src/main/java/com/chameleon/ultra/terminal/commands/ProxmarkCommandParser.kt:5-16 | null exactly for blank input; the keyword is non-empty, lowercase and free of `\s`; every argument is non-empty and free of `\s`; which keyword and arguments a line gives is stated by `ParseTokens` |
| ProxmarkCommandParser.ParseExample | app/src/main/java/com/chameleon/ultra/terminal/commands/ProxmarkCommandParser.kt:5-16 | `"  DATA   setslot 3 "` parses to keyword `data` with arguments `setslot`, `3` |
| ProxmarkCommandParser.ParseTokens | app/src/main/java/com/chameleon/ultra/terminal/commands/ProxmarkCommandParser.kt:5-16 | any line made of blank padding around tokens separated by non-empty runs of `\s` parses to the first token lowercased, with the remaining tokens as arguments, in order and case kept |
| ProxmarkCommandParser.ParseFullCommand | app/src/main/java/com/chameleon/ultra/terminal/commands/ProxmarkCommandParser.kt:5-16 | a command whose keyword and arguments are tokens parses back from its full command string, with the keyword lowercased; a lowercase keyword gives back the command itself |
| ProxmarkCommandParser.GetCommandCategory | app/src/main/java/com/chameleon/ultra/terminal/commands/ProxmarkCommandParser.kt:18-29 | a category other than OTHER is returned only for a keyword that starts with that category's prefix |
| ProxmarkCommandParser.PrefixesDisjoint | app/src/main/java/com/chameleon/ultra/terminal/commands/ProxmarkCommandParser.kt:18-29 | no keyword starts with two different family prefixes |
| ProxmarkCommandParser.CategoryByPrefix | app/src/main/java/com/chameleon/ultra/terminal/commands/ProxmarkCommandParser.kt:18-29 | a category is chosen exactly when the keyword starts with its prefix, and OTHER exactly when it starts with none, so the order of the checks does not matter |
| ProxmarkCommandParser.CategoryExamples | app/src/main/java/com/chameleon/ultra/terminal/commands/ProxmarkCommandParser.kt:18-29 | `hf14a` is HF, while `HF` and `zzz` are OTHER, because the check is case-sensitive |
| ProxmarkCommandParser.AnyStartsWith | app/src/main/java/com/chameleon/ultra/terminal/commands/ProxmarkCommandParser.kt:32 | `any { startsWith }` holds exactly when some entry starts with the prefix |
| ProxmarkCommandParser.IsValidCommand | app/src/main/java/com/chameleon/ultra/terminal/commands/ProxmarkCommandParser.kt:31-33 | valid exactly when some catalog entry starts with the lowercased keyword |
| ProxmarkCommandParser.ValidExamples | app/src/main/java/com/chameleon/ultra/terminal/commands/ProxmarkCommandParser.kt:31-33 | `hf`, `h` and `HW` are valid: any prefix of an entry is accepted, in any case |
| ProxmarkCommandParser.InvalidExample | app/src/main/java/com/chameleon/ultra/terminal/commands/ProxmarkCommandParser.kt:31-33 | `zzz` is not valid |
| ProxmarkCommandParser.CatalogInitials | app/src/main/java/com/chameleon/ultra/terminal/commands/ProxmarkCommandParser.kt:40-111 | every catalog entry is at least three characters long and begins with h, l, d, q, e or c |
| ProxmarkCommandParser.FilterStartsWith | app/src/main/java/com/chameleon/ultra/terminal/commands/ProxmarkCommandParser.kt:37 | `filter { startsWith }` keeps exactly the matching entries, in their order |
| ProxmarkCommandParser.GetCommandSuggestions | app/src/main/java/com/chameleon/ultra/terminal/commands/ProxmarkCommandParser.kt:35-38 | the result is the first min(10, n) of the n catalog entries that start with the lowercased input, in catalog order; so at most 10, each matching, and all of them when at most 10 match |
| ProxmarkCommandParser.SuggestionsIffValid | app/src/main/java/com/chameleon/ultra/terminal/commands/ProxmarkCommandParser.kt:31-38 | there are suggestions exactly for the keywords `isValidCommand` accepts |
| CommandTranslator.Chunked | app/src/main/java/com/chameleon/ultra/terminal/commands/CommandTranslator.kt:49 | `chunked(2)` gives ⌈n/2⌉ chunks of length 2, except possibly a last chunk of length 1, and their concatenation is the input |
| CommandTranslator.ParseChunks | app/src/main/java/com/chameleon/ultra/terminal/commands/CommandTranslator.kt:47-52 | a result exactly when every chunk parses base 16; then one byte per chunk, each the chunk's value cut to 8 bits |
| CommandTranslator.ParseHexData | app/src/main/java/com/chameleon/ultra/terminal/commands/CommandTranslator.kt:44-53 | null for no arguments; a result has one byte per two characters of the space-free text, rounded up |
| CommandTranslator.ParseHexPairs | app/src/main/java/com/chameleon/ultra/terminal/commands/CommandTranslator.kt:44-53 | every non-empty byte string written as two-digit hex arguments decodes back to itself |
| CommandTranslator.ParseHexOdd | app/src/main/java/com/chameleon/ultra/terminal/commands/CommandTranslator.kt:45-49 | `"1A2"` decodes to `1A 02`, so odd length is not rejected; no arguments give null |
| CommandTranslator.ParseHexArguments | app/src/main/java/com/chameleon/ultra/terminal/commands/CommandTranslator.kt:48-49 | the arguments `"1A"`, `"2B"` are joined and decode to `1A 2B` |
| CommandTranslator.ParseHexSigned | app/src/main/java/com/chameleon/ultra/terminal/commands/CommandTranslator.kt:49 | `"-1"` is accepted by `toInt(16)` and decodes to `FF` |
| CommandTranslator.ParseHexRejects | app/src/main/java/com/chameleon/ultra/terminal/commands/CommandTranslator.kt:47-52 | a chunk that is not hex, such as `"1G"`, makes the result null |
| CommandTranslator.TranslateHwForms | app/src/main/java/com/chameleon/ultra/terminal/commands/CommandTranslator.kt:9-13 | `hw version` and `hw status` give the get-version frame, whatever follows |
| CommandTranslator.TranslateScanForms | app/src/main/java/com/chameleon/ultra/terminal/commands/CommandTranslator.kt:15-28 | `hf search`, `hf 14a info` and `hf 14a reader` give the scan frame, whatever follows |
| CommandTranslator.TranslateRaw | app/src/main/java/com/chameleon/ultra/terminal/commands/CommandTranslator.kt:18-23 | `hf 14a raw` gives the raw header followed by the decoded hex of the remaining arguments, and null when decoding gives null, including when there are no hex arguments |
| CommandTranslator.TranslateSetSlot | app/src/main/java/com/chameleon/ultra/terminal/commands/CommandTranslator.kt:30-36 | `data setslot n` gives a frame exactly when `n` reads as an integer in 0..7, and the frame is `00 00 10 01 n` |
| CommandTranslator.TranslateSlotDecimal | app/src/main/java/com/chameleon/ultra/terminal/commands/CommandTranslator.kt:30-36 | every slot 0..7 written in decimal selects that slot |
| CommandTranslator.TranslateSetSlotRejects | app/src/main/java/com/chameleon/ultra/terminal/commands/CommandTranslator.kt:30-36 | slot `8` and a missing slot give null |
| CommandTranslator.HwSupported | app/src/main/java/com/chameleon/ultra/terminal/commands/CommandTranslator.kt:9-13 | the `hw` branch gives a frame exactly for first argument `version` or `status`, and that frame has a registered header |
| CommandTranslator.HfSupported | app/src/main/java/com/chameleon/ultra/terminal/commands/CommandTranslator.kt:15-28 | the `hf` branch gives a frame exactly for `search`, `14a info`, `14a reader` and `14a raw` with decodable hex, and that frame has a registered header |
| CommandTranslator.DataSupported | app/src/main/java/com/chameleon/ultra/terminal/commands/CommandTranslator.kt:30-38 | the `data` branch gives a frame exactly for `setslot` with a slot 0..7, and that frame has a registered header |
| CommandTranslator.TranslateSupported | app/src/main/java/com/chameleon/ultra/terminal/commands/CommandTranslator.kt:7-42 | a frame is produced exactly for the supported forms, and everything else is null; every frame starts with one of the four registered opcode headers |
| CommandTranslator.TranslateCaseSensitive | app/src/main/java/com/chameleon/ultra/terminal/commands/CommandTranslator.kt:9-13 | argument matching is case-sensitive: `hw VERSION` gives null |
| CommandTranslator.ParseAndTranslate | app/src/main/java/com/chameleon/ultra/terminal/commands/CommandTranslator.kt:30-36 | the typed line `"  DATA   setslot 3 "` parses and translates to `00 00 10 01 03` |
| CommandTranslator.HelpIgnoresCase | app/src/main/java/com/chameleon/ultra/terminal/commands/CommandTranslator.kt:55-56 | help for a string is help for its lowercase form |
| CommandTranslator.HelpDefault | app/src/main/java/com/chameleon/ultra/terminal/commands/CommandTranslator.kt:55-69 | the default text is given exactly when the lowercased string is none of the twelve listed keys |
| CommandTranslator.HelpAliases | app/src/main/java/com/chameleon/ultra/terminal/commands/CommandTranslator.kt:65-66 | `quit` and `exit` share one text, and `clear` and `cls` share another |
| CommandTranslator.GetAvailableCommands | app/src/main/java/com/chameleon/ultra/terminal/commands/CommandTranslator.kt:71-84 | the help list has exactly ten lines |
| CommandTranslator.AvailableCommandsDocumented | app/src/main/java/com/chameleon/ultra/terminal/commands/CommandTranslator.kt:71-84 | each help line starts with its topic, and that topic is one that `getCommandHelp` documents |
| Connection.Transport.Connect | app/src/main/java/com/chameleon/ultra/terminal/communication/UsbConnection.kt:29-61 | the link is open afterwards exactly when it came up, and the result says so |
| Connection.Transport.Disconnect | app/src/main/java/com/chameleon/ultra/terminal/communication/UsbConnection.kt:63-72 | the link is closed, and the written data is kept |
| Connection.Transport.SendData | app/src/main/java/com/chameleon/ultra/terminal/communication/UsbConnection.kt:74-82 | the data is recorded as written exactly when the link is open and the write succeeds; the result is given by `SendResult` |
| Connection.SendResult | app/src/main/java/com/chameleon/ultra/terminal/communication/BluetoothConnection.kt:75-84 | on an open link, success exactly when the I/O succeeds; without one, USB fails and Bluetooth reports success |
| Connection.SendResultMeaning | app/src/main/java/com/chameleon/ultra/terminal/communication/BluetoothConnection.kt:75-84 | for USB, success means the bytes were delivered; a Bluetooth success on a closed link delivers nothing |
| Connection.Transport.IsConnected | app/src/main/java/com/chameleon/ultra/terminal/communication/UsbConnection.kt:99-101 | the transport reports whether its link is open |
| Connection.Transport.GetConnectionType | app/src/main/java/com/chameleon/ultra/terminal/communication/UsbConnection.kt:103-105 | the transport reports its own kind |
| Connection.ConnectResult | app/src/main/java/com/chameleon/ultra/terminal/communication/ConnectionManager.kt:53-67 | Connected exactly when the link came up, otherwise Error; an exception's message follows the kind's error prefix |
| Connection.ConnectResultDistinguishesKinds | app/src/main/java/com/chameleon/ultra/terminal/communication/ConnectionManager.kt:47-100 | no USB failure state equals a Bluetooth failure state |
| Connection.ConnectionManager.constructor | app/src/main/java/com/chameleon/ultra/terminal/communication/ConnectionManager.kt:21-22 | no transport and the state Disconnected |
| Connection.ConnectionManager.ConnectUsb | app/src/main/java/com/chameleon/ultra/terminal/communication/ConnectionManager.kt:47-69 | the result is true exactly when the link came up, and the states published are Connecting and then the result state; unless the constructor threw, a fresh USB transport is current, open exactly on success, and `getConnectionType` reports USB; the previous transport is left untouched |
| Connection.ConnectionManager.ConnectBluetooth | app/src/main/java/com/chameleon/ultra/terminal/communication/ConnectionManager.kt:71-100 | without permission, only the permission error is published and the transport is kept; otherwise it behaves as `connectUsb` does, with a Bluetooth transport |
| Connection.ConnectionManager.Disconnect | app/src/main/java/com/chameleon/ultra/terminal/communication/ConnectionManager.kt:102-112 | the old transport, if any, is closed; none is current, and Disconnected is published; this is also safe without a transport |
| Connection.ConnectionManager.SendData | app/src/main/java/com/chameleon/ultra/terminal/communication/ConnectionManager.kt:118-120 | false without a transport; otherwise the transport's own result, with the bytes recorded as it records them |
| Connection.ConnectionManager.SendCommand | app/src/main/java/com/chameleon/ultra/terminal/communication/ConnectionManager.kt:114-116 | as `sendData`, applied to the UTF-8 bytes of the text |
| Connection.ConnectionManager.IsConnected | app/src/main/java/com/chameleon/ultra/terminal/communication/ConnectionManager.kt:122-124 | true exactly when there is a transport and its link is open |
| Connection.ConnectionManager.GetConnectionType | app/src/main/java/com/chameleon/ultra/terminal/communication/ConnectionManager.kt:126-128 | NONE exactly when there is no transport, otherwise the transport's kind |
| Connection.ConnectedMeansLinkOpen | app/src/main/java/com/chameleon/ultra/terminal/communication/ConnectionManager.kt:53-57 | in the state Connected, `isConnected()` is true |
| Connection.Utf8CharRoundTrip | app/src/main/java/com/chameleon/ultra/terminal/communication/ConnectionManager.kt:115 | the UTF-8 bytes of a character decode back to its scalar value |
| Connection.Utf8Ascii | app/src/main/java/com/chameleon/ultra/terminal/communication/ConnectionManager.kt:115 | ASCII text is sent as one byte per character, its character code |
| Terminal.Capped | app/src/main/java/com/chameleon/ultra/terminal/terminal/TerminalViewModel.kt:157-167 | the new line is last; below the cap the list just grows; at the cap the oldest line is dropped; a list within the cap stays within it |
| Terminal.AppendAllBound | app/src/main/java/com/chameleon/ultra/terminal/terminal/TerminalViewModel.kt:157-167 | after any number of appended lines, the output stays within 1000 lines |
| Terminal.AppendAllSmall | app/src/main/java/com/chameleon/ultra/terminal/terminal/TerminalViewModel.kt:157-167 | while there is room, appending lines is concatenation |
| Terminal.ClassifyBuiltin | app/src/main/java/com/chameleon/ultra/terminal/terminal/TerminalViewModel.kt:70-86 | `help`, `clear`/`cls` and `quit`/`exit` are the built-ins, each recognised exactly by its keys |
| Terminal.Judge | app/src/main/java/com/chameleon/ultra/terminal/terminal/TerminalViewModel.kt:89-102 | malformed exactly when `parseCommand` gives null; otherwise it carries the parsed command and is accepted exactly when the keyword is valid |
| Terminal.PendingCommand | app/src/main/java/com/chameleon/ultra/terminal/terminal/TerminalViewModel.kt:88-105 | a command is handed on exactly for a line that is not a built-in and whose parse is accepted, and it is that parse |
| Terminal.PendingIsValid | app/src/main/java/com/chameleon/ultra/terminal/terminal/TerminalViewModel.kt:89-105 | a handed-on command is the parser's result for the line, and the catalog knows its keyword |
| Terminal.ParsedOutputShape | app/src/main/java/com/chameleon/ultra/terminal/terminal/TerminalViewModel.kt:89-102 | the parse and catalog reports keep the output within the cap, and, while there is room, keep the whole earlier output |
| Terminal.CommandOutputBound | app/src/main/java/com/chameleon/ultra/terminal/terminal/TerminalViewModel.kt:56-102 | handling a line never takes the output past 1000 lines |
| Terminal.ClearResets | app/src/main/java/com/chameleon/ultra/terminal/terminal/TerminalViewModel.kt:77-80 | `clear` or `cls`, in any case, leaves exactly the two cleared lines |
| Terminal.EchoKept | app/src/main/java/com/chameleon/ultra/terminal/terminal/TerminalViewModel.kt:56-57 | while there is room, every other line keeps the old output and adds the echo `proxmark3> <line>` right after it |
| Terminal.HelpListing | app/src/main/java/com/chameleon/ultra/terminal/terminal/TerminalViewModel.kt:71-76 | while there is room, `help` adds the echo and then the ten help lines as INFO |
| Terminal.UnknownWithoutSuggestions | app/src/main/java/com/chameleon/ultra/terminal/terminal/TerminalViewModel.kt:95-101 | an unknown keyword never has suggestions, so the "Did you mean" line is never added |
| Terminal.TrimmedAlwaysParses | app/src/main/java/com/chameleon/ultra/terminal/terminal/TerminalViewModel.kt:89-93 | the trimmed form of a non-blank line always parses, so the invalid-format report is never shown |
| Terminal.PreviousIndex | app/src/main/java/com/chameleon/ultra/terminal/terminal/TerminalViewModel.kt:135-139 | from the input line the newest entry is shown, then older ones, stopping at the oldest |
| Terminal.NextIndex | app/src/main/java/com/chameleon/ultra/terminal/terminal/TerminalViewModel.kt:148-154 | moves to the next newer entry, and back to "not navigating" (-1) after the newest |
| Terminal.NavigationInverse | app/src/main/java/com/chameleon/ultra/terminal/terminal/TerminalViewModel.kt:131-155 | "next" undoes "previous" except at the oldest entry, and "previous" undoes "next" except past the newest |
| Terminal.PreviousTimesValue | app/src/main/java/com/chameleon/ultra/terminal/terminal/TerminalViewModel.kt:131-142 | after k ≥ 1 presses of "previous", the k-th newest entry is shown, or the oldest once history runs out |
| Terminal.DispatchLinesMeaning | app/src/main/java/com/chameleon/ultra/terminal/terminal/TerminalViewModel.kt:105-128 | a dispatch reports exactly one of: no link, an unsupported command, or the execution, followed by a failure line exactly when the write failed; every line is an error exactly in the first two cases |
| Terminal.TerminalViewModel.constructor | app/src/main/java/com/chameleon/ultra/terminal/terminal/TerminalViewModel.kt:22-35 | the three welcome lines, an empty input and history, and index -1 |
| Terminal.TerminalViewModel.UpdateInput | app/src/main/java/com/chameleon/ultra/terminal/terminal/TerminalViewModel.kt:49-51 | only the input field changes |
| Terminal.TerminalViewModel.AddOutputLine | app/src/main/java/com/chameleon/ultra/terminal/terminal/TerminalViewModel.kt:157-167 | the line is appended within the 1000-line cap; nothing else changes |
| Terminal.TerminalViewModel.ReceiveResponse | app/src/main/java/com/chameleon/ultra/terminal/terminal/TerminalViewModel.kt:40-44 | a decoded device reply is appended as a RESPONSE line |
| Terminal.TerminalViewModel.ClearTerminal | app/src/main/java/com/chameleon/ultra/terminal/terminal/TerminalViewModel.kt:169-174 | the output becomes exactly the two cleared lines |
| Terminal.TerminalViewModel.GetPreviousCommand | app/src/main/java/com/chameleon/ultra/terminal/terminal/TerminalViewModel.kt:131-142 | null exactly with an empty history; otherwise the cursor moves as `PreviousIndex` says and the entry there is returned |
| Terminal.TerminalViewModel.GetNextCommand | app/src/main/java/com/chameleon/ultra/terminal/terminal/TerminalViewModel.kt:144-155 | null when the history is empty or no navigation is under way; otherwise the cursor moves as `NextIndex` says, returning that entry or `""` after the newest |
| Terminal.TerminalViewModel.AddInfoLines | app/src/main/java/com/chameleon/ultra/terminal/terminal/TerminalViewModel.kt:72-74 | each text is appended as an INFO line, in order, within the cap |
| Terminal.TerminalViewModel.ShowHelp | app/src/main/java/com/chameleon/ultra/terminal/terminal/TerminalViewModel.kt:71-76 | the ten help lines are appended as INFO |
| Terminal.TerminalViewModel.ReportParsed | app/src/main/java/com/chameleon/ultra/terminal/terminal/TerminalViewModel.kt:89-102 | adds the report for a malformed line or an unknown keyword, and returns the command exactly when it is accepted |
| Terminal.TerminalViewModel.Respond | app/src/main/java/com/chameleon/ultra/terminal/terminal/TerminalViewModel.kt:69-102 | the built-in's effect, or the parse and catalog report, and the command to dispatch |
| Terminal.TerminalViewModel.ExecuteCommand | app/src/main/java/com/chameleon/ultra/terminal/terminal/TerminalViewModel.kt:53-104 | a blank line changes nothing; otherwise the output is `CommandOutput` of the trimmed line, the line is added to a history capped at 100, the cursor is -1, the input is cleared, and the command to dispatch is returned; the caps and the cursor range are preserved |
| Terminal.TerminalViewModel.Dispatch | app/src/main/java/com/chameleon/ultra/terminal/terminal/TerminalViewModel.kt:105-128 | the output gains `DispatchLines` for the link state, the translation and the write; the frame is written exactly when the link is up, the command translates, and the write succeeds |

## Left out

- The UI composables and the `ChameleonUltraDevice` request/response
  polling are not part of this model. The polling uses timeouts and delays.
- Real USB-serial and RFCOMM I/O is out of scope: device discovery,
  115200 8N1, the SPP UUID, and the receive loops. A transport is reduced to
  an open flag and the list of written arrays. Connect and write outcomes
  are parameters.
- The receive flow (`startDataReceiving`, the `receivedData` flow and its
  collector) needs coroutines. `ReceiveResponse` takes the reply already
  decoded from UTF-8.
- Concurrency is not modelled. `Dispatch` runs as a separate step after
  `ExecuteCommand`. Other output written between the two, such as replies,
  is not interleaved.
- Terminal.TerminalViewModel.Dispatch: the `catch` that prints
  "Error executing command" is not modelled, because none of the modelled
  steps throws.
- The Android permission check arrives as the parameter `permitted`.
- Timestamps of terminal lines and all logging are left out.
- Text.Lower, Text.IsWhitespace, Text.IsRegexSpace and Text.DigitOf are
  modelled for ASCII characters only. Kotlin's `lowercase()`, `isWhitespace()`
  and digit tests also treat other Unicode characters.
- Connection.Transport.Connect: the link is open exactly when `connect()`
  reports success. One Bluetooth corner is not modelled: the socket connects,
  opening its streams then fails, and `connect()` returns false with the
  socket still connected.
- `CancellationException` escaping from the coroutine machinery is not
  modelled.
- The `ConnectionType` enum's declaring file is not part of this model; its
  three values are taken from its uses.
- Uncounted opcodes (`CMD_GET_SLOT`, the emulator commands, SAK/ATQA) and the
  `STATUS_*` codes are declared as constants only. No code builds or checks
  them.
