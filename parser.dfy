/**
 * `ProxmarkCommandParser`: tokenises a command line, classifies a keyword by
 * its family prefix, and checks keywords against a fixed catalog of known
 * command strings (permissively: any prefix of an entry is known).
 */
module ProxmarkCommandParser {
  import opened Wrappers
  import opened Text
  import opened ProxmarkCommands

  // ---------------------------------------------------------------- parseCommand

  /**
   * `parseCommand`: null exactly for blank input; otherwise the first
   * `\s`-separated token, lowercased, and the remaining tokens verbatim.
   * No token is empty or contains a `\s` character.
   */
  function ParseCommand(input: string): (r: Option<ProxmarkCommand>)
    ensures r.None? <==> IsBlank(input)
    ensures r.Some? ==> r.value.command != [] && NoRegexSpace(r.value.command)
    ensures r.Some? ==> Lower(r.value.command) == r.value.command
    ensures r.Some? ==> forall i :: 0 <= i < |r.value.args| ==>
                          r.value.args[i] != [] && NoRegexSpace(r.value.args[i])
  {
    var trimmed := Trim(input);
    TrimEmptyIffBlank(input);
    if trimmed == [] then None
    else
      var parts := Split(trimmed);
      SplitPieces(trimmed);
      LowerIdempotent(parts[0]);
      LowerKeepsRegexSpace(parts[0]);
      Some(ProxmarkCommand(Lower(parts[0]), parts[1..]))
  }

  lemma LowerKeepsRegexSpace(s: string)
    requires NoRegexSpace(s)
    ensures NoRegexSpace(Lower(s))
  {
  }

  /** Splitting text that neither starts nor ends with `\s` yields non-empty, `\s`-free pieces. */
  lemma {:induction false} SplitPieces(s: string)
    requires s != [] && !IsRegexSpace(s[0]) && !IsRegexSpace(s[|s| - 1])
    ensures forall i :: 0 <= i < |Split(s)| ==> Split(s)[i] != [] && NoRegexSpace(Split(s)[i])
    decreases |s|
  {
    var i := TokenEnd(s, 0);
    if i < |s| {
      var j := SpaceEnd(s, i);
      assert j < |s|;
      var rest := s[j..];
      assert rest[|rest| - 1] == s[|s| - 1];
      SplitPieces(rest);
      assert Split(s) == [s[..i]] + Split(rest);
    }
  }

  /** Blank padding around a token sequence is dropped by `trim()`. */
  lemma TrimPadded(front: string, t: string, back: string)
    requires IsBlank(front) && IsBlank(back)
    requires t != [] && !IsWhitespace(t[0]) && !IsWhitespace(t[|t| - 1])
    ensures Trim(front + t + back) == t
  {
    var s := front + t + back;
    var i, j := |front|, |front| + |t|;
    assert forall k :: 0 <= k < i ==> s[k] == front[k];
    assert forall k :: j <= k < |s| ==> s[k] == back[k - j];
    assert s[i] == t[0] && s[j - 1] == t[|t| - 1];
    TrimBetween(s, i, j);
    assert s[i..j] == t;
  }

  lemma SplitThree(a: string, w1: string, b: string, w2: string, c: string)
    requires NoRegexSpace(a) && NoRegexSpace(b) && NoRegexSpace(c)
    requires w1 != [] && AllRegexSpace(w1) && w2 != [] && AllRegexSpace(w2)
    requires b != [] && c != []
    ensures Split(a + w1 + (b + w2 + c)) == [a, b, c]
  {
    var tail := b + w2 + c;
    SplitSingle(c);
    SplitCons(b, w2, c);
    assert Split(tail) == [b, c];
    assert tail[0] == b[0];
    SplitCons(a, w1, tail);
  }

  lemma ExamplePieces(body: string, a: string, w1: string, b: string, w2: string, c: string)
    requires body == "DATA   setslot 3" && a == "DATA" && w1 == "   " && b == "setslot" && w2 == " " && c == "3"
    ensures body == a + w1 + (b + w2 + c)
    ensures NoRegexSpace(a) && NoRegexSpace(b) && NoRegexSpace(c)
    ensures w1 != [] && AllRegexSpace(w1) && w2 != [] && AllRegexSpace(w2)
  {
  }

  lemma SplitExampleBody(body: string)
    requires body == "DATA   setslot 3"
    ensures Split(body) == ["DATA", "setslot", "3"]
  {
    ExamplePieces(body, "DATA", "   ", "setslot", " ", "3");
    SplitThree("DATA", "   ", "setslot", " ", "3");
  }

  lemma TrimExample(line: string)
    requires line == "  DATA   setslot 3 "
    ensures Trim(line) == "DATA   setslot 3"
  {
    var body := "DATA   setslot 3";
    assert line == "  " + body + " ";
    TrimPadded("  ", body, " ");
  }

  lemma LowerExample(keyword: string)
    requires keyword == "DATA"
    ensures Lower(keyword) == "data"
  {
    assert Lower(keyword)[0] == 'd';
  }

  /** For instance `"  DATA   setslot 3 "` parses to `data` with arguments `setslot`, `3`. */
  lemma ParseExample(line: string)
    requires line == "  DATA   setslot 3 "
    ensures ParseCommand(line) == Some(ProxmarkCommand("data", ["setslot", "3"]))
  {
    assert !IsBlank(line) by {
      assert !IsWhitespace(line[2]);
    }
    TrimExample(line);
    var body := Trim(line);
    SplitExampleBody(body);
    LowerExample(Split(body)[0]);
  }

  /**
   * The meaning of `parseCommand` on every typed line: blank padding on
   * either side, tokens separated by non-empty runs of `\s`. The keyword is
   * the first token lowercased, and the arguments are the remaining tokens
   * in order, their case kept.
   */
  lemma ParseTokens(front: string, parts: seq<string>, seps: seq<string>, back: string)
    requires IsBlank(front) && IsBlank(back)
    requires |parts| >= 1 && |seps| == |parts| - 1
    requires forall i :: 0 <= i < |parts| ==> IsToken(parts[i])
    requires forall i :: 0 <= i < |seps| ==> seps[i] != [] && AllRegexSpace(seps[i])
    ensures ParseCommand(front + Interleave(parts, seps) + back) ==
              Some(ProxmarkCommand(Lower(parts[0]), parts[1..]))
  {
    var body := Interleave(parts, seps);
    var line := front + body + back;
    InterleaveEnds(parts, seps);
    TrimPadded(front, body, back);
    assert !IsBlank(line) by {
      assert line[|front|] == body[0];
    }
    SplitInterleave(parts, seps);
  }

  /**
   * Round trip: a command whose keyword and arguments are tokens parses back
   * from its full command string, with the keyword lowercased.
   */
  lemma ParseFullCommand(c: ProxmarkCommand)
    requires IsToken(c.command)
    requires forall i :: 0 <= i < |c.args| ==> IsToken(c.args[i])
    ensures ParseCommand(FullCommand(c)) == Some(ProxmarkCommand(Lower(c.command), c.args))
    ensures Lower(c.command) == c.command ==> ParseCommand(FullCommand(c)) == Some(c)
  {
    var parts := [c.command] + c.args;
    assert forall i :: 0 <= i < |parts| ==> IsToken(parts[i]) by {
      forall i | 0 <= i < |parts| ensures IsToken(parts[i]) {
        if i > 0 { assert parts[i] == c.args[i - 1]; }
      }
    }
    FullCommandIsJoin(c);
    var line := FullCommand(c);
    JoinStartsWith(parts, " ");
    JoinEndsWith(parts, " ");
    assert line[0] == c.command[0];
    TrimNoop(line);
    TrimEmptyIffBlank(line);
    assert !IsBlank(line) by { assert !IsWhitespace(line[0]); }
    SplitJoin(parts);
    assert parts[1..] == c.args;
  }

  // ---------------------------------------------------------------- getCommandCategory

  /** The family prefix a category is recognised by; OTHER has none. */
  function CategoryPrefix(c: CommandCategory): string
  {
    match c
    case HF => "hf"
    case LF => "lf"
    case DATA => "data"
    case HW => "hw"
    case SCRIPT => "script"
    case TRACE => "trace"
    case EMV => "emv"
    case OTHER => ""
  }

  /** `getCommandCategory`: the first family prefix the keyword starts with, case-sensitively. */
  function GetCommandCategory(command: string): (c: CommandCategory)
    ensures c != OTHER ==> StartsWith(command, CategoryPrefix(c))
  {
    if StartsWith(command, "hf") then HF
    else if StartsWith(command, "lf") then LF
    else if StartsWith(command, "data") then DATA
    else if StartsWith(command, "hw") then HW
    else if StartsWith(command, "script") then SCRIPT
    else if StartsWith(command, "trace") then TRACE
    else if StartsWith(command, "emv") then EMV
    else OTHER
  }

  /** No keyword starts with two different family prefixes. */
  lemma PrefixesDisjoint(command: string, a: CommandCategory, b: CommandCategory)
    requires a != OTHER && b != OTHER && a != b
    ensures !(StartsWith(command, CategoryPrefix(a)) && StartsWith(command, CategoryPrefix(b)))
  {
    var pa, pb := CategoryPrefix(a), CategoryPrefix(b);
    PrefixTwo(command, pa);
    PrefixTwo(command, pb);
    assert pa[..2] != pb[..2] by {
      assert pa[0] != pb[0] || pa[1] != pb[1];
    }
  }

  lemma PrefixTwo(s: string, p: string)
    requires |p| >= 2
    ensures StartsWith(s, p) ==> s[..2] == p[..2]
  {
    if StartsWith(s, p) {
      assert s[..2] == s[..|p|][..2];
    }
  }

  /**
   * The category depends only on which family prefix the keyword has, so the
   * order of the checks does not matter: a category is chosen exactly when the
   * keyword starts with its prefix, and OTHER exactly when it starts with none.
   */
  lemma CategoryByPrefix(command: string, c: CommandCategory)
    ensures c != OTHER ==> (GetCommandCategory(command) == c <==> StartsWith(command, CategoryPrefix(c)))
    ensures GetCommandCategory(command) == OTHER <==>
              forall d :: d != OTHER ==> !StartsWith(command, CategoryPrefix(d))
  {
    if c != OTHER && StartsWith(command, CategoryPrefix(c)) && GetCommandCategory(command) != c {
      PrefixesDisjoint(command, c, GetCommandCategory(command));
    }
    if GetCommandCategory(command) == OTHER {
      forall d | d != OTHER ensures !StartsWith(command, CategoryPrefix(d)) {
      }
    }
  }

  /** The check is case-sensitive: `HF` is not in the HF family. */
  lemma CategoryExamples()
    ensures GetCommandCategory("hf14a") == HF
    ensures GetCommandCategory("HF") == OTHER
    ensures GetCommandCategory("zzz") == OTHER
  {
    assert "hf14a"[..2] == "hf";
    assert "HF"[..2][0] != "hf"[0] && "HF"[..2][0] != "lf"[0] && "HF"[..2][0] != "hw"[0];
    assert "zzz"[..2][0] != "hf"[0] && "zzz"[..2][0] != "lf"[0] && "zzz"[..2][0] != "hw"[0];
    assert "zzz"[..3][0] != "emv"[0];
  }

  // ---------------------------------------------------------------- catalog

  /** `getKnownCommands()`, in declaration order: the HF, LF, data, hardware and other groups. */
  const KnownCommands: seq<string> := HfCommands + LfCommands + DataCommands + HwCommands + OtherCommands

  const HfCommands: seq<string> := [
    "hf search", "hf 14a info", "hf 14a reader", "hf 14a raw", "hf 14a apdu",
    "hf 14a dump", "hf 14a clone", "hf 14b info", "hf 14b reader", "hf 14b raw",
    "hf 15 info", "hf 15 reader", "hf mf rdbl", "hf mf rdsc", "hf mf wrbl",
    "hf mf chk", "hf mf nested", "hf mf hardnested", "hf mf autopwn", "hf mf dump",
    "hf mf restore", "hf mf clone", "hf mfu info", "hf mfu dump", "hf mfu wrbl"
  ]

  const LfCommands: seq<string> := [
    "lf search", "lf read", "lf tune", "lf em 410x reader", "lf em 410x clone",
    "lf em 410x dump", "lf hid reader", "lf hid clone", "lf indala reader",
    "lf indala clone", "lf t55xx detect", "lf t55xx read", "lf t55xx write",
    "lf t55xx dump"
  ]

  const DataCommands: seq<string> := [
    "data hex2bin", "data bin2hex", "data bitsamples", "data samples",
    "data autocorr", "data dirthreshold", "data undecimate"
  ]

  const HwCommands: seq<string> := [
    "hw status", "hw ping", "hw version", "hw tune", "hw setlfdivisor",
    "hw setmux", "hw reset", "hw standalone"
  ]

  const OtherCommands: seq<string> := ["help", "quit", "exit", "clear", "cls"]

  /** Kotlin `any { it.startsWith(prefix) }`. */
  function AnyStartsWith(entries: seq<string>, prefix: string): (b: bool)
    ensures b <==> exists i :: 0 <= i < |entries| && StartsWith(entries[i], prefix)
  {
    if entries == [] then false
    else StartsWith(entries[0], prefix) || AnyStartsWith(entries[1..], prefix)
  }

  /** `isValidCommand`: some catalog entry starts with the lowercased keyword. */
  function IsValidCommand(command: string): (b: bool)
    ensures b <==> exists i :: 0 <= i < |KnownCommands| && StartsWith(KnownCommands[i], Lower(command))
  {
    AnyStartsWith(KnownCommands, Lower(command))
  }

  /** The check is permissive: a bare family prefix, or a single letter, is known, in any case. */
  lemma ValidExamples()
    ensures IsValidCommand("hf") && IsValidCommand("h") && IsValidCommand("HW")
  {
    LowerNoUpper("hf");
    LowerNoUpper("h");
    assert KnownCommands[0] == "hf search";
    assert KnownCommands[0][..2] == "hf";
    assert KnownCommands[0][..1] == "h";
    assert Lower("HW") == "hw" by {
      assert Lower("HW")[0] == 'h' && Lower("HW")[1] == 'w';
    }
    assert KnownCommands[46] == "hw status";
    assert KnownCommands[46][..2] == "hw";
  }

  /** A keyword no entry starts with is unknown. */
  lemma InvalidExample()
    ensures !IsValidCommand("zzz")
  {
    LowerNoUpper("zzz");
    CatalogInitials();
    forall i | 0 <= i < |KnownCommands| ensures !StartsWith(KnownCommands[i], "zzz") {
      assert KnownCommands[i][0] != 'z';
    }
  }

  /** All entries of `group` are at least three long and begin with one of h, l, d, q, e, c. */
  predicate KnownInitials(group: seq<string>)
  {
    forall i :: 0 <= i < |group| ==> |group[i]| >= 3 && group[i][0] in "hldqec"
  }

  lemma InitialsConcat(a: seq<string>, b: seq<string>)
    requires KnownInitials(a) && KnownInitials(b)
    ensures KnownInitials(a + b)
  {
    forall i | 0 <= i < |a + b| ensures |(a + b)[i]| >= 3 && (a + b)[i][0] in "hldqec" {
      if i < |a| {
        assert (a + b)[i] == a[i];
      } else {
        assert (a + b)[i] == b[i - |a|];
      }
    }
  }

  lemma HfInitials()
    ensures KnownInitials(HfCommands)
  {
  }

  lemma LfInitials()
    ensures KnownInitials(LfCommands)
  {
  }

  lemma OtherGroupsInitials()
    ensures KnownInitials(DataCommands) && KnownInitials(HwCommands) && KnownInitials(OtherCommands)
  {
  }

  /** Every catalog entry begins with one of the letters h, l, d, q, e, c. */
  lemma CatalogInitials()
    ensures forall i :: 0 <= i < |KnownCommands| ==> |KnownCommands[i]| >= 3 && KnownCommands[i][0] in "hldqec"
  {
    HfInitials();
    LfInitials();
    OtherGroupsInitials();
    InitialsConcat(HfCommands, LfCommands);
    InitialsConcat(HfCommands + LfCommands, DataCommands);
    InitialsConcat(HfCommands + LfCommands + DataCommands, HwCommands);
    InitialsConcat(HfCommands + LfCommands + DataCommands + HwCommands, OtherCommands);
  }

  lemma LowerNoUpper(s: string)
    requires forall k :: 0 <= k < |s| ==> !('A' <= s[k] <= 'Z')
    ensures Lower(s) == s
  {
  }

  /** An element order-preserving embedding: `a` is `b` with some elements dropped. */
  predicate IsSubsequence<T(==)>(a: seq<T>, b: seq<T>)
    decreases |b|
  {
    a == [] || (b != [] && if a[0] == b[0] then IsSubsequence(a[1..], b[1..]) else IsSubsequence(a, b[1..]))
  }

  lemma {:induction false} SubsequencePrefix<T>(a: seq<T>, b: seq<T>, n: nat)
    requires IsSubsequence(a, b) && n <= |a|
    ensures IsSubsequence(a[..n], b)
    decreases |b|
  {
    if n > 0 {
      if a[0] == b[0] {
        SubsequencePrefix(a[1..], b[1..], n - 1);
        assert a[..n][1..] == a[1..][..n - 1];
      } else {
        SubsequencePrefix(a, b[1..], n);
      }
    }
  }

  /** Kotlin `filter { it.startsWith(prefix) }`: the matching entries, in order, and all of them. */
  function FilterStartsWith(entries: seq<string>, prefix: string): (r: seq<string>)
    ensures forall i :: 0 <= i < |r| ==> StartsWith(r[i], prefix)
    ensures IsSubsequence(r, entries)
    ensures forall i :: 0 <= i < |entries| && StartsWith(entries[i], prefix) ==> entries[i] in r
    ensures |r| <= |entries|
  {
    if entries == [] then []
    else
      var rest := FilterStartsWith(entries[1..], prefix);
      assert forall i :: 1 <= i < |entries| ==> entries[i] == entries[1..][i - 1];
      if StartsWith(entries[0], prefix) then [entries[0]] + rest
      else
        assert rest != [] ==> rest[0] != entries[0];
        rest
  }

  /** Kotlin `take(n)`. */
  function Take<T>(s: seq<T>, n: nat): (r: seq<T>)
    ensures |r| == if |s| < n then |s| else n
    ensures r == s[..|r|]
  {
    if |s| <= n then s else s[..n]
  }

  /**
   * `getCommandSuggestions`: the first 10 catalog entries (or all, if fewer) starting with the
   * lowercased input, in catalog order.
   */
  function GetCommandSuggestions(partial: string): (r: seq<string>)
    ensures |r| <= 10
    ensures forall i :: 0 <= i < |r| ==> StartsWith(r[i], Lower(partial))
    ensures IsSubsequence(r, KnownCommands)
    ensures |r| == if |FilterStartsWith(KnownCommands, Lower(partial))| < 10
                   then |FilterStartsWith(KnownCommands, Lower(partial))| else 10
    ensures r == FilterStartsWith(KnownCommands, Lower(partial))[..|r|]
    ensures |FilterStartsWith(KnownCommands, Lower(partial))| <= 10 ==>
              forall i :: 0 <= i < |KnownCommands| && StartsWith(KnownCommands[i], Lower(partial)) ==>
                KnownCommands[i] in r
  {
    var matches := FilterStartsWith(KnownCommands, Lower(partial));
    var r := Take(matches, 10);
    SubsequencePrefix(matches, KnownCommands, |r|);
    r
  }

  /** Suggestions and validity test the same thing: there are suggestions exactly for valid keywords. */
  lemma SuggestionsIffValid(partial: string)
    ensures GetCommandSuggestions(partial) != [] <==> IsValidCommand(partial)
  {
    var matches := FilterStartsWith(KnownCommands, Lower(partial));
    assert matches != [] ==> StartsWith(matches[0], Lower(partial));
    if IsValidCommand(partial) {
      var i :| 0 <= i < |KnownCommands| && StartsWith(KnownCommands[i], Lower(partial));
      assert KnownCommands[i] in matches;
    }
    if matches != [] {
      SubsequenceMember(matches, KnownCommands);
    }
  }

  lemma {:induction false} SubsequenceMember<T>(a: seq<T>, b: seq<T>)
    requires IsSubsequence(a, b) && a != []
    ensures a[0] in b
    decreases |b|
  {
    if a[0] != b[0] {
      SubsequenceMember(a, b[1..]);
    }
  }
}
