/**
 * The pieces of Kotlin's string library the command layer relies on:
 * `trim()`, `isBlank()`, `split("\\s+".toRegex())`, `lowercase()`,
 * `startsWith`, `joinToString` and `toIntOrNull(radix)`. Character classes
 * are those of ASCII.
 */
module Text {
  import opened Wrappers

  /** Kotlin `Char.isWhitespace()` on ASCII: tab..carriage return, 0x1C..0x1F and space. */
  predicate IsWhitespace(c: char)
  {
    c == ' ' || (0x09 <= c as int <= 0x0D) || (0x1C <= c as int <= 0x1F)
  }

  /** The regex class `\s`: space and tab..carriage return. Every such char is whitespace. */
  predicate IsRegexSpace(c: char)
    ensures IsRegexSpace(c) ==> IsWhitespace(c)
  {
    c == ' ' || (0x09 <= c as int <= 0x0D)
  }

  /** A token: non-empty and free of whitespace. */
  predicate IsToken(t: string)
  {
    t != [] && forall k :: 0 <= k < |t| ==> !IsWhitespace(t[k])
  }

  // ---------------------------------------------------------------- trim

  function TrimStart(s: string): (r: string)
    ensures |r| <= |s| && r == s[|s| - |r|..]
    ensures r == [] || !IsWhitespace(r[0])
    ensures forall k :: 0 <= k < |s| - |r| ==> IsWhitespace(s[k])
  {
    if s != [] && IsWhitespace(s[0]) then
      var r := TrimStart(s[1..]);
      assert s[1..][|s| - 1 - |r|..] == s[|s| - |r|..];
      assert forall k :: 1 <= k < |s| - |r| ==> s[k] == s[1..][k - 1];
      r
    else s
  }

  function TrimEnd(s: string): (r: string)
    ensures |r| <= |s| && r == s[..|r|]
    ensures r == [] || !IsWhitespace(r[|r| - 1])
    ensures forall k :: |r| <= k < |s| ==> IsWhitespace(s[k])
  {
    if s != [] && IsWhitespace(s[|s| - 1]) then TrimEnd(s[..|s| - 1]) else s
  }

  /** How many leading characters `trim()` drops. */
  function TrimOffset(s: string): (n: nat)
    ensures n <= |s|
  {
    |s| - |TrimStart(s)|
  }

  /** The whitespace `trimEnd` drops from the trimmed-start text sits at the end of the original. */
  lemma TrimParts(s: string, t: string, r: string)
    requires |t| <= |s| && t == s[|s| - |t|..]
    requires |r| <= |t| && r == t[..|r|]
    requires forall k :: |r| <= k < |t| ==> IsWhitespace(t[k])
    ensures forall k :: |s| - |t| + |r| <= k < |s| ==> IsWhitespace(s[k])
    ensures r == s[|s| - |t|..|s| - |t| + |r|]
  {
    var off := |s| - |t|;
    forall k | off + |r| <= k < |s| ensures IsWhitespace(s[k]) {
      assert s[k] == t[k - off];
    }
  }

  /**
   * `trim()`: the substring left after dropping whitespace from both ends;
   * everything dropped is whitespace, and what is left neither starts nor
   * ends with whitespace.
   */
  function Trim(s: string): (r: string)
    ensures TrimOffset(s) + |r| <= |s| && r == s[TrimOffset(s)..TrimOffset(s) + |r|]
    ensures forall k :: 0 <= k < TrimOffset(s) ==> IsWhitespace(s[k])
    ensures forall k :: TrimOffset(s) + |r| <= k < |s| ==> IsWhitespace(s[k])
    ensures r == [] || (!IsWhitespace(r[0]) && !IsWhitespace(r[|r| - 1]))
  {
    var t := TrimStart(s);
    var r := TrimEnd(t);
    TrimParts(s, t, r);
    r
  }

  /** `isBlank()`: every character is whitespace. */
  predicate IsBlank(s: string)
  {
    forall k :: 0 <= k < |s| ==> IsWhitespace(s[k])
  }

  lemma TrimStartEmpty(s: string)
    ensures TrimStart(s) == [] <==> IsBlank(s)
  {
    var r := TrimStart(s);
    if r != [] {
      assert r[0] == s[|s| - |r|];
    }
  }

  /** A string trims to nothing exactly when it is blank. */
  lemma TrimEmptyIffBlank(s: string)
    ensures Trim(s) == [] <==> IsBlank(s)
  {
    TrimStartEmpty(s);
  }

  /**
   * `trim()` is determined by where the text starts and ends: if only
   * whitespace lies outside `s[i..j]` and that slice starts and ends with
   * non-whitespace, the slice is the result.
   */
  lemma TrimBetween(s: string, i: nat, j: nat)
    requires i < j <= |s|
    requires forall k :: 0 <= k < i ==> IsWhitespace(s[k])
    requires forall k :: j <= k < |s| ==> IsWhitespace(s[k])
    requires !IsWhitespace(s[i]) && !IsWhitespace(s[j - 1])
    ensures Trim(s) == s[i..j]
  {
    var off, r := TrimOffset(s), Trim(s);
    assert r != [];
    assert s[off] == r[0] && s[off + |r| - 1] == r[|r| - 1];
    assert off == i;
    assert off + |r| == j;
  }

  /** Trimming a string without whitespace at either end leaves it unchanged. */
  lemma TrimNoop(s: string)
    requires s == [] || (!IsWhitespace(s[0]) && !IsWhitespace(s[|s| - 1]))
    ensures Trim(s) == s
  {
  }

  /** `trim()` is idempotent. */
  lemma TrimIdempotent(s: string)
    ensures Trim(Trim(s)) == Trim(s)
  {
    TrimNoop(Trim(s));
  }

  // ---------------------------------------------------------------- split

  /** The end of the run of non-`\s` characters starting at `i`. */
  function TokenEnd(s: string, i: nat): (j: nat)
    requires i <= |s|
    ensures i <= j <= |s|
    ensures forall k :: i <= k < j ==> !IsRegexSpace(s[k])
    ensures j < |s| ==> IsRegexSpace(s[j])
    decreases |s| - i
  {
    if i == |s| || IsRegexSpace(s[i]) then i else TokenEnd(s, i + 1)
  }

  /** The end of the run of `\s` characters starting at `i`. */
  function SpaceEnd(s: string, i: nat): (j: nat)
    requires i <= |s|
    ensures i <= j <= |s|
    ensures forall k :: i <= k < j ==> IsRegexSpace(s[k])
    ensures j < |s| ==> !IsRegexSpace(s[j])
    decreases |s| - i
  {
    if i == |s| || !IsRegexSpace(s[i]) then i else SpaceEnd(s, i + 1)
  }

  /**
   * Kotlin `split(Regex("\\s+"))` with the default limit: the pieces between
   * maximal runs of `\s`, keeping empty pieces at either end.
   */
  function Split(s: string): (parts: seq<string>)
    ensures |parts| >= 1
    decreases |s|
  {
    var i := TokenEnd(s, 0);
    if i == |s| then [s] else [s[..i]] + Split(s[SpaceEnd(s, i)..])
  }

  predicate NoRegexSpace(t: string)
  {
    forall k :: 0 <= k < |t| ==> !IsRegexSpace(t[k])
  }

  predicate AllRegexSpace(w: string)
  {
    forall k :: 0 <= k < |w| ==> IsRegexSpace(w[k])
  }

  lemma TokenEndOfToken(t: string, rest: string, i: nat)
    requires i <= |t| && NoRegexSpace(t) && (rest == [] || IsRegexSpace(rest[0]))
    ensures TokenEnd(t + rest, i) == |t|
    decreases |t| - i
  {
    if i < |t| {
      assert (t + rest)[i] == t[i];
      TokenEndOfToken(t, rest, i + 1);
    }
  }

  lemma SpaceEndOfRun(s: string, w: string, rest: string, i: nat)
    requires |s| <= i <= |s| + |w| && AllRegexSpace(w) && (rest == [] || !IsRegexSpace(rest[0]))
    ensures SpaceEnd(s + w + rest, i) == |s| + |w|
    decreases |s| + |w| - i
  {
    if i < |s| + |w| {
      assert (s + w + rest)[i] == w[i - |s|];
      SpaceEndOfRun(s, w, rest, i + 1);
    }
  }

  /** A string without `\s` splits into itself. */
  lemma SplitSingle(t: string)
    requires NoRegexSpace(t)
    ensures Split(t) == [t]
  {
    TokenEndOfToken(t, [], 0);
    assert t + [] == t;
  }

  /**
   * The defining equation of splitting: a piece free of `\s`, then a
   * non-empty run of `\s`, then text that does not start with `\s`, splits
   * into that piece followed by the split of the text.
   */
  lemma SplitCons(t: string, w: string, rest: string)
    requires NoRegexSpace(t) && w != [] && AllRegexSpace(w)
    requires rest == [] || !IsRegexSpace(rest[0])
    ensures Split(t + w + rest) == [t] + Split(rest)
  {
    var s := t + w + rest;
    assert s == t + (w + rest);
    TokenEndOfToken(t, w + rest, 0);
    SpaceEndOfRun(t, w, rest, |t|);
    assert s[..|t|] == t;
    assert s[|t| + |w|..] == rest;
  }

  // ---------------------------------------------------------------- join

  /** `joinToString(sep)`. */
  function JoinWith(parts: seq<string>, sep: string): (r: string)
    decreases |parts|
  {
    if |parts| == 0 then ""
    else if |parts| == 1 then parts[0]
    else parts[0] + sep + JoinWith(parts[1..], sep)
  }

  lemma {:induction false} JoinLength(parts: seq<string>, sep: string)
    requires |parts| >= 1
    ensures |JoinWith(parts, sep)| == SumLengths(parts) + (|parts| - 1) * |sep|
    decreases |parts|
  {
    if |parts| > 1 {
      JoinLength(parts[1..], sep);
    }
  }

  function SumLengths(parts: seq<string>): nat
  {
    if parts == [] then 0 else |parts[0]| + SumLengths(parts[1..])
  }

  /** Joining tokens with single spaces and splitting again gives the tokens back. */
  lemma {:induction false} SplitJoin(parts: seq<string>)
    requires |parts| >= 1
    requires forall i :: 0 <= i < |parts| ==> IsToken(parts[i])
    ensures Split(JoinWith(parts, " ")) == parts
    decreases |parts|
  {
    TokenNoRegexSpace(parts[0]);
    if |parts| == 1 {
      SplitSingle(parts[0]);
    } else {
      var rest := JoinWith(parts[1..], " ");
      JoinStartsWith(parts[1..], " ");
      assert rest[0] == parts[1][0];
      SplitCons(parts[0], " ", rest);
      SplitJoin(parts[1..]);
    }
  }

  lemma TokenNoRegexSpace(t: string)
    requires IsToken(t)
    ensures NoRegexSpace(t)
  {
  }

  lemma {:induction false} JoinStartsWith(parts: seq<string>, sep: string)
    requires |parts| >= 1 && parts[0] != []
    ensures |JoinWith(parts, sep)| >= |parts[0]|
    ensures JoinWith(parts, sep)[..|parts[0]|] == parts[0]
  {
    if |parts| > 1 {
      assert JoinWith(parts, sep) == parts[0] + (sep + JoinWith(parts[1..], sep));
    }
  }

  lemma {:induction false} JoinEndsWith(parts: seq<string>, sep: string)
    requires |parts| >= 1 && parts[|parts| - 1] != []
    ensures |JoinWith(parts, sep)| >= |parts[|parts| - 1]|
    ensures JoinWith(parts, sep)[|JoinWith(parts, sep)| - 1] == parts[|parts| - 1][|parts[|parts| - 1]| - 1]
    decreases |parts|
  {
    if |parts| > 1 {
      JoinEndsWith(parts[1..], sep);
      assert parts[1..][|parts| - 2] == parts[|parts| - 1];
    }
  }

  /**
   * Pieces with an arbitrary separator between each neighbouring pair:
   * `parts[0] + seps[0] + parts[1] + ... + parts[n-1]`. A typed command line
   * is of this form, with runs of `\s` as separators.
   */
  function Interleave(parts: seq<string>, seps: seq<string>): string
    requires |parts| >= 1 && |seps| == |parts| - 1
    decreases |parts|
  {
    if |parts| == 1 then parts[0]
    else parts[0] + seps[0] + Interleave(parts[1..], seps[1..])
  }

  /** Interleaved non-empty pieces begin with the first piece's first character and end with the last piece's last. */
  lemma {:induction false} InterleaveEnds(parts: seq<string>, seps: seq<string>)
    requires |parts| >= 1 && |seps| == |parts| - 1
    requires forall i :: 0 <= i < |parts| ==> parts[i] != []
    ensures Interleave(parts, seps) != []
    ensures Interleave(parts, seps)[0] == parts[0][0]
    ensures Interleave(parts, seps)[|Interleave(parts, seps)| - 1] == parts[|parts| - 1][|parts[|parts| - 1]| - 1]
    decreases |parts|
  {
    if |parts| > 1 {
      InterleaveEnds(parts[1..], seps[1..]);
      assert parts[1..][|parts| - 2] == parts[|parts| - 1];
      assert Interleave(parts, seps) == parts[0] + (seps[0] + Interleave(parts[1..], seps[1..]));
    }
  }

  /** Splitting tokens separated by non-empty runs of `\s` gives back the tokens. */
  lemma {:induction false} SplitInterleave(parts: seq<string>, seps: seq<string>)
    requires |parts| >= 1 && |seps| == |parts| - 1
    requires forall i :: 0 <= i < |parts| ==> IsToken(parts[i])
    requires forall i :: 0 <= i < |seps| ==> seps[i] != [] && AllRegexSpace(seps[i])
    ensures Split(Interleave(parts, seps)) == parts
    decreases |parts|
  {
    TokenNoRegexSpace(parts[0]);
    if |parts| == 1 {
      SplitSingle(parts[0]);
    } else {
      var rest := Interleave(parts[1..], seps[1..]);
      InterleaveEnds(parts[1..], seps[1..]);
      assert !IsWhitespace(parts[1][0]);
      SplitCons(parts[0], seps[0], rest);
      SplitInterleave(parts[1..], seps[1..]);
    }
  }

  // ---------------------------------------------------------------- case

  function LowerChar(c: char): (d: char)
  {
    if 'A' <= c <= 'Z' then (c as int + 32) as char else c
  }

  /** `lowercase()` on ASCII letters. */
  function Lower(s: string): (r: string)
    ensures |r| == |s|
    ensures forall k :: 0 <= k < |s| ==> r[k] == LowerChar(s[k])
  {
    seq(|s|, k requires 0 <= k < |s| => LowerChar(s[k]))
  }

  /** Lowercasing is idempotent and keeps whitespace where it was. */
  lemma LowerIdempotent(s: string)
    ensures Lower(Lower(s)) == Lower(s)
    ensures forall k :: 0 <= k < |s| ==> (IsWhitespace(Lower(s)[k]) <==> IsWhitespace(s[k]))
  {
  }

  predicate StartsWith(s: string, prefix: string)
  {
    |prefix| <= |s| && s[..|prefix|] == prefix
  }

  // ---------------------------------------------------------------- numbers

  /** Kotlin's `digitOf(c, radix)` on ASCII: the digit's value, or -1. */
  function DigitOf(c: char, radix: nat): (d: int)
    requires 2 <= radix <= 36
    ensures -1 <= d < radix
  {
    var v := if '0' <= c <= '9' then c as int - '0' as int
             else if 'a' <= c <= 'z' then c as int - 'a' as int + 10
             else if 'A' <= c <= 'Z' then c as int - 'A' as int + 10
             else -1;
    if v < radix then v else -1
  }

  /** The value of a string of digits in the given radix, or None if one is not a digit. */
  function DigitsValue(s: string, radix: nat): (r: Option<nat>)
    requires 2 <= radix <= 36
    ensures r.Some? <==> forall k :: 0 <= k < |s| ==> DigitOf(s[k], radix) >= 0
    decreases |s|
  {
    if s == [] then Some(0)
    else
      var d := DigitOf(s[|s| - 1], radix);
      match DigitsValue(s[..|s| - 1], radix)
      case None => None
      case Some(v) =>
        if d < 0 then None else Some(v * radix + d)
  }

  /**
   * Kotlin's `String.toIntOrNull(radix)`: an optional sign (recognised only
   * when the first char sorts below '0'), at least one digit, and a value
   * that fits a 32-bit `Int`. `toInt(radix)` throws exactly where this is null.
   */
  function ToIntOrNull(s: string, radix: nat): (r: Option<int>)
    requires 2 <= radix <= 36
    ensures r.Some? ==> -0x8000_0000 <= r.value < 0x8000_0000
  {
    if s == [] then None
    else
      var first := s[0];
      var signed := first < '0';
      if signed && |s| == 1 then None
      else if signed && first != '-' && first != '+' then None
      else
        match DigitsValue(if signed then s[1..] else s, radix)
        case None => None
        case Some(v) =>
          var n: int := v;
          var value := if first == '-' then -n else n;
          if -0x8000_0000 <= value < 0x8000_0000 then Some(value) else None
  }

  function DigitChar(d: nat): (c: char)
    requires d < 16
  {
    if d < 10 then ('0' as int + d) as char else ('A' as int + d - 10) as char
  }

  lemma DigitCharOf(d: nat, radix: nat)
    requires d < radix && 2 <= radix <= 16
    ensures DigitOf(DigitChar(d), radix) == d
  {
  }

  /** The decimal numeral of a natural number, without sign or leading zeros. */
  function Decimal(n: nat): (s: string)
    ensures |s| >= 1
  {
    if n < 10 then [DigitChar(n)] else Decimal(n / 10) + [DigitChar(n % 10)]
  }

  lemma {:induction false} DecimalValue(n: nat)
    ensures DigitsValue(Decimal(n), 10) == Some(n)
  {
    var s := Decimal(n);
    DigitCharOf(n % 10, 10);
    if n >= 10 {
      DecimalValue(n / 10);
      assert s[..|s| - 1] == Decimal(n / 10);
    }
  }

  /** `toIntOrNull` reads back the decimal numeral of every natural number that fits an `Int`. */
  lemma DecimalRoundTrip(n: nat)
    requires n < 0x8000_0000
    ensures ToIntOrNull(Decimal(n), 10) == Some(n)
  {
    DecimalValue(n);
    assert Decimal(n)[0] >= '0' by {
      DecimalFirst(n);
    }
  }

  lemma {:induction false} DecimalFirst(n: nat)
    ensures '0' <= Decimal(n)[0] <= '9'
  {
    if n >= 10 {
      DecimalFirst(n / 10);
    }
  }
}
