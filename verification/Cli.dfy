/** Strings as the command parser uses them: blanks, trimming, splitting, decimal numbers. */
module Text {
  import opened Bytes

  /** The characters with the Unicode property White_Space. */
  predicate IsWhitespace(c: char) {
    var x := c as int;
    0x9 <= x <= 0xD || x == 0x20 || x == 0x85 || x == 0xA0 || x == 0x1680 || 0x2000 <= x <= 0x200A
    || x == 0x2028 || x == 0x2029 || x == 0x202F || x == 0x205F || x == 0x3000
  }

  function TrimStart(s: string): string {
    if s != "" && IsWhitespace(s[0]) then TrimStart(s[1..]) else s
  }

  function TrimEnd(s: string): string {
    if s != "" && IsWhitespace(s[|s| - 1]) then TrimEnd(s[..|s| - 1]) else s
  }

  function Trim(s: string): string {
    TrimEnd(TrimStart(s))
  }

  /** The parts of s between slashes. */
  function SplitSlash(s: string): (parts: seq<string>)
    ensures |parts| > 0
  {
    if s == "" then [""]
    else if s[0] == '/' then [""] + SplitSlash(s[1..])
    else
      var rest := SplitSlash(s[1..]);
      [[s[0]] + rest[0]] + rest[1..]
  }

  /** The parts before and after the first c. */
  function SplitOnce(s: string, c: char): Option<(string, string)> {
    if s == "" then None
    else if s[0] == c then Some(("", s[1..]))
    else
      match SplitOnce(s[1..], c)
      case None => None
      case Some((k, v)) => Some(([s[0]] + k, v))
  }

  function LowerChar(c: char): char {
    if 'A' <= c <= 'Z' then (c as int + 32) as char else c
  }

  function Lower(s: string): string {
    seq(|s|, i requires 0 <= i < |s| => LowerChar(s[i]))
  }

  /** Of the ASCII characters, the blanks are space, tab, line feed, vertical tab, form feed and carriage return. */
  lemma AsciiBlanks(c: char)
    requires c as int < 0x80
    ensures IsWhitespace(c) <==> c == ' ' || c as int in {9, 10, 11, 12, 13}
  {
  }

  /** Lower-casing pairs the two cases of the alphabet, letter by letter, and changes nothing else. */
  lemma LowerPairs(s: string)
    ensures Lower("ABCDEFGHIJKLMNOPQRSTUVWXYZ") == "abcdefghijklmnopqrstuvwxyz"
    ensures Lower(Lower(s)) == Lower(s) && (Lower(s) == s <==> forall i :: 0 <= i < |s| ==> !('A' <= s[i] <= 'Z'))
  {
    if Lower(s) == s {
      assert forall i :: 0 <= i < |s| ==> Lower(s)[i] == s[i];
    }
  }

  predicate IsDigit(c: char) {
    '0' <= c <= '9'
  }

  predicate AllDigits(s: string) {
    forall i :: 0 <= i < |s| ==> IsDigit(s[i])
  }

  function Decimal(s: string): nat
    requires AllDigits(s)
  {
    if s == "" then 0 else Decimal(s[..|s| - 1]) * 10 + (s[|s| - 1] as int - '0' as int)
  }

  /** An optional plus sign and at least one digit, in range. */
  function ParseU32(s: string): Option<u32> {
    var digits := if s != "" && s[0] == '+' then s[1..] else s;
    if digits == "" || !AllDigits(digits) || Decimal(digits) >= 0x1_0000_0000 then None else Some(Decimal(digits))
  }

  function Digit(n: nat): char
    requires n < 10
  {
    (n + '0' as int) as char
  }

  function PrintNat(n: nat): (s: string)
    ensures s != ""
  {
    if n < 10 then [Digit(n)] else PrintNat(n / 10) + [Digit(n % 10)]
  }

  lemma {:induction false} PrintedReadsBack(n: nat)
    ensures AllDigits(PrintNat(n)) && Decimal(PrintNat(n)) == n
  {
    var s := PrintNat(n);
    if n < 10 {
      assert s[..0] == "";
      assert Decimal(s) == Decimal(s[..0]) * 10 + n;
    } else {
      PrintedReadsBack(n / 10);
      assert s[..|s| - 1] == PrintNat(n / 10);
    }
  }

  lemma U32RoundTrip(n: u32)
    ensures ParseU32(PrintNat(n)) == Some(n)
  {
    PrintedReadsBack(n);
    assert IsDigit(PrintNat(n)[0]);
  }

  function Noughts(k: nat): string {
    if k == 0 then "" else Noughts(k - 1) + "0"
  }

  lemma {:induction false} NoughtsAreNought(k: nat)
    ensures AllDigits(Noughts(k)) && Decimal(Noughts(k)) == 0
  {
    if k > 0 {
      NoughtsAreNought(k - 1);
      OneMoreDigit(Noughts(k - 1), '0');
    }
  }

  lemma OneMoreDigit(s: string, c: char)
    requires AllDigits(s) && IsDigit(c)
    ensures AllDigits(s + [c]) && Decimal(s + [c]) == Decimal(s) * 10 + (c as int - '0' as int)
  {
    assert (s + [c])[..|s|] == s;
  }

  lemma {:induction false} NoughtsInFront(k: nat, s: string)
    requires AllDigits(s)
    ensures AllDigits(Noughts(k) + s) && Decimal(Noughts(k) + s) == Decimal(s)
  {
    if s == "" {
      NoughtsAreNought(k);
      assert Noughts(k) + s == Noughts(k);
    } else {
      var front, last := s[..|s| - 1], s[|s| - 1];
      NoughtsInFront(k, front);
      OneMoreDigit(Noughts(k) + front, last);
      assert Noughts(k) + s == Noughts(k) + front + [last];
    }
  }

  lemma {:induction false} DigitsAreNoughtsAndNumber(s: string) returns (k: nat)
    requires AllDigits(s) && s != ""
    ensures s == Noughts(k) + PrintNat(Decimal(s))
  {
    var front, last := s[..|s| - 1], s[|s| - 1];
    assert IsDigit(last) && Digit(last as int - '0' as int) == last && s == front + [last];
    if front == "" {
      k := 0;
    } else {
      var j := DigitsAreNoughtsAndNumber(front);
      k := if Decimal(front) == 0 then j + 1 else j;
      assert Decimal(front) == 0 ==> front == Noughts(j) + "0";
    }
  }

  predicate Spells(s: string, plus: bool, k: nat, n: nat) {
    s == (if plus then "+" else "") + (Noughts(k) + PrintNat(n))
  }

  lemma DigitsParse(digits: string, n: u32)
    requires digits != "" && AllDigits(digits) && Decimal(digits) == n
    ensures ParseU32(digits) == Some(n) && ParseU32("+" + digits) == Some(n)
  {
    assert IsDigit(digits[0]);
    assert ("+" + digits)[1..] == digits;
  }

  lemma SpellingParses(s: string, plus: bool, k: nat, n: u32)
    requires Spells(s, plus, k, n)
    ensures ParseU32(s) == Some(n)
  {
    PrintedReadsBack(n);
    NoughtsInFront(k, PrintNat(n));
    DigitsParse(Noughts(k) + PrintNat(n), n);
    assert "" + (Noughts(k) + PrintNat(n)) == Noughts(k) + PrintNat(n);
  }

  /** The strings that parse to a number: its decimal digits, any noughts in front of them, and perhaps a plus sign. */
  lemma U32Exactly(s: string, n: u32)
    ensures ParseU32(s) == Some(n) <==> exists plus: bool, k: nat :: Spells(s, plus, k, n)
  {
    if ParseU32(s) == Some(n) {
      var plus := s[0] == '+';
      var digits := if plus then s[1..] else s;
      var k := DigitsAreNoughtsAndNumber(digits);
      assert s == (if plus then "+" else "") + digits;
      assert Spells(s, plus, k, n);
    }
    forall plus: bool, k: nat | Spells(s, plus, k, n)
      ensures ParseU32(s) == Some(n)
    {
      SpellingParses(s, plus, k, n);
    }
  }

  lemma {:induction false} SplitOnceParts(s: string, c: char)
    ensures match SplitOnce(s, c)
            case None => c !in s
            case Some((k, v)) => c !in k && s == k + [c] + v
  {
    if s != "" && s[0] != c {
      SplitOnceParts(s[1..], c);
      assert s == [s[0]] + s[1..];
    }
  }

  lemma {:induction false} SplitOnceAt(k: string, c: char, v: string)
    requires c !in k
    ensures SplitOnce(k + [c] + v, c) == Some((k, v))
  {
    var s := k + [c] + v;
    if k == "" {
      assert s[1..] == v;
    } else {
      assert s[1..] == k[1..] + [c] + v;
      SplitOnceAt(k[1..], c, v);
      assert k == [k[0]] + k[1..];
    }
  }

  lemma {:induction false} NoSlashIsOnePart(s: string)
    requires '/' !in s
    ensures SplitSlash(s) == [s]
  {
    if s != "" {
      NoSlashIsOnePart(s[1..]);
      assert s == [s[0]] + s[1..];
    }
  }

  lemma {:induction false} SplitSlashAt(a: string, b: string)
    ensures SplitSlash(a + "/" + b) == SplitSlash(a) + SplitSlash(b)
  {
    var s := a + "/" + b;
    if a == "" {
      assert s[1..] == b;
    } else {
      assert s[1..] == a[1..] + "/" + b;
      SplitSlashAt(a[1..], b);
    }
  }

  /** No part contains a slash. */
  lemma {:induction false} PartsHaveNoSlash(s: string)
    ensures forall i :: 0 <= i < |SplitSlash(s)| ==> '/' !in SplitSlash(s)[i]
  {
    if s != "" {
      PartsHaveNoSlash(s[1..]);
    }
  }

  /** Neither end is a blank. */
  predicate Tight(s: string) {
    s != "" ==> !IsWhitespace(s[0]) && !IsWhitespace(s[|s| - 1])
  }

  lemma {:induction false} TrimStartTight(s: string)
    ensures var t := TrimStart(s); (t != "" ==> !IsWhitespace(t[0])) && forall c :: c in t ==> c in s
  {
    if s != "" && IsWhitespace(s[0]) {
      TrimStartTight(s[1..]);
    }
  }

  lemma {:induction false} TrimEndTight(s: string)
    ensures var t := TrimEnd(s); t <= s && (t != "" ==> !IsWhitespace(t[|t| - 1]))
  {
    if s != "" && IsWhitespace(s[|s| - 1]) {
      TrimEndTight(s[..|s| - 1]);
    }
  }

  /** Trimming gives a tight string of the same characters, and changes no tight string. */
  lemma TrimTight(s: string)
    ensures Tight(Trim(s)) && (forall c :: c in Trim(s) ==> c in s) && (Tight(s) ==> Trim(s) == s)
  {
    TrimStartTight(s);
    TrimEndTight(TrimStart(s));
    assert forall c :: c in Trim(s) ==> c in TrimStart(s);
  }
}

/** Quote-aware splitting of an input line. */
module ShellSplitting {
  import opened Bytes
  import opened Text

  predicate IsQuote(c: char) {
    c == '"' || c == '\''
  }

  function Finished(current: string): seq<string> {
    if current != "" then [current] else []
  }

  /** The tokens of a line, given the token begun and the open quote. */
  function Split(line: string, current: string, open: Option<char>): seq<string>
    decreases |line|
  {
    if line == "" then Finished(current)
    else if open.Some? then
      if line[0] == open.value then Split(line[1..], current, None) else Split(line[1..], current + [line[0]], open)
    else if IsQuote(line[0]) then Split(line[1..], current, Some(line[0]))
    else if IsWhitespace(line[0]) then Finished(current) + Split(line[1..], "", None)
    else Split(line[1..], current + [line[0]], None)
  }

  method ShellSplit(line: string) returns (tokens: seq<string>)
    ensures tokens == Split(line, "", None)
  {
    tokens := [];
    var current := "";
    var inQuote, quoteChar := false, '"';
    for i := 0 to |line|
      invariant tokens + Split(line[i..], current, if inQuote then Some(quoteChar) else None) == Split(line, "", None)
    {
      var ch := line[i];
      assert line[i..][0] == ch && line[i..][1..] == line[i + 1..];
      if inQuote {
        if ch == quoteChar {
          inQuote := false;
        } else {
          current := current + [ch];
        }
      } else if ch == '"' || ch == '\'' {
        inQuote := true;
        quoteChar := ch;
      } else if IsWhitespace(ch) {
        if current != "" {
          tokens := tokens + [current];
          current := "";
        }
      } else {
        current := current + [ch];
      }
    }
    if current != "" {
      tokens := tokens + [current];
    }
  }

  /** A piece of a printed token: quoted, by a quote it does not contain, or bare, without quotes and blanks. */
  datatype Piece = Quoted(quote: char, text: string) | Bare(text: string) {
    predicate Ok() {
      match this
      case Quoted(q, text) => IsQuote(q) && q !in text
      case Bare(text) => forall c :: c in text ==> !IsQuote(c) && !IsWhitespace(c)
    }

    function Print(): string {
      match this
      case Quoted(q, text) => [q] + text + [q]
      case Bare(text) => text
    }
  }

  predicate AllOk(pieces: seq<Piece>) {
    forall i :: 0 <= i < |pieces| ==> pieces[i].Ok()
  }

  function TextOf(pieces: seq<Piece>): string {
    if pieces == [] then "" else pieces[0].text + TextOf(pieces[1..])
  }

  function PrintToken(pieces: seq<Piece>): string {
    if pieces == [] then "" else pieces[0].Print() + PrintToken(pieces[1..])
  }

  predicate Blanks(gap: string) {
    gap != "" && forall c :: c in gap ==> IsWhitespace(c)
  }

  /** Tokens printed one after the other, each followed by the same blanks. */
  function PrintLine(tokens: seq<seq<Piece>>, gap: string): string {
    if tokens == [] then "" else PrintToken(tokens[0]) + (gap + PrintLine(tokens[1..], gap))
  }

  lemma QuotesAreNotBlank(c: char)
    requires IsWhitespace(c)
    ensures !IsQuote(c)
  {
  }

  /** Blanks end a token once. */
  lemma {:induction false} SplitGap(gap: string, rest: string, current: string)
    requires Blanks(gap)
    ensures Split(gap + rest, current, None) == Finished(current) + Split(rest, "", None)
  {
    QuotesAreNotBlank(gap[0]);
    assert (gap + rest)[1..] == gap[1..] + rest;
    if |gap| == 1 {
      assert gap[1..] + rest == rest;
    } else {
      SplitGap(gap[1..], rest, "");
      assert Finished("") + Split(rest, "", None) == Split(rest, "", None);
    }
  }

  function NonEmptyTexts(tokens: seq<seq<Piece>>): seq<string> {
    if tokens == [] then [] else Finished(TextOf(tokens[0])) + NonEmptyTexts(tokens[1..])
  }

  lemma {:induction false} SplitInQuote(q: char, text: string, rest: string, current: string)
    requires q !in text
    ensures Split(text + ([q] + rest), current, Some(q)) == Split(rest, current + text, None)
  {
    var line := text + ([q] + rest);
    if text == "" {
      assert line[1..] == rest && current + text == current;
    } else {
      assert line[1..] == text[1..] + ([q] + rest);
      SplitInQuote(q, text[1..], rest, current + [text[0]]);
      assert current + [text[0]] + text[1..] == current + text;
    }
  }

  /** A quote that is never closed takes the rest of the line. */
  lemma {:induction false} UnclosedQuote(q: char, text: string, current: string)
    requires q !in text
    ensures Split(text, current, Some(q)) == Finished(current + text)
  {
    if text == "" {
      assert current + text == current;
    } else {
      UnclosedQuote(q, text[1..], current + [text[0]]);
      assert current + [text[0]] + text[1..] == current + text;
    }
  }

  lemma {:induction false} SplitBare(text: string, rest: string, current: string)
    requires Bare(text).Ok()
    ensures Split(text + rest, current, None) == Split(rest, current + text, None)
  {
    if text == "" {
      assert text + rest == rest && current + text == current;
    } else {
      assert (text + rest)[1..] == text[1..] + rest;
      SplitBare(text[1..], rest, current + [text[0]]);
      assert current + [text[0]] + text[1..] == current + text;
    }
  }

  lemma SplitPiece(p: Piece, rest: string, current: string)
    requires p.Ok()
    ensures Split(p.Print() + rest, current, None) == Split(rest, current + p.text, None)
  {
    match p
    case Bare(text) =>
      SplitBare(text, rest, current);
    case Quoted(q, text) =>
      var line := p.Print() + rest;
      assert line[1..] == text + ([q] + rest);
      SplitInQuote(q, text, rest, current);
  }

  lemma {:induction false} SplitToken(pieces: seq<Piece>, rest: string, current: string)
    requires AllOk(pieces)
    ensures Split(PrintToken(pieces) + rest, current, None) == Split(rest, current + TextOf(pieces), None)
    decreases |pieces|
  {
    if pieces == [] {
      assert PrintToken(pieces) + rest == rest && current + TextOf(pieces) == current;
    } else {
      var p, later := pieces[0], pieces[1..];
      assert PrintToken(pieces) + rest == p.Print() + (PrintToken(later) + rest);
      SplitPiece(p, PrintToken(later) + rest, current);
      SplitToken(later, rest, current + p.text);
      assert current + p.text + TextOf(later) == current + TextOf(pieces);
    }
  }

  /** Splitting undoes printing: it gives back the texts of the tokens, in order, except that empty ones are lost. */
  lemma {:induction false} SplitUndoesPrint(tokens: seq<seq<Piece>>, gap: string)
    requires Blanks(gap) && forall i :: 0 <= i < |tokens| ==> AllOk(tokens[i])
    ensures Split(PrintLine(tokens, gap), "", None) == NonEmptyTexts(tokens)
    decreases |tokens|
  {
    if tokens != [] {
      var rest := PrintLine(tokens[1..], gap);
      SplitToken(tokens[0], gap + rest, "");
      assert "" + TextOf(tokens[0]) == TextOf(tokens[0]);
      SplitGap(gap, rest, TextOf(tokens[0]));
      SplitUndoesPrint(tokens[1..], gap);
    }
  }

  /** Every string can be printed: one quoted piece for each character. */
  function PiecesOf(s: string): seq<Piece> {
    if s == "" then [] else [Quoted(if s[0] == '"' then '\'' else '"', [s[0]])] + PiecesOf(s[1..])
  }

  lemma {:induction false} PiecesSpell(s: string)
    ensures AllOk(PiecesOf(s)) && TextOf(PiecesOf(s)) == s
  {
    if s != "" {
      PiecesSpell(s[1..]);
      assert PiecesOf(s)[1..] == PiecesOf(s[1..]);
      assert s == [s[0]] + s[1..];
    }
  }

  function PiecesOfAll(ss: seq<string>): seq<seq<Piece>> {
    if ss == [] then [] else [PiecesOf(ss[0])] + PiecesOfAll(ss[1..])
  }

  lemma {:induction false} PiecesOfAllSpell(ss: seq<string>)
    requires "" !in ss
    ensures |PiecesOfAll(ss)| == |ss| && forall i :: 0 <= i < |ss| ==> AllOk(PiecesOfAll(ss)[i])
    ensures NonEmptyTexts(PiecesOfAll(ss)) == ss
  {
    if ss != [] {
      PiecesSpell(ss[0]);
      PiecesOfAllSpell(ss[1..]);
      assert PiecesOfAll(ss)[1..] == PiecesOfAll(ss[1..]);
      assert ss == [ss[0]] + ss[1..];
    }
  }

  /** So every list of non-empty strings survives quoting and splitting. */
  lemma QuotedRoundTrip(ss: seq<string>, gap: string)
    requires "" !in ss && Blanks(gap)
    ensures Split(PrintLine(PiecesOfAll(ss), gap), "", None) == ss
  {
    PiecesOfAllSpell(ss);
    SplitUndoesPrint(PiecesOfAll(ss), gap);
  }
}

/** Normalised words, key=value pairs, and commands. */
module CliParse {
  import opened Bytes
  import opened Text
  import ShellSplitting

  const PREFIXES: set<string> := {"interface", "eoip", "system"}

  /** The trimmed, non-empty parts. */
  function Kept(parts: seq<string>): seq<string> {
    if parts == [] then [] else (if Trim(parts[0]) != "" then [Trim(parts[0])] else []) + Kept(parts[1..])
  }

  function Words(tokens: seq<string>): seq<string> {
    if tokens == [] then [] else Kept(SplitSlash(tokens[0])) + Words(tokens[1..])
  }

  function DropPrefixes(words: seq<string>): seq<string> {
    if words != [] && Lower(words[0]) in PREFIXES then DropPrefixes(words[1..]) else words
  }

  function Normalized(tokens: seq<string>): seq<string> {
    DropPrefixes(Words(tokens))
  }

  lemma {:induction false} KeptAppend(xs: seq<string>, ys: seq<string>)
    ensures Kept(xs + ys) == Kept(xs) + Kept(ys)
  {
    if xs == [] {
      assert xs + ys == ys;
    } else {
      assert (xs + ys)[1..] == xs[1..] + ys;
      KeptAppend(xs[1..], ys);
    }
  }

  lemma {:induction false} WordsAppend(xs: seq<string>, ys: seq<string>)
    ensures Words(xs + ys) == Words(xs) + Words(ys)
  {
    if xs == [] {
      assert xs + ys == ys;
    } else {
      assert (xs + ys)[1..] == xs[1..] + ys;
      WordsAppend(xs[1..], ys);
    }
  }

  lemma KeptSnoc(parts: seq<string>, j: nat)
    requires j < |parts|
    ensures Kept(parts[..j + 1]) == Kept(parts[..j]) + if Trim(parts[j]) != "" then [Trim(parts[j])] else []
  {
    assert parts[..j + 1] == parts[..j] + [parts[j]];
    KeptAppend(parts[..j], [parts[j]]);
    assert Kept([parts[j]][1..]) == [];
  }

  lemma WordsSnoc(tokens: seq<string>, i: nat)
    requires i < |tokens|
    ensures Words(tokens[..i + 1]) == Words(tokens[..i]) + Kept(SplitSlash(tokens[i]))
  {
    assert tokens[..i + 1] == tokens[..i] + [tokens[i]];
    WordsAppend(tokens[..i], [tokens[i]]);
    WordsOne(tokens[i]);
  }

  lemma WordsOne(t: string)
    ensures Words([t]) == Kept(SplitSlash(t))
  {
    assert Words([t]) == Kept(SplitSlash(t)) + Words([t][1..]);
  }

  method CollectWords(tokens: seq<string>) returns (result: seq<string>)
    ensures result == Words(tokens)
  {
    result := [];
    for i := 0 to |tokens|
      invariant result == Words(tokens[..i])
    {
      var segments := SplitSlash(tokens[i]);
      for j := 0 to |segments|
        invariant result == Words(tokens[..i]) + Kept(segments[..j])
      {
        var s := Trim(segments[j]);
        if s != "" {
          result := result + [s];
        }
        KeptSnoc(segments, j);
      }
      assert segments[..|segments|] == segments;
      WordsSnoc(tokens, i);
    }
    assert tokens[..|tokens|] == tokens;
  }

  /** The two loops of the source: collecting the segments, then finding where the known prefixes end. */
  method NormalizeTokens(tokens: seq<string>) returns (words: seq<string>)
    ensures words == Normalized(tokens)
  {
    var result := CollectWords(tokens);
    var start := 0;
    while start < |result| && Lower(result[start]) in PREFIXES
      invariant start <= |result| && DropPrefixes(result[start..]) == DropPrefixes(result)
    {
      assert result[start..][1..] == result[start + 1..];
      start := start + 1;
    }
    return result[start..];
  }

  /** A word that normalising leaves alone. */
  predicate IsWord(w: string) {
    w != "" && '/' !in w && Tight(w)
  }

  predicate AllWords(ws: seq<string>) {
    forall i :: 0 <= i < |ws| ==> IsWord(ws[i])
  }

  lemma {:induction false} KeptAreWords(parts: seq<string>)
    requires forall i :: 0 <= i < |parts| ==> '/' !in parts[i]
    ensures AllWords(Kept(parts))
  {
    if parts != [] {
      TrimTight(parts[0]);
      KeptAreWords(parts[1..]);
    }
  }

  lemma {:induction false} WordsAreWords(tokens: seq<string>)
    ensures AllWords(Words(tokens))
  {
    if tokens != [] {
      PartsHaveNoSlash(tokens[0]);
      KeptAreWords(SplitSlash(tokens[0]));
      WordsAreWords(tokens[1..]);
    }
  }

  lemma {:induction false} WordsOfWords(ws: seq<string>)
    requires AllWords(ws)
    ensures Words(ws) == ws
  {
    if ws != [] {
      NoSlashIsOnePart(ws[0]);
      TrimTight(ws[0]);
      assert Kept([ws[0]]) == [ws[0]] + Kept([]);
      WordsOfWords(ws[1..]);
      assert ws == [ws[0]] + ws[1..];
    }
  }

  lemma {:induction false} DropPrefixesIsSuffix(ws: seq<string>)
    ensures DropPrefixes(DropPrefixes(ws)) == DropPrefixes(ws)
    ensures AllWords(ws) ==> AllWords(DropPrefixes(ws))
  {
    if ws != [] && Lower(ws[0]) in PREFIXES {
      DropPrefixesIsSuffix(ws[1..]);
      if AllWords(ws) {
        assert forall i :: 0 <= i < |ws| - 1 ==> ws[1..][i] == ws[i + 1];
      }
    }
  }

  /** Normalising twice is normalising once. */
  lemma NormalizeIdempotent(tokens: seq<string>)
    ensures Normalized(Normalized(tokens)) == Normalized(tokens)
  {
    WordsAreWords(tokens);
    DropPrefixesIsSuffix(Words(tokens));
    WordsOfWords(Normalized(tokens));
  }

  /** A path is the same as its parts given one by one. */
  lemma PathIsItsParts(a: string, b: string, tokens: seq<string>)
    ensures Words([a + "/" + b] + tokens) == Words([a] + ([b] + tokens))
  {
    PathWord(a, b);
    WordsAppend([a + "/" + b], tokens);
    TwoWords(a, b, tokens);
  }

  lemma PathWord(a: string, b: string)
    ensures Words([a + "/" + b]) == Words([a]) + Words([b])
  {
    SplitSlashAt(a, b);
    KeptAppend(SplitSlash(a), SplitSlash(b));
    WordsOne(a + "/" + b);
    WordsOne(a);
    WordsOne(b);
  }

  lemma TwoWords(a: string, b: string, tokens: seq<string>)
    ensures Words([a] + ([b] + tokens)) == Words([a]) + Words([b]) + Words(tokens)
  {
    WordsAppend([a], [b] + tokens);
    WordsAppend([b], tokens);
  }

  lemma EmptyToken(tokens: seq<string>)
    ensures Words([""] + tokens) == Words(tokens)
  {
    WordsAppend([""], tokens);
    WordsOne("");
    KeptSnoc([""], 0);
    assert [""][..1] == [""];
  }

  lemma PrefixWord(p: string, tokens: seq<string>)
    requires IsWord(p) && Lower(p) in PREFIXES
    ensures Normalized([p] + tokens) == Normalized(tokens)
  {
    WordsAppend([p], tokens);
    WordsOfWords([p]);
    assert ([p] + Words(tokens))[1..] == Words(tokens);
  }

  lemma KnownPrefixes()
    ensures IsWord("interface") && Lower("interface") in PREFIXES
    ensures IsWord("eoip") && Lower("eoip") in PREFIXES
    ensures IsWord("system") && Lower("system") in PREFIXES
  {
    assert Lower("system") == "system";
    assert Lower("interface") == "interface";
    assert Lower("eoip") == "eoip";
  }

  /** The path /p/q, and the path /p/q/t. */
  lemma PathOfPrefixes(p: string, q: string, tokens: seq<string>)
    requires IsWord(p) && Lower(p) in PREFIXES && IsWord(q) && Lower(q) in PREFIXES
    ensures Normalized(["" + "/" + p + "/" + q] + tokens) == Normalized(tokens)
  {
    var path := "" + "/" + p;
    PathIsItsParts(path, q, tokens);
    PathIsItsParts("", p, [q] + tokens);
    EmptyToken([p] + ([q] + tokens));
    PrefixWord(p, [q] + tokens);
    PrefixWord(q, tokens);
  }

  lemma LongerPath(p: string, q: string, t: string, tokens: seq<string>)
    requires IsWord(p) && Lower(p) in PREFIXES && IsWord(q) && Lower(q) in PREFIXES
    ensures Normalized(["" + "/" + p + "/" + q + "/" + t] + tokens) == Normalized([t] + tokens)
  {
    PathIsItsParts("" + "/" + p + "/" + q, t, tokens);
    PathOfPrefixes(p, q, [t] + tokens);
  }

  lemma PrefixPath()
    ensures "" + "/" + "interface" + "/" + "eoip" == "/interface/eoip"
  {
  }

  /** A leading /interface/eoip changes nothing, whether it is a token of its own or the start of a path. */
  lemma PrefixIsIgnored(t: string, tokens: seq<string>)
    ensures Normalized(["/interface/eoip"] + tokens) == Normalized(tokens)
    ensures Normalized(["/interface/eoip" + "/" + t] + tokens) == Normalized([t] + tokens)
    ensures Normalized(["system"] + tokens) == Normalized(tokens)
  {
    KnownPrefixes();
    PrefixWord("system", tokens);
    PrefixPath();
    PathOfPrefixes("interface", "eoip", tokens);
    LongerPath("interface", "eoip", t, tokens);
  }

  /** Later pairs override earlier ones; words without an equals sign are ignored. */
  function Pairs(words: seq<string>): map<string, string> {
    if words == [] then map[]
    else
      var earlier := Pairs(words[..|words| - 1]);
      match SplitOnce(words[|words| - 1], '=')
      case None => earlier
      case Some((k, v)) => earlier[Lower(k) := v]
  }

  method ParseKv(tokens: seq<string>) returns (m: map<string, string>)
    ensures m == Pairs(tokens)
  {
    m := map[];
    for i := 0 to |tokens|
      invariant m == Pairs(tokens[..i])
    {
      assert tokens[..i + 1][..i] == tokens[..i];
      var pair := SplitOnce(tokens[i], '=');
      if pair.Some? {
        m := m[Lower(pair.value.0) := pair.value.1];
      }
    }
    assert tokens[..|tokens|] == tokens;
  }

  datatype CliError =
    | EmptyCommand
    | EmptyAfterNormalization
    | UnknownCommand(verb: string)
    | Missing(key: string)
    | Invalid(key: string)

  datatype Filter = TunnelId(id: u32) | Name(name: string)

  datatype Command =
    | Print(detail: bool, filter: Option<Filter>)
    | Add(tunnelId: u32, remote: string, local: Option<string>, name: Option<string>, mtu: Option<u32>,
          secret: Option<string>)
    | Remove(tunnelId: u32)
    | Enable(tunnelId: u32)
    | Disable(tunnelId: u32)
    | Set(tunnelId: u32, params: map<string, string>)
    | Monitor
    | Stats(which: Option<u32>)
    | Health
    | Help
    | Quit

  datatype Parsed = Ok(command: Command) | Err(error: CliError)

  function Get(kv: map<string, string>, key: string): Option<string> {
    if key in kv then Some(kv[key]) else None
  }

  function Or(a: Option<string>, b: Option<string>): Option<string> {
    if a.Some? then a else b
  }

  function ParseAdd(words: seq<string>): Parsed {
    var kv := Pairs(words);
    AddOf(Get(kv, "tunnel-id"), Or(Get(kv, "remote-address"), Get(kv, "remote")),
          Or(Get(kv, "local-address"), Get(kv, "local")), Get(kv, "name"), Get(kv, "mtu"), Get(kv, "ipsec-secret"))
  }

  /** The checks, in the order in which they can fail. */
  function AddOf(tunnelId: Option<string>, remote: Option<string>, local: Option<string>, name: Option<string>,
                 mtu: Option<string>, secret: Option<string>): Parsed
  {
    if tunnelId.None? then Err(Missing("tunnel-id"))
    else if ParseU32(tunnelId.value).None? then Err(Invalid("tunnel-id"))
    else if remote.None? then Err(Missing("remote-address"))
    else if mtu.Some? && ParseU32(mtu.value).None? then Err(Invalid("mtu"))
    else
      Ok(Add(ParseU32(tunnelId.value).value, remote.value, local, name,
             if mtu.Some? then ParseU32(mtu.value) else None, secret))
  }

  /** The short keys stand in for the long ones... */
  lemma ShortKeys(words: seq<string>, remote: string, local: string)
    requires var kv := Pairs(words);
      "remote" !in kv && "local" !in kv && "remote-address" !in kv && "local-address" !in kv
    ensures ParseAdd(words + [Pair("remote", remote)] + [Pair("local", local)])
         == ParseAdd(words + [Pair("remote-address", remote)] + [Pair("local-address", local)])
  {
    KeysDiffer();
    TwoPairs(words, "remote", remote, "local", local);
    TwoPairs(words, "remote-address", remote, "local-address", local);
  }

  /** ...and count for nothing beside them. */
  lemma LongKeysFirst(words: seq<string>, remote: string, local: string)
    requires "remote-address" in Pairs(words) && "local-address" in Pairs(words)
    ensures ParseAdd(words + [Pair("remote", remote)] + [Pair("local", local)]) == ParseAdd(words)
  {
    KeysDiffer();
    TwoPairs(words, "remote", remote, "local", local);
  }

  lemma TwoPairs(words: seq<string>, k: string, v: string, k': string, v': string)
    requires k in {"remote", "remote-address"} && k' in {"local", "local-address"}
    ensures Pairs(words + [Pair(k, v)] + [Pair(k', v')]) == Pairs(words)[k := v][k' := v']
  {
    Keys();
    ShortKeysAreKeys();
    PairsSnoc(words, k, v);
    PairsSnoc(words + [Pair(k, v)], k', v');
  }

  lemma ShortKeysAreKeys()
    ensures IsKey("remote") && IsKey("local")
  {
    assert Lower("remote") == "remote" && Lower("local") == "local";
  }

  /** The filter behind `where`; a condition about anything else leaves the filter as it is. */
  function Where(kv: map<string, string>, detail: bool, filter: Option<Filter>): Parsed {
    if "tunnel-id" in kv then
      if ParseU32(kv["tunnel-id"]).None? then Err(Invalid("tunnel-id"))
      else Ok(Print(detail, Some(TunnelId(ParseU32(kv["tunnel-id"]).value))))
    else if "name" in kv then Ok(Print(detail, Some(Name(kv["name"]))))
    else Ok(Print(detail, filter))
  }

  /** What is left of a `print`, given what the words before say. */
  function PrintOf(words: seq<string>, detail: bool, filter: Option<Filter>): Parsed
    decreases |words|
  {
    if words == [] then Ok(Print(detail, filter))
    else if Lower(words[0]) == "detail" then PrintOf(words[1..], true, filter)
    else if Lower(words[0]) == "where" then
      if |words| == 1 then Err(Missing("where")) else Where(Pairs(words[1..]), detail, filter)
    else PrintOf(words[1..], detail, NumberOr(words[0], filter))
  }

  /** A bare number is a filter. */
  function NumberOr(word: string, filter: Option<Filter>): Option<Filter> {
    if ParseU32(word).Some? then Some(TunnelId(ParseU32(word).value)) else filter
  }

  method ParsePrint(rest: seq<string>) returns (r: Parsed)
    ensures r == PrintOf(rest, false, None)
  {
    var detail, filter := false, None;
    var i := 0;
    while i < |rest|
      invariant i <= |rest| && PrintOf(rest[i..], detail, filter) == PrintOf(rest, false, None)
    {
      assert rest[i..][1..] == rest[i + 1..];
      var word := Lower(rest[i]);
      if word == "detail" {
        detail := true;
      } else if word == "where" {
        if i + 1 >= |rest| {
          return Err(Missing("where"));
        }
        var kv := ParseKv(rest[i + 1..]);
        return Where(kv, detail, filter);
      } else {
        filter := NumberOr(rest[i], filter);
      }
      i := i + 1;
    }
    return Ok(Print(detail, filter));
  }

  /** No word of these is `where`. */
  predicate NoWhere(words: seq<string>) {
    forall i :: 0 <= i < |words| ==> Lower(words[i]) != "where"
  }

  predicate SaysDetail(words: seq<string>) {
    exists i :: 0 <= i < |words| && Lower(words[i]) == "detail"
  }

  function LastNumber(words: seq<string>, none: Option<Filter>): Option<Filter> {
    if words == [] then none else NumberOr(words[|words| - 1], LastNumber(words[..|words| - 1], none))
  }

  lemma DetailIsNoNumber(word: string)
    requires Lower(word) == "detail"
    ensures ParseU32(word).None?
  {
    assert Lower(word)[0] == LowerChar(word[0]) && 'd' == "detail"[0];
    assert !IsDigit(word[0]) && word[0] != '+';
  }

  lemma {:induction false} LastNumberCons(word: string, words: seq<string>, none: Option<Filter>)
    ensures LastNumber([word] + words, none) == LastNumber(words, NumberOr(word, none))
  {
    var all := [word] + words;
    if words == [] {
      assert all == [word] && LastNumber(all[..0], none) == none;
    } else {
      LastNumberCons(word, words[..|words| - 1], none);
      assert all[..|all| - 1] == [word] + words[..|words| - 1];
    }
  }

  lemma SaysDetailCons(word: string, words: seq<string>)
    ensures SaysDetail([word] + words) <==> Lower(word) == "detail" || SaysDetail(words)
  {
    var all := [word] + words;
    if Lower(word) == "detail" {
      assert Lower(all[0]) == "detail";
    } else if SaysDetail(words) {
      var i :| 0 <= i < |words| && Lower(words[i]) == "detail";
      assert Lower(all[i + 1]) == "detail";
    }
  }

  /** Words before a `where` say whether there is to be detail, and the last number among them is the filter. */
  lemma {:induction false} PrintWords(words: seq<string>, rest: seq<string>, detail: bool, filter: Option<Filter>)
    requires NoWhere(words)
    ensures PrintOf(words + rest, detail, filter)
         == PrintOf(rest, detail || SaysDetail(words), LastNumber(words, filter))
    decreases |words|
  {
    if words == [] {
      assert words + rest == rest;
    } else {
      var word, later := words[0], words[1..];
      assert words == [word] + later && (words + rest)[1..] == later + rest;
      assert forall i :: 0 <= i < |later| ==> later[i] == words[i + 1];
      SaysDetailCons(word, later);
      LastNumberCons(word, later, filter);
      if Lower(word) == "detail" {
        DetailIsNoNumber(word);
        PrintWords(later, rest, true, filter);
      } else {
        PrintWords(later, rest, detail, NumberOr(word, filter));
      }
    }
  }

  /** The first word is the id; `remove` also takes a tunnel-id pair. */
  function ParseId(words: seq<string>, orPair: bool): Option<u32> {
    if words == [] then None
    else if ParseU32(words[0]).Some? then ParseU32(words[0])
    else if orPair && "tunnel-id" in Pairs(words) then ParseU32(Pairs(words)["tunnel-id"])
    else None
  }

  function ParseSet(words: seq<string>): Parsed {
    if words == [] then Err(Missing("set"))
    else if ParseU32(words[0]).None? then Err(Invalid("tunnel-id"))
    else if Pairs(words[1..]) == map[] then Err(Missing("pair"))
    else Ok(Set(ParseU32(words[0]).value, Pairs(words[1..])))
  }

  /** The command of an id, or the error of its absence. */
  function WithId(words: seq<string>, id: Option<u32>, command: u32 -> Command): Parsed {
    if words == [] then Err(Missing("tunnel-id"))
    else if id.None? then Err(Invalid("tunnel-id"))
    else Ok(command(id.value))
  }

  function ParseVerb(verb: string, rest: seq<string>): Parsed {
    if verb == "print" then PrintOf(rest, false, None)
    else if verb == "add" then ParseAdd(rest)
    else if verb == "remove" || verb == "delete" then WithId(rest, ParseId(rest, true), (id: u32) => Remove(id))
    else if verb == "enable" then WithId(rest, ParseId(rest, false), (id: u32) => Enable(id))
    else if verb == "disable" then WithId(rest, ParseId(rest, false), (id: u32) => Disable(id))
    else if verb == "set" then ParseSet(rest)
    else if verb == "monitor" || verb == "watch" then Ok(Monitor)
    else if verb == "stats" || verb == "statistics" then
      if rest == [] then Ok(Stats(None)) else WithId(rest, ParseId(rest, false), (id: u32) => Stats(Some(id)))
    else if verb == "health" || verb == "check" then Ok(Health)
    else if verb == "help" || verb == "?" then Ok(Help)
    else if verb == "quit" || verb == "exit" then Ok(Quit)
    else Err(UnknownCommand(verb))
  }

  function ParseCommand(tokens: seq<string>): Parsed {
    var words := Normalized(tokens);
    if tokens == [] then Err(EmptyCommand)
    else if words == [] then Err(EmptyAfterNormalization)
    else ParseVerb(Lower(words[0]), words[1..])
  }

  function Pair(key: string, value: string): string {
    key + ['='] + value
  }

  function OptPair(key: string, value: Option<string>): seq<string> {
    if value.Some? then [Pair(key, value.value)] else []
  }

  function MtuText(mtu: Option<u32>): Option<string> {
    if mtu.Some? then Some(PrintNat(mtu.value)) else None
  }

  /** An Add command as key=value words. */
  function AddPairs(c: Command): seq<string>
    requires c.Add?
  {
    [Pair("tunnel-id", PrintNat(c.tunnelId)), Pair("remote-address", c.remote)] + OptPair("local-address", c.local)
    + OptPair("name", c.name) + OptPair("mtu", MtuText(c.mtu)) + OptPair("ipsec-secret", c.secret)
  }

  function PrintAdd(c: Command): seq<string>
    requires c.Add?
  {
    ["add"] + AddPairs(c)
  }

  /** A value that survives as the end of a word. */
  predicate Clean(v: string) {
    '/' !in v && (v != "" ==> !IsWhitespace(v[|v| - 1]))
  }

  predicate CleanOpt(v: Option<string>) {
    v.Some? ==> Clean(v.value)
  }

  predicate CleanValues(c: Command)
    requires c.Add?
  {
    Clean(c.remote) && CleanOpt(c.local) && CleanOpt(c.name) && CleanOpt(c.secret)
  }

  /** The values of pairs among words are clean. */
  lemma {:induction false} PairsAreClean(words: seq<string>)
    requires AllWords(words)
    ensures forall k :: k in Pairs(words) ==> Clean(Pairs(words)[k])
  {
    if words != [] {
      var w := words[|words| - 1];
      PairsAreClean(words[..|words| - 1]);
      SplitOnceParts(w, '=');
      match SplitOnce(w, '=')
      case None =>
      case Some((k, v)) =>
        assert forall i :: 0 <= i < |v| ==> v[i] == w[|k| + 1 + i];
    }
  }

  predicate IsKey(key: string) {
    key != "" && '=' !in key && '/' !in key && !IsWhitespace(key[0]) && Lower(key) == key
  }

  lemma PairsSnoc(words: seq<string>, key: string, value: string)
    requires IsKey(key)
    ensures Pairs(words + [Pair(key, value)]) == Pairs(words)[key := value]
  {
    SplitOnceAt(key, '=', value);
    assert (words + [Pair(key, value)])[..|words|] == words;
  }

  lemma PairsOpt(words: seq<string>, key: string, value: Option<string>)
    requires IsKey(key)
    ensures Pairs(words + OptPair(key, value)) == if value.Some? then Pairs(words)[key := value.value] else Pairs(words)
  {
    if value.Some? {
      PairsSnoc(words, key, value.value);
    } else {
      assert words + [] == words;
    }
  }

  lemma PairIsWord(key: string, value: string)
    requires IsKey(key) && Clean(value)
    ensures IsWord(Pair(key, value))
  {
    var w := Pair(key, value);
    assert w[0] == key[0];
    assert w[|w| - 1] == if value == "" then '=' else value[|value| - 1];
  }

  lemma RequiredKeys()
    ensures IsKey("tunnel-id") && IsKey("remote-address")
  {
    assert Lower("tunnel-id") == "tunnel-id";
    assert Lower("remote-address") == "remote-address";
  }

  lemma NameKeys()
    ensures IsKey("local-address") && IsKey("name")
  {
    assert Lower("local-address") == "local-address";
    assert Lower("name") == "name";
  }

  lemma OtherKeys()
    ensures IsKey("mtu") && IsKey("ipsec-secret")
  {
    assert Lower("mtu") == "mtu";
    assert Lower("ipsec-secret") == "ipsec-secret";
  }

  lemma Keys()
    ensures IsKey("tunnel-id") && IsKey("remote-address") && IsKey("local-address") && IsKey("name") && IsKey("mtu")
    ensures IsKey("ipsec-secret")
  {
    RequiredKeys();
    NameKeys();
    OtherKeys();
  }

  lemma {:induction false} PrintedIsClean(n: nat)
    ensures Clean(PrintNat(n))
  {
    PrintedReadsBack(n);
    var s := PrintNat(n);
    assert IsDigit(s[|s| - 1]);
  }

  /** The words of an Add command with clean values are left alone. */
  lemma CleanAddIsWords(c: Command)
    requires c.Add? && CleanValues(c)
    ensures AllWords(AddPairs(c))
  {
    Keys();
    PrintedIsClean(c.tunnelId);
    PairIsWord("tunnel-id", PrintNat(c.tunnelId));
    PairIsWord("remote-address", c.remote);
    OptPairIsWord("local-address", c.local);
    OptPairIsWord("name", c.name);
    if c.mtu.Some? {
      PrintedIsClean(c.mtu.value);
    }
    OptPairIsWord("mtu", MtuText(c.mtu));
    OptPairIsWord("ipsec-secret", c.secret);
  }

  lemma OptPairIsWord(key: string, value: Option<string>)
    requires IsKey(key) && CleanOpt(value)
    ensures AllWords(OptPair(key, value))
  {
    if value.Some? {
      PairIsWord(key, value.value);
    }
  }

  function Put(m: map<string, string>, key: string, value: Option<string>): map<string, string> {
    if value.Some? then m[key := value.value] else m
  }

  /** What the pairs of an Add command say. */
  function AddMap(c: Command): map<string, string>
    requires c.Add?
  {
    Put(Put(Put(Put(map["tunnel-id" := PrintNat(c.tunnelId)]["remote-address" := c.remote],
      "local-address", c.local), "name", c.name), "mtu", MtuText(c.mtu)), "ipsec-secret", c.secret)
  }

  lemma AddPairsMap(c: Command)
    requires c.Add?
    ensures Pairs(AddPairs(c)) == AddMap(c)
  {
    Keys();
    var w1 := [Pair("tunnel-id", PrintNat(c.tunnelId))];
    var w2 := [Pair("tunnel-id", PrintNat(c.tunnelId)), Pair("remote-address", c.remote)];
    assert [] + w1 == w1 && w2 == w1 + [Pair("remote-address", c.remote)];
    PairsSnoc([], "tunnel-id", PrintNat(c.tunnelId));
    PairsSnoc(w1, "remote-address", c.remote);
    var w3 := w2 + OptPair("local-address", c.local);
    var w4 := w3 + OptPair("name", c.name);
    PairsOpt(w2, "local-address", c.local);
    PairsOpt(w3, "name", c.name);
    PairsOpt(w4, "mtu", MtuText(c.mtu));
    PairsOpt(w4 + OptPair("mtu", MtuText(c.mtu)), "ipsec-secret", c.secret);
  }

  lemma PutGet(m: map<string, string>, key: string, value: Option<string>, other: string)
    ensures Get(Put(m, key, value), other) == if other == key && value.Some? then value else Get(m, other)
  {
  }

  /** Looking up any key, one pair at a time. */
  lemma AddMapGet(c: Command, key: string)
    requires c.Add?
    ensures Get(AddMap(c), key)
         == if key == "ipsec-secret" && c.secret.Some? then c.secret
            else if key == "mtu" && c.mtu.Some? then MtuText(c.mtu)
            else if key == "name" && c.name.Some? then c.name
            else if key == "local-address" && c.local.Some? then c.local
            else if key == "remote-address" then Some(c.remote)
            else if key == "tunnel-id" then Some(PrintNat(c.tunnelId))
            else None
  {
    var m1 := map["tunnel-id" := PrintNat(c.tunnelId)]["remote-address" := c.remote];
    var m2 := Put(m1, "local-address", c.local);
    var m3 := Put(m2, "name", c.name);
    PutGet(m1, "local-address", c.local, key);
    PutGet(m2, "name", c.name, key);
    PutGet(m3, "mtu", MtuText(c.mtu), key);
    PutGet(Put(m3, "mtu", MtuText(c.mtu)), "ipsec-secret", c.secret, key);
  }

  lemma KeysDiffer()
    ensures |"tunnel-id"| == 9 && |"remote-address"| == 14 && |"local-address"| == 13 && |"ipsec-secret"| == 12
    ensures |"remote"| == 6 && |"local"| == 5 && |"name"| == 4 && |"mtu"| == 3
  {
  }

  /** What ParseAdd looks up among the pairs of an Add command. */
  lemma AddMapValues(c: Command)
    requires c.Add?
    ensures var m := AddMap(c);
      && Get(m, "tunnel-id") == Some(PrintNat(c.tunnelId)) && Get(m, "remote-address") == Some(c.remote)
      && Get(m, "local-address") == c.local && Get(m, "local") == None && Get(m, "name") == c.name
      && Get(m, "mtu") == MtuText(c.mtu) && Get(m, "ipsec-secret") == c.secret
  {
    KeysDiffer();
    AddMapGet(c, "tunnel-id");
    AddMapGet(c, "remote-address");
    AddMapGet(c, "local-address");
    AddMapGet(c, "local");
    AddMapGet(c, "name");
    AddMapGet(c, "mtu");
    AddMapGet(c, "ipsec-secret");
  }

  lemma AddPairsParse(c: Command)
    requires c.Add?
    ensures ParseAdd(AddPairs(c)) == Ok(c)
  {
    AddPairsMap(c);
    AddMapValues(c);
    U32RoundTrip(c.tunnelId);
    if c.mtu.Some? {
      U32RoundTrip(c.mtu.value);
    }
  }

  lemma LowerAt(w: string, i: nat)
    requires i < |w|
    ensures Lower(w)[i] == LowerChar(w[i])
  {
  }

  /** Upper-case letters do not make a word any less a word. */
  lemma WordByLower(verb: string)
    requires IsWord(Lower(verb))
    ensures IsWord(verb)
  {
    var w := Lower(verb);
    forall i: nat | i < |verb|
      ensures verb[i] != '/' && (IsWhitespace(verb[i]) ==> IsWhitespace(w[i]))
    {
      LowerAt(verb, i);
      assert w[i] in w;
    }
  }

  /** A verb that is no prefix, in upper or lower case, decides with the words behind it. */
  lemma VerbDecides(verb: string, rest: seq<string>)
    requires IsWord(Lower(verb)) && Lower(verb) !in PREFIXES && AllWords(rest)
    ensures ParseCommand([verb] + rest) == ParseVerb(Lower(verb), rest)
  {
    WordByLower(verb);
    WordsOfWords([verb] + rest);
    assert ([verb] + rest)[1..] == rest;
  }

  const VERBS: set<string> := {
    "print", "add", "remove", "delete", "enable", "disable", "set", "monitor", "watch", "stats", "statistics", "health",
    "check", "help", "?", "quit", "exit"}

  lemma VerbsAreWords(verb: string)
    requires Lower(verb) in VERBS
    ensures IsWord(Lower(verb)) && Lower(verb) !in PREFIXES
  {
  }

  lemma NumberIsWord(n: nat)
    ensures IsWord(PrintNat(n))
  {
    PrintedReadsBack(n);
    var s := PrintNat(n);
    assert IsDigit(s[0]) && IsDigit(s[|s| - 1]);
    assert forall i :: 0 <= i < |s| ==> IsDigit(s[i]);
  }

  /** The command, or the error of an id that is not one. */
  function FromId(id: Option<u32>, command: Command): Parsed {
    if id.Some? then Ok(command) else Err(Invalid("tunnel-id"))
  }

  lemma IdVerbs(verb: string, rest: seq<string>)
    requires rest != []
    ensures var id := ParseId(rest, false); var given := if id.Some? then id.value else 0;
      && (verb == "enable" ==> ParseVerb(verb, rest) == FromId(id, Enable(given)))
      && (verb == "disable" ==> ParseVerb(verb, rest) == FromId(id, Disable(given)))
      && (verb in {"stats", "statistics"} ==> ParseVerb(verb, rest) == FromId(id, Stats(Some(given))))
    ensures var id := ParseId(rest, true); var given := if id.Some? then id.value else 0;
      verb in {"remove", "delete"} ==> ParseVerb(verb, rest) == FromId(id, Remove(given))
  {
  }

  lemma FirstIsId(id: u32, more: seq<string>, orPair: bool)
    ensures ParseId([PrintNat(id)] + more, orPair) == Some(id)
  {
    U32RoundTrip(id);
  }

  const ID_VERBS: set<string> := {"remove", "delete", "enable", "disable", "stats", "statistics"}

  lemma IdVerbsAreVerbs()
    ensures ID_VERBS <= VERBS
  {
  }

  /** The verbs that take an id; what comes behind the id is not looked at. */
  lemma VerbsWithId(verb: string, id: u32, more: seq<string>)
    requires AllWords(more)
    ensures var parsed := ParseCommand([verb] + ([PrintNat(id)] + more));
      && (Lower(verb) in {"remove", "delete"} ==> parsed == Ok(Remove(id)))
      && (Lower(verb) == "enable" ==> parsed == Ok(Enable(id)))
      && (Lower(verb) == "disable" ==> parsed == Ok(Disable(id)))
      && (Lower(verb) in {"stats", "statistics"} ==> parsed == Ok(Stats(Some(id))))
  {
    var rest := [PrintNat(id)] + more;
    FirstIsId(id, more, true);
    FirstIsId(id, more, false);
    IdVerbs(Lower(verb), rest);
    if Lower(verb) in ID_VERBS {
      IdVerbsAreVerbs();
      VerbsAreWords(verb);
      NumberIsWord(id);
      VerbDecides(verb, rest);
    }
  }

  lemma BareVerbs(verb: string)
    ensures verb in {"remove", "delete", "enable", "disable"} ==> ParseVerb(verb, []) == Err(Missing("tunnel-id"))
    ensures verb in {"stats", "statistics"} ==> ParseVerb(verb, []) == Ok(Stats(None))
  {
  }

  /** Without an id they are refused, except `stats`, which is then about all tunnels. */
  lemma VerbsWithoutId(verb: string)
    ensures Lower(verb) in {"remove", "delete", "enable", "disable"} ==>
              ParseCommand([verb] + []) == Err(Missing("tunnel-id"))
    ensures Lower(verb) in {"stats", "statistics"} ==> ParseCommand([verb] + []) == Ok(Stats(None))
  {
    BareVerbs(Lower(verb));
    if Lower(verb) in ID_VERBS {
      IdVerbsAreVerbs();
      VerbsAreWords(verb);
      VerbDecides(verb, []);
    }
  }

  lemma PairAsId(id: u32, orPair: bool)
    ensures var pair := Pair("tunnel-id", PrintNat(id));
      IsWord(pair) && ParseId([pair], orPair) == if orPair then Some(id) else None
  {
    var pair := Pair("tunnel-id", PrintNat(id));
    RequiredKeys();
    PrintedIsClean(id);
    PairIsWord("tunnel-id", PrintNat(id));
    PairIsNoNumber(pair);
    PairsSnoc([], "tunnel-id", PrintNat(id));
    assert [] + [pair] == [pair];
    U32RoundTrip(id);
  }

  /** Behind a word that is no number, only `remove` finds the id in a tunnel-id pair. */
  lemma OnlyRemoveTakesPairs(verb: string, id: u32)
    ensures var parsed := ParseCommand([verb] + [Pair("tunnel-id", PrintNat(id))]);
      && (Lower(verb) in {"remove", "delete"} ==> parsed == Ok(Remove(id)))
      && (Lower(verb) in {"enable", "disable", "stats", "statistics"} ==> parsed == Err(Invalid("tunnel-id")))
  {
    var rest := [Pair("tunnel-id", PrintNat(id))];
    PairAsId(id, true);
    PairAsId(id, false);
    IdVerbs(Lower(verb), rest);
    if Lower(verb) in ID_VERBS {
      IdVerbsAreVerbs();
      VerbsAreWords(verb);
      VerbDecides(verb, rest);
    }
  }

  lemma PairIsNoNumber(pair: string)
    requires pair != "" && pair[0] == 't'
    ensures ParseU32(pair).None?
  {
    assert !IsDigit(pair[0]);
  }

  lemma LoneVerbs(verb: string, rest: seq<string>)
    ensures verb in {"monitor", "watch"} ==> ParseVerb(verb, rest) == Ok(Monitor)
    ensures verb in {"health", "check"} ==> ParseVerb(verb, rest) == Ok(Health)
    ensures verb in {"help", "?"} ==> ParseVerb(verb, rest) == Ok(Help)
    ensures verb in {"quit", "exit"} ==> ParseVerb(verb, rest) == Ok(Quit)
  {
  }

  const LONE_VERBS: set<string> := {"monitor", "watch", "health", "check", "help", "?", "quit", "exit"}

  lemma LoneVerbsAreVerbs()
    ensures LONE_VERBS <= VERBS
  {
  }

  /** The verbs that stand alone; what comes behind them is not looked at. */
  lemma VerbsAlone(verb: string, rest: seq<string>)
    requires AllWords(rest)
    ensures var parsed := ParseCommand([verb] + rest);
      && (Lower(verb) in {"monitor", "watch"} ==> parsed == Ok(Monitor))
      && (Lower(verb) in {"health", "check"} ==> parsed == Ok(Health))
      && (Lower(verb) in {"help", "?"} ==> parsed == Ok(Help))
      && (Lower(verb) in {"quit", "exit"} ==> parsed == Ok(Quit))
  {
    LoneVerbs(Lower(verb), rest);
    if Lower(verb) in LONE_VERBS {
      LoneVerbsAreVerbs();
      VerbsAreWords(verb);
      VerbDecides(verb, rest);
    }
  }

  /** The verbs that are followed by pairs and other words. */
  lemma OtherVerbs(rest: seq<string>)
    ensures ParseVerb("set", rest) == ParseSet(rest) && ParseVerb("add", rest) == ParseAdd(rest)
    ensures ParseVerb("print", rest) == PrintOf(rest, false, None)
  {
  }

  predicate SomePair(words: seq<string>) {
    exists i :: 0 <= i < |words| && '=' in words[i]
  }

  lemma SetOf(id: u32, pairs: seq<string>)
    ensures ParseSet([PrintNat(id)] + pairs)
         == if SomePair(pairs) then Ok(Set(id, Pairs(pairs))) else Err(Missing("pair"))
  {
    U32RoundTrip(id);
    assert ([PrintNat(id)] + pairs)[1..] == pairs;
    NoPairs(pairs);
  }

  /** `set` takes an id and then the pairs, of which there must be one. */
  lemma SetParses(verb: string, id: u32, pairs: seq<string>)
    requires Lower(verb) == "set" && AllWords(pairs)
    ensures ParseCommand([verb] + ([PrintNat(id)] + pairs))
         == if SomePair(pairs) then Ok(Set(id, Pairs(pairs))) else Err(Missing("pair"))
  {
    var rest := [PrintNat(id)] + pairs;
    SetOf(id, pairs);
    OtherVerbs(rest);
    VerbsAreWords(verb);
    NumberIsWord(id);
    VerbDecides(verb, rest);
  }

  lemma {:induction false} NoPairs(words: seq<string>)
    ensures Pairs(words) != map[] <==> SomePair(words)
  {
    if words != [] {
      var front, w := words[..|words| - 1], words[|words| - 1];
      NoPairs(front);
      SplitOnceParts(w, '=');
      assert forall i :: 0 <= i < |front| ==> front[i] == words[i];
      if SplitOnce(w, '=').Some? {
        var (k, v) := SplitOnce(w, '=').value;
        assert w[|k|] == '=';
        assert Lower(k) in Pairs(words);
      }
    }
  }

  lemma {:induction false} PrintIsKnown(words: seq<string>, detail: bool, filter: Option<Filter>, verb: string)
    ensures PrintOf(words, detail, filter) != Err(UnknownCommand(verb))
    decreases |words|
  {
    if words != [] {
      PrintIsKnown(words[1..], true, filter, verb);
      PrintIsKnown(words[1..], detail, NumberOr(words[0], filter), verb);
    }
  }

  lemma KnownVerbs(verb: string, rest: seq<string>)
    ensures ParseVerb(verb, rest) == Err(UnknownCommand(verb)) <==> verb !in VERBS
  {
    PrintIsKnown(rest, false, None, verb);
  }

  /** Exactly the other verbs are unknown. */
  lemma UnknownVerbs(verb: string, rest: seq<string>)
    requires IsWord(Lower(verb)) && Lower(verb) !in PREFIXES && AllWords(rest)
    ensures ParseCommand([verb] + rest) == Err(UnknownCommand(Lower(verb))) <==> Lower(verb) !in VERBS
  {
    VerbDecides(verb, rest);
    KnownVerbs(Lower(verb), rest);
  }

  /** Nothing at all, and nothing but prefixes. */
  lemma NothingToDo()
    ensures ParseCommand([]) == Err(EmptyCommand)
    ensures ParseCommand(["/interface/eoip"]) == Err(EmptyAfterNormalization)
  {
    PrefixIsIgnored("", []);
    assert ["/interface/eoip"] + [] == ["/interface/eoip"];
  }

  lemma AddVerb()
    ensures IsWord("add") && Lower("add") == "add" && Lower("add") !in PREFIXES
  {
    assert Lower("add") == "add";
  }

  lemma CleanAddParses(c: Command)
    requires c.Add? && CleanValues(c)
    ensures ParseCommand(PrintAdd(c)) == Ok(c)
  {
    AddVerb();
    CleanAddIsWords(c);
    VerbDecides("add", AddPairs(c));
    OtherVerbs(AddPairs(c));
    AddPairsParse(c);
  }

  /** Whatever an Add command parses to has clean values. */
  lemma ParsedValuesAreClean(words: seq<string>, c: Command)
    requires AllWords(words) && c.Add? && ParseAdd(words) == Ok(c)
    ensures CleanValues(c)
  {
    PairsAreClean(words);
  }

  /** Whatever is printed behind a verb, the verb comes first and words follow. */
  lemma VerbFirst(verb: string, args: seq<string>)
    requires IsWord(verb) && Lower(verb) == verb && verb !in PREFIXES
    ensures exists rest :: AllWords(rest) && ParseCommand([verb] + args) == ParseVerb(verb, rest)
  {
    WordsOfWords([verb]);
    WordsAppend([verb], args);
    WordsAreWords(args);
    assert ([verb] + Words(args))[1..] == Words(args);
  }

  /** An Add command printed as words parses back to itself if and only if no value contains a slash and none ends in a
      blank. */
  lemma AddRoundTrip(c: Command)
    requires c.Add?
    ensures ParseCommand(PrintAdd(c)) == Ok(c) <==> CleanValues(c)
  {
    if CleanValues(c) {
      CleanAddParses(c);
    } else {
      AddVerb();
      VerbFirst("add", AddPairs(c));
      var rest :| AllWords(rest) && ParseCommand(PrintAdd(c)) == ParseVerb("add", rest);
      OtherVerbs(rest);
      if ParseAdd(rest) == Ok(c) {
        ParsedValuesAreClean(rest, c);
      }
    }
  }

  /** What `print` shows is decided by the words before the first `where` and the pairs behind it. */
  lemma PrintParses(verb: string, words: seq<string>, condition: seq<string>)
    requires Lower(verb) == "print" && AllWords(words) && NoWhere(words) && AllWords(condition)
    ensures ParseCommand([verb] + words) == Ok(Print(SaysDetail(words), LastNumber(words, None)))
    ensures ParseCommand([verb] + (words + (["where"] + condition)))
         == if condition == [] then Err(Missing("where"))
            else Where(Pairs(condition), SaysDetail(words), LastNumber(words, None))
  {
    var more := ["where"] + condition;
    assert words + [] == words;
    PrintWords(words, [], false, None);
    PrintWords(words, more, false, None);
    PrintWhere(condition, SaysDetail(words), LastNumber(words, None));
    PrintDecides(verb, words);
    assert AllWords(words + more) by {
      WhereIsWord();
    }
    PrintDecides(verb, words + more);
  }

  lemma PrintDecides(verb: string, rest: seq<string>)
    requires Lower(verb) == "print" && AllWords(rest)
    ensures ParseCommand([verb] + rest) == PrintOf(rest, false, None)
  {
    VerbsAreWords(verb);
    OtherVerbs(rest);
    VerbDecides(verb, rest);
  }

  lemma WhereIsWord()
    ensures IsWord("where") && Lower("where") == "where" && IsWord("detail") && Lower("detail") == "detail"
    ensures "where" != "detail"
  {
    assert Lower("where") == "where" && Lower("detail") == "detail";
    assert |"where"| != |"detail"|;
  }

  lemma PrintWhere(condition: seq<string>, detail: bool, filter: Option<Filter>)
    ensures PrintOf(["where"] + condition, detail, filter)
         == if condition == [] then Err(Missing("where")) else Where(Pairs(condition), detail, filter)
  {
    WhereIsWord();
    assert (["where"] + condition)[1..] == condition;
  }

  /** A filter as words. */
  function Condition(filter: Option<Filter>): seq<string> {
    match filter
    case None => []
    case Some(TunnelId(id)) => ["where"] + [Pair("tunnel-id", PrintNat(id))]
    case Some(Name(name)) => ["where"] + [Pair("name", name)]
  }

  function Detail(detail: bool): seq<string> {
    if detail then ["detail"] else []
  }

  /** A command as words. */
  function PrintCommand(c: Command): seq<string>
    requires !c.Set?
  {
    match c
    case Print(detail, filter) => ["print"] + (Detail(detail) + Condition(filter))
    case Add(_, _, _, _, _, _) => PrintAdd(c)
    case Remove(id) => ["remove"] + ([PrintNat(id)] + [])
    case Enable(id) => ["enable"] + ([PrintNat(id)] + [])
    case Disable(id) => ["disable"] + ([PrintNat(id)] + [])
    case Stats(None) => ["stats"] + []
    case Stats(Some(id)) => ["stats"] + ([PrintNat(id)] + [])
    case Monitor => ["monitor"] + []
    case Health => ["health"] + []
    case Help => ["help"] + []
    case Quit => ["quit"] + []
  }

  /** The texts a command carries survive as the end of a word. */
  predicate Sayable(c: Command) {
    && (c.Add? ==> CleanValues(c))
    && (c.Print? && c.filter.Some? && c.filter.value.Name? ==> Clean(c.filter.value.name))
  }

  lemma ConditionParses(filter: Option<Filter>, detail: bool)
    requires filter.Some? && (filter.value.Name? ==> Clean(filter.value.name))
    ensures AllWords(Condition(filter))
    ensures Where(Pairs(Condition(filter)[1..]), detail, None) == Ok(Print(detail, filter))
  {
    Keys();
    WhereIsWord();
    match filter.value
    case TunnelId(id) =>
      PairAsId(id, true);
      PairsSnoc([], "tunnel-id", PrintNat(id));
      assert [] + [Pair("tunnel-id", PrintNat(id))] == Condition(filter)[1..];
      U32RoundTrip(id);
    case Name(name) =>
      PairIsWord("name", name);
      PairsSnoc([], "name", name);
      assert [] + [Pair("name", name)] == Condition(filter)[1..];
      KeysDiffer();
  }

  lemma DetailParses(detail: bool)
    ensures var words := Detail(detail);
      AllWords(words) && NoWhere(words) && (SaysDetail(words) <==> detail) && LastNumber(words, None) == None
  {
    WhereIsWord();
    if detail {
      assert Lower(Detail(detail)[0]) == "detail";
      DetailIsNoNumber("detail");
      LastNumberCons("detail", [], None);
      assert ["detail"] + [] == ["detail"];
    }
  }

  lemma PrintRoundTrip(detail: bool, filter: Option<Filter>)
    requires Sayable(Print(detail, filter))
    ensures ParseCommand(PrintCommand(Print(detail, filter))) == Ok(Print(detail, filter))
  {
    DetailParses(detail);
    assert Lower("print") == "print";
    if filter.Some? {
      ConditionParses(filter, detail);
      var pair := Condition(filter)[1..];
      assert Condition(filter) == ["where"] + pair && pair[0] == Condition(filter)[1];
      PrintParses("print", Detail(detail), pair);
    } else {
      PrintParses("print", Detail(detail), []);
      assert Detail(detail) + [] == Detail(detail);
    }
  }

  lemma {:induction false} NamesAreClean(words: seq<string>, detail: bool, filter: Option<Filter>, c: Command)
    requires AllWords(words) && PrintOf(words, detail, filter) == Ok(c)
    requires filter.Some? ==> filter.value.TunnelId?
    ensures Sayable(c)
    decreases |words|
  {
    if words != [] {
      assert forall i :: 0 <= i < |words| - 1 ==> words[1..][i] == words[i + 1];
      if Lower(words[0]) == "where" {
        PairsAreClean(words[1..]);
      } else if Lower(words[0]) == "detail" {
        NamesAreClean(words[1..], true, filter, c);
      } else {
        NamesAreClean(words[1..], detail, NumberOr(words[0], filter), c);
      }
    }
  }

  lemma PrintVerb()
    ensures IsWord("print") && Lower("print") == "print" && "print" !in PREFIXES
  {
    assert Lower("print") == "print";
  }

  lemma LoweredVerbs()
    ensures Lower("remove") == "remove" && Lower("enable") == "enable" && Lower("disable") == "disable"
    ensures Lower("stats") == "stats" && Lower("monitor") == "monitor" && Lower("health") == "health"
    ensures Lower("help") == "help" && Lower("quit") == "quit"
  {
    assert Lower("remove") == "remove" && Lower("enable") == "enable" && Lower("disable") == "disable";
    assert Lower("stats") == "stats" && Lower("monitor") == "monitor" && Lower("health") == "health";
    assert Lower("help") == "help" && Lower("quit") == "quit";
  }

  lemma OtherRoundTrips(c: Command)
    requires !c.Set? && !c.Add? && !c.Print?
    ensures ParseCommand(PrintCommand(c)) == Ok(c)
  {
    LoweredVerbs();
    match c
    case Remove(id) => VerbsWithId("remove", id, []);
    case Enable(id) => VerbsWithId("enable", id, []);
    case Disable(id) => VerbsWithId("disable", id, []);
    case Stats(Some(id)) => VerbsWithId("stats", id, []);
    case Stats(None) => VerbsWithoutId("stats");
    case Monitor => VerbsAlone("monitor", []);
    case Health => VerbsAlone("health", []);
    case Help => VerbsAlone("help", []);
    case Quit => VerbsAlone("quit", []);
  }

  /** Every command but `set` can be printed as words, and these parse back to it if and only if no text in it contains
      a slash or ends in a blank. */
  lemma CommandRoundTrip(c: Command)
    requires !c.Set?
    ensures ParseCommand(PrintCommand(c)) == Ok(c) <==> Sayable(c)
  {
    match c
    case Add(_, _, _, _, _, _) => AddRoundTrip(c);
    case Print(detail, filter) =>
      if Sayable(c) {
        PrintRoundTrip(detail, filter);
      } else {
        PrintVerb();
        VerbFirst("print", Detail(detail) + Condition(filter));
        var rest :| AllWords(rest) && ParseCommand(PrintCommand(c)) == ParseVerb("print", rest);
        OtherVerbs(rest);
        if PrintOf(rest, false, None) == Ok(c) {
          NamesAreClean(rest, false, None, c);
        }
      }
    case _ => OtherRoundTrips(c);
  }

  lemma PrintedIsNotEmpty(c: Command)
    requires !c.Set?
    ensures "" !in PrintCommand(c)
  {
  }

  /** And so does the whole input line, with every word quoted, under the same condition. */
  lemma CommandLineRoundTrip(c: Command, gap: string)
    requires !c.Set? && ShellSplitting.Blanks(gap)
    ensures var line := ShellSplitting.PrintLine(ShellSplitting.PiecesOfAll(PrintCommand(c)), gap);
      ParseCommand(ShellSplitting.Split(line, "", None)) == Ok(c) <==> Sayable(c)
  {
    PrintedIsNotEmpty(c);
    ShellSplitting.QuotedRoundTrip(PrintCommand(c), gap);
    CommandRoundTrip(c);
  }
}
