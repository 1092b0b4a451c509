/** Splitting a command line into tokens: bare words, and quoted strings with escapes. */
module Tokenizer {
  import opened Data

  /** The Unicode White_Space property. */
  predicate IsWhitespace(c: char) {
    var n := c as int;
    9 <= n <= 13 || n == 0x20 || n == 0x85 || n == 0xA0 || n == 0x1680 || 0x2000 <= n <= 0x200A
    || n == 0x2028 || n == 0x2029 || n == 0x202F || n == 0x205F || n == 0x3000
  }

  const QUOTE := '"'
  const ESCAPE := '\\'
  const MISSING := "ERROR missing_argument"
  const INVALID := "ERROR invalid_argument"

  type Token = Result<(string, string), string>

  function TrimStart(s: string): string {
    if s != [] && IsWhitespace(s[0]) then TrimStart(s[1..]) else s
  }

  /** The characters up to the first whitespace. */
  function Word(s: string): (w: string)
    ensures |w| <= |s| && s[..|w|] == w
  {
    if s == [] || IsWhitespace(s[0]) then [] else [s[0]] + Word(s[1..])
  }

  function Unescape(c: char): char {
    if c == 'n' then '\n' else if c == 'r' then '\r' else if c == 't' then '\t' else c
  }

  /** Reading a quoted string after its opening quote: its contents and what follows the closing quote. */
  function Unquote(s: string, escaped: bool): Option<(string, string)> {
    if s == [] then None
    else if escaped then Prefixed([Unescape(s[0])], Unquote(s[1..], false))
    else if s[0] == ESCAPE then Unquote(s[1..], true)
    else if s[0] == QUOTE then Some(([], s[1..]))
    else Prefixed([s[0]], Unquote(s[1..], false))
  }

  function Prefixed(p: string, r: Option<(string, string)>): Option<(string, string)> {
    if r.None? then None else Some((p + r.value.0, r.value.1))
  }

  function TakeToken(input: string): Token {
    var s := TrimStart(input);
    if s == [] then Err(MISSING)
    else if s[0] == QUOTE then
      var r := Unquote(s[1..], false);
      if r.None? then Err(INVALID) else Ok(r.value)
    else Ok((Word(s), s[|Word(s)|..]))
  }

  /** The 25 code points with the Unicode property White_Space. */
  lemma WhitespaceCodes(c: char)
    ensures IsWhitespace(c)
       <==> c as int in {0x9, 0xA, 0xB, 0xC, 0xD, 0x20, 0x85, 0xA0, 0x1680, 0x2000, 0x2001, 0x2002, 0x2003, 0x2004,
                         0x2005, 0x2006, 0x2007, 0x2008, 0x2009, 0x200A, 0x2028, 0x2029, 0x202F, 0x205F, 0x3000}
  {
  }

  // ---------------------------------------------------------------- progress

  lemma {:induction false} TrimStartSuffix(s: string)
    ensures |TrimStart(s)| <= |s| && TrimStart(s) == s[|s| - |TrimStart(s)|..]
    ensures TrimStart(s) != [] ==> !IsWhitespace(TrimStart(s)[0])
    ensures TrimStart(TrimStart(s)) == TrimStart(s)
  {
    if s != [] && IsWhitespace(s[0]) {
      TrimStartSuffix(s[1..]);
    }
  }

  lemma {:induction false} UnquoteSuffix(s: string, escaped: bool)
    requires Unquote(s, escaped).Some?
    ensures var (tok, rest) := Unquote(s, escaped).value;
      && |tok| + |rest| < |s| + (if escaped then 1 else 0)
      && |rest| < |s| && rest == s[|s| - |rest|..]
  {
    if escaped || (s[0] != ESCAPE && s[0] != QUOTE) {
      UnquoteSuffix(s[1..], false);
    } else if s[0] == ESCAPE {
      UnquoteSuffix(s[1..], true);
    }
  }

  /**
    A token leaves a strictly shorter suffix of the input. There is none exactly when only
    whitespace is left or a quote is not closed.
   */
  lemma TakeTokenProgress(input: string)
    ensures var s, r := TrimStart(input), TakeToken(input);
      && (r.Ok? ==> |r.value.1| < |input| && r.value.1 == input[|input| - |r.value.1|..])
      && (r == Err(MISSING) <==> s == [])
      && (r == Err(INVALID) <==> s != [] && s[0] == QUOTE && Unquote(s[1..], false).None?)
      && (r.Err? ==> r.error == MISSING || r.error == INVALID)
  {
    var s := TrimStart(input);
    TrimStartSuffix(input);
    if s != [] && s[0] == QUOTE && Unquote(s[1..], false).Some? {
      UnquoteSuffix(s[1..], false);
    }
  }

  /** The tokens of a line, taken until only whitespace is left. */
  function Tokens(s: string): Result<seq<string>, string>
    decreases |s|
  {
    if TrimStart(s) == [] then Ok([])
    else
      TakeTokenProgress(s);
      match TakeToken(s)
      case Err(e) => Err(e)
      case Ok((tok, rest)) =>
        match Tokens(rest)
        case Err(e) => Err(e)
        case Ok(toks) => Ok([tok] + toks)
  }

  lemma {:induction false} TokensProgress(s: string)
    ensures Tokens(s).Ok? ==> |Tokens(s).value| <= |s|
    ensures Tokens(s).Err? ==> Tokens(s).error == INVALID
    decreases |s|
  {
    TakeTokenProgress(s);
    if TrimStart(s) != [] && TakeToken(s).Ok? {
      TokensProgress(TakeToken(s).value.1);
    }
  }

  // ---------------------------------------------------------------- the grammar of quoted strings

  /** The string that an escaped text stands for; none if it has a bare quote or ends in a backslash. */
  function Decode(t: string): Option<string> {
    if t == [] then Some([])
    else if t[0] == QUOTE then None
    else if t[0] == ESCAPE then
      if |t| == 1 then None
      else
        var d := Decode(t[2..]);
        if d.None? then None else Some([Unescape(t[1])] + d.value)
    else
      var d := Decode(t[1..]);
      if d.None? then None else Some([t[0]] + d.value)
  }

  lemma {:induction false} DecodeUnquotes(t: string, rest: string)
    requires Decode(t).Some?
    ensures Unquote(t + [QUOTE] + rest, false) == Some((Decode(t).value, rest))
    decreases |t|
  {
    var s := t + [QUOTE] + rest;
    if t == [] {
      assert s[1..] == rest;
    } else if t[0] == ESCAPE {
      DecodeUnquotes(t[2..], rest);
      assert s[1..][1..] == t[2..] + [QUOTE] + rest;
    } else {
      DecodeUnquotes(t[1..], rest);
      assert s[1..] == t[1..] + [QUOTE] + rest;
    }
  }

  lemma {:induction false} UnquoteDecodes(s: string)
    requires Unquote(s, false).Some?
    ensures var (tok, rest) := Unquote(s, false).value;
      && |rest| < |s| && rest == s[|s| - |rest|..] && s[|s| - |rest| - 1] == QUOTE
      && Decode(s[..|s| - |rest| - 1]) == Some(tok)
    decreases |s|
  {
    UnquoteSuffix(s, false);
    var (tok, rest) := Unquote(s, false).value;
    var t := s[..|s| - |rest| - 1];
    if s[0] == ESCAPE {
      assert s[1..][1..] == s[2..];
      UnquoteDecodes(s[2..]);
      assert t[2..] == s[2..][..|s| - 2 - |rest| - 1];
    } else if s[0] != QUOTE {
      UnquoteDecodes(s[1..]);
      assert t[1..] == s[1..][..|s| - 1 - |rest| - 1];
    }
  }

  /** What follows an opening quote is read as (tok, rest) exactly when it is text for tok, a quote, and rest. */
  lemma QuotedGrammar(s: string, tok: string, rest: string)
    ensures Unquote(s, false) == Some((tok, rest))
       <==> |rest| < |s| && s == s[..|s| - |rest| - 1] + [QUOTE] + rest
            && Decode(s[..|s| - |rest| - 1]) == Some(tok)
  {
    if |rest| < |s| {
      var t := s[..|s| - |rest| - 1];
      if s == t + [QUOTE] + rest && Decode(t) == Some(tok) {
        DecodeUnquotes(t, rest);
      }
    }
    if Unquote(s, false) == Some((tok, rest)) {
      UnquoteDecodes(s);
    }
  }

  // ---------------------------------------------------------------- round trips

  function EscapeChar(c: char): string {
    if c == QUOTE || c == ESCAPE then [ESCAPE, c] else [c]
  }

  function EscapeText(s: string): string {
    if s == [] then [] else EscapeChar(s[0]) + EscapeText(s[1..])
  }

  function Quoted(s: string): string {
    [QUOTE] + EscapeText(s) + [QUOTE]
  }

  /** Line breaks and tabs spelled out too, so that the text stays on one line. */
  function EscapeLineChar(c: char): string {
    if c == '\n' then [ESCAPE, 'n'] else if c == '\r' then [ESCAPE, 'r'] else if c == '\t' then [ESCAPE, 't']
    else EscapeChar(c)
  }

  function EscapeLine(s: string): string {
    if s == [] then [] else EscapeLineChar(s[0]) + EscapeLine(s[1..])
  }

  function QuotedLine(s: string): string {
    [QUOTE] + EscapeLine(s) + [QUOTE]
  }

  lemma DecodeChar(t: string, c: char, rest: string)
    requires t == EscapeChar(c) || t == EscapeLineChar(c)
    requires Decode(rest).Some?
    ensures Decode(t + rest) == Some([c] + Decode(rest).value)
  {
    assert (t + rest)[|t|..] == rest;
  }

  lemma {:induction false} DecodeEscaped(s: string)
    ensures Decode(EscapeText(s)) == Some(s)
    ensures Decode(EscapeLine(s)) == Some(s)
  {
    if s != [] {
      DecodeEscaped(s[1..]);
      DecodeChar(EscapeChar(s[0]), s[0], EscapeText(s[1..]));
      DecodeChar(EscapeLineChar(s[0]), s[0], EscapeLine(s[1..]));
      assert [s[0]] + s[1..] == s;
    }
  }

  lemma {:induction false} SkipSpace(pad: string, s: string)
    requires forall i | 0 <= i < |pad| :: IsWhitespace(pad[i])
    ensures TrimStart(pad + s) == TrimStart(s)
  {
    if pad == [] {
      assert pad + s == s;
    } else {
      assert (pad + s)[1..] == pad[1..] + s;
      SkipSpace(pad[1..], s);
    }
  }

  /** Quoting any string and reading it back gives the string and leaves what follows. */
  lemma QuotedRoundTrip(pad: string, s: string, rest: string)
    requires forall i | 0 <= i < |pad| :: IsWhitespace(pad[i])
    ensures TakeToken(pad + Quoted(s) + rest) == Ok((s, rest))
    ensures TakeToken(pad + QuotedLine(s) + rest) == Ok((s, rest))
  {
    DecodeEscaped(s);
    EncodedRoundTrip(pad, EscapeText(s), s, rest);
    EncodedRoundTrip(pad, EscapeLine(s), s, rest);
  }

  lemma EncodedRoundTrip(pad: string, t: string, s: string, rest: string)
    requires forall i | 0 <= i < |pad| :: IsWhitespace(pad[i])
    requires Decode(t) == Some(s)
    ensures TakeToken(pad + ([QUOTE] + t + [QUOTE]) + rest) == Ok((s, rest))
  {
    var line := [QUOTE] + (t + [QUOTE] + rest);
    assert pad + ([QUOTE] + t + [QUOTE]) + rest == pad + line;
    SkipSpace(pad, line);
    DecodeUnquotes(t, rest);
    assert line[1..] == t + [QUOTE] + rest;
  }

  /** A text that the line reader takes as one line and that trimming leaves alone. */
  predicate IsOneLine(s: string) {
    s != [] && '\n' !in s && !IsWhitespace(s[0]) && !IsWhitespace(s[|s| - 1])
  }

  lemma {:induction false} StaysOnLine(s: string)
    ensures '\n' !in EscapeLine(s)
  {
    if s != [] {
      StaysOnLine(s[1..]);
    }
  }

  /** A name that can be written without quotes. */
  predicate Bare(s: string) {
    s != [] && s[0] != QUOTE && forall i | 0 <= i < |s| :: !IsWhitespace(s[i])
  }

  lemma {:induction false} WordOf(s: string, rest: string)
    requires forall i | 0 <= i < |s| :: !IsWhitespace(s[i])
    requires rest == [] || IsWhitespace(rest[0])
    ensures Word(s + rest) == s
  {
    if s == [] {
      assert s + rest == rest;
    } else {
      assert (s + rest)[1..] == s[1..] + rest;
      WordOf(s[1..], rest);
    }
  }

  lemma BareRoundTrip(pad: string, s: string, rest: string)
    requires forall i | 0 <= i < |pad| :: IsWhitespace(pad[i])
    requires Bare(s) && (rest == [] || IsWhitespace(rest[0]))
    ensures TakeToken(pad + s + rest) == Ok((s, rest))
  {
    assert pad + s + rest == pad + (s + rest);
    SkipSpace(pad, s + rest);
    WordOf(s, rest);
  }

  function PrintQuoted(names: seq<string>): string {
    if names == [] then [] else [' '] + Quoted(names[0]) + PrintQuoted(names[1..])
  }

  /** The same with line breaks spelled out. */
  function PrintOnLine(names: seq<string>): string {
    if names == [] then [] else [' '] + QuotedLine(names[0]) + PrintOnLine(names[1..])
  }

  lemma {:induction false} NamesStayOnLine(names: seq<string>)
    ensures '\n' !in PrintOnLine(names)
    ensures names != [] ==> PrintOnLine(names) != [] && PrintOnLine(names)[|PrintOnLine(names)| - 1] == QUOTE
  {
    if names != [] {
      NamesStayOnLine(names[1..]);
      StaysOnLine(names[0]);
    }
  }

  function Join(names: seq<string>): string {
    if names == [] then [] else if |names| == 1 then names[0] else names[0] + [' '] + Join(names[1..])
  }

  /** Any list printed quoted and separated by spaces is recovered. */
  lemma {:induction false} QuotedListRoundTrip(names: seq<string>)
    ensures Tokens(PrintQuoted(names)) == Ok(names)
    ensures Tokens(PrintOnLine(names)) == Ok(names)
  {
    if names != [] {
      QuotedListRoundTrip(names[1..]);
      QuotedRoundTrip([' '], names[0], PrintQuoted(names[1..]));
      TokensCons(PrintQuoted(names), names, PrintQuoted(names[1..]));
      QuotedRoundTrip([' '], names[0], PrintOnLine(names[1..]));
      TokensCons(PrintOnLine(names), names, PrintOnLine(names[1..]));
    }
  }

  lemma TokensCons(s: string, names: seq<string>, rest: string)
    requires names != [] && TakeToken(s) == Ok((names[0], rest)) && Tokens(rest) == Ok(names[1..])
    ensures Tokens(s) == Ok(names)
  {
    TokensStep(s, names[0], rest);
    assert [names[0]] + names[1..] == names;
  }

  lemma TokensTrim(s: string)
    ensures Tokens(TrimStart(s)) == Tokens(s)
  {
    TrimStartSuffix(s);
  }

  lemma TokensStep(s: string, tok: string, rest: string)
    requires TakeToken(s) == Ok((tok, rest))
    ensures Tokens(s) == if Tokens(rest).Err? then Tokens(rest) else Ok([tok] + Tokens(rest).value)
  {
    TakeTokenProgress(s);
  }

  lemma {:induction false} BareListRoundTrip(names: seq<string>)
    requires forall i | 0 <= i < |names| :: Bare(names[i])
    ensures Tokens(Join(names)) == Ok(names)
  {
    if names != [] {
      BareListRoundTrip(names[1..]);
      FirstOfJoin(names[0], names[1..], Join(names));
      assert [names[0]] + names[1..] == names;
    }
  }

  lemma FirstOfJoin(first: string, names: seq<string>, line: string)
    requires Bare(first) && Tokens(Join(names)) == Ok(names)
    requires line == if names == [] then first else first + [' '] + Join(names)
    ensures Tokens(line) == Ok([first] + names)
  {
    var rest := if names == [] then [] else [' '] + Join(names);
    assert line == [] + first + rest;
    BareRoundTrip([], first, rest);
    LeadingSpace(Join(names));
    TokensStep(line, first, rest);
  }

  lemma LeadingSpace(s: string)
    ensures Tokens([' '] + s) == Tokens(s)
  {
    SkipSpace([' '], s);
    TokensTrim([' '] + s);
    TokensTrim(s);
  }

  /** The least number of characters that tokens take, one separator each included. */
  function Cost(toks: seq<string>): nat {
    if toks == [] then 0 else |toks[0]| + 1 + (if Bare(toks[0]) then 0 else 1) + Cost(toks[1..])
  }

  lemma {:induction false} WordIsWord(s: string)
    ensures forall i | 0 <= i < |Word(s)| :: !IsWhitespace(Word(s)[i])
    ensures |Word(s)| < |s| ==> IsWhitespace(s[|Word(s)|])
  {
    if s != [] && !IsWhitespace(s[0]) {
      WordIsWord(s[1..]);
    }
  }

  /** A token that had to be quoted takes at least one character more than a bare word. */
  lemma {:induction false} TokensCost(s: string)
    requires Tokens(s).Ok? && Tokens(s).value != []
    ensures Cost(Tokens(s).value) <= |TrimStart(s)| + 1
    decreases |s|
  {
    var line := TrimStart(s);
    TrimStartSuffix(s);
    TakeTokenProgress(s);
    var (tok, rest) := TakeToken(s).value;
    var toks := Tokens(s).value;
    assert toks[1..] == Tokens(rest).value;
    TrimStartSuffix(rest);
    if toks[1..] != [] {
      TokensCost(rest);
    }
    if line[0] == QUOTE {
      UnquoteSuffix(line[1..], false);
    } else {
      WordIsWord(line);
      assert Bare(tok);
      assert rest != [] ==> rest[0] == line[|tok|] && |TrimStart(rest)| < |rest|;
    }
  }

  lemma {:induction false} JoinLength(names: seq<string>)
    requires names != []
    ensures Cost(names) >= |Join(names)| + 1
    ensures Cost(names) == |Join(names)| + 1 ==> forall i | 0 <= i < |names| :: Bare(names[i])
  {
    if |names| > 1 {
      JoinLength(names[1..]);
      if Cost(names) == |Join(names)| + 1 {
        forall i | 0 <= i < |names|
          ensures Bare(names[i])
        {
          assert i > 0 ==> names[1..][i - 1] == names[i];
        }
      }
    } else {
      assert Cost(names[1..]) == 0;
    }
  }

  /**
    Joining names with spaces, without quotes, is recovered exactly when every name is non-empty,
    has no whitespace and does not start with a quote.
   */
  lemma JoinRecoveredIff(names: seq<string>)
    ensures Tokens(Join(names)) == Ok(names) <==> forall i | 0 <= i < |names| :: Bare(names[i])
  {
    if forall i | 0 <= i < |names| :: Bare(names[i]) {
      BareListRoundTrip(names);
    } else if Tokens(Join(names)) == Ok(names) {
      TokensCost(Join(names));
      TrimStartSuffix(Join(names));
      JoinLength(names);
    }
  }

  // ---------------------------------------------------------------- the loops

  method SkipWhitespace(input: string) returns (s: string)
    ensures s == TrimStart(input)
  {
    var i := 0;
    while i < |input| && IsWhitespace(input[i])
      invariant i <= |input|
      invariant TrimStart(input[i..]) == TrimStart(input)
    {
      i := i + 1;
    }
    s := input[i..];
  }

  method TakeQuoted(body: string) returns (res: Token)
    ensures var r := Unquote(body, false); res == if r.None? then Err(INVALID) else Ok(r.value)
  {
    var buf: string := [];
    var escaped := false;
    var i := 0;
    assert body[0..] == body && forall tok: string :: [] + tok == tok;
    while i < |body|
      invariant i <= |body|
      invariant Unquote(body, false) == Prefixed(buf, Unquote(body[i..], escaped))
    {
      var c := body[i];
      assert body[i..][1..] == body[i + 1..];
      if escaped {
        PrefixedTwice(buf, [Unescape(c)], Unquote(body[i + 1..], false));
        buf := buf + [Unescape(c)];
        escaped := false;
      } else if c == ESCAPE {
        escaped := true;
      } else if c == QUOTE {
        assert buf + [] == buf;
        return Ok((buf, body[i + 1..]));
      } else {
        PrefixedTwice(buf, [c], Unquote(body[i + 1..], false));
        buf := buf + [c];
      }
      i := i + 1;
    }
    res := Err(INVALID);
  }

  lemma PrefixedTwice(p: string, q: string, r: Option<(string, string)>)
    ensures Prefixed(p, Prefixed(q, r)) == Prefixed(p + q, r)
  {
    if r.Some? {
      assert p + (q + r.value.0) == p + q + r.value.0;
    }
  }

  method NextToken(input: string) returns (res: Token)
    ensures res == TakeToken(input)
  {
    var s := SkipWhitespace(input);
    if s == [] {
      return Err(MISSING);
    }
    if s[0] == QUOTE {
      res := TakeQuoted(s[1..]);
      return;
    }
    var end := |s|;
    var i := 0;
    while i < |s|
      invariant i <= |s| && end == |s|
      invariant forall j | 0 <= j < i :: !IsWhitespace(s[j])
    {
      if IsWhitespace(s[i]) {
        end := i;
        break;
      }
      i := i + 1;
    }
    assert s == s[..end] + s[end..];
    WordOf(s[..end], s[end..]);
    res := Ok((s[..end], s[end..]));
  }

  /** The container loop of TOKEN.GEN. */
  method AllTokens(rest: string) returns (res: Result<seq<string>, string>)
    ensures res == Tokens(rest)
    ensures res.Ok? ==> |res.value| <= |rest|
    ensures res.Err? ==> res.error == INVALID
  {
    var containers: seq<string> := [];
    var leftover := rest;
    TokensProgress(rest);
    assert forall toks: seq<string> :: [] + toks == toks;
    while true
      invariant Tokens(rest) == match Tokens(leftover) case Err(e) => Err(e) case Ok(toks) => Ok(containers + toks)
      decreases |leftover|
    {
      var trimmed := SkipWhitespace(leftover);
      if trimmed == [] {
        assert containers + [] == containers;
        return Ok(containers);
      }
      var token := NextToken(leftover);
      TakeTokenProgress(leftover);
      match token
      case Err(e) =>
        return Err(e);
      case Ok((tok, rem)) =>
        assert forall toks: seq<string> :: containers + ([tok] + toks) == containers + [tok] + toks;
        containers := containers + [tok];
        leftover := rem;
    }
  }
}
