/**
 How a POSIX shell reads the text the program writes for it: token recognition and quoting, after
 sections 2.2 and 2.3 of the Shell Command Language volume of POSIX.1-2017.  Text that would make
 the shell do more than read words and newlines (operators, expansions, patterns) is not read.
 */
module Shell {
  import opened Text

  /** A character of a word, and whether it was quoted. */
  datatype WordChar = WordChar(c: char, quoted: bool)

  datatype Token = Word(chars: seq<WordChar>) | Newline

  function Then(front: seq<Token>, rest: Option<seq<Token>>): Option<seq<Token>> {
    match rest
    case None => None
    case Some(back) => Some(front + back)
  }

  /** The word being collected, if any, as a token. */
  function Flush(word: Option<seq<WordChar>>): seq<Token> {
    match word
    case None => []
    case Some(chars) => [Word(chars)]
  }

  function Chars(word: Option<seq<WordChar>>): seq<WordChar> {
    if word.Some? then word.value else []
  }

  function Add(word: Option<seq<WordChar>>, c: char, quoted: bool): Option<seq<WordChar>> {
    Some(Chars(word) + [WordChar(c, quoted)])
  }

  /** Characters that mean something when they are not quoted and are not read here. */
  predicate IsActive(c: char) {
    c in {'|', '&', ';', '<', '>', '(', ')', '$', '`', '*', '?', '[', '~'}
  }

  function SkipComment(s: string): (r: string)
    ensures |r| <= |s|
  {
    if s == [] || s[0] == '\n' then s else SkipComment(s[1..])
  }

  /** Outside quotes. */
  function Unquoted(s: string, word: Option<seq<WordChar>>): Option<seq<Token>>
    decreases |s|
  {
    if s == [] then Some(Flush(word))
    else if s[0] == '\'' then SingleQuoted(s[1..], Chars(word))
    else if s[0] == '"' then DoubleQuoted(s[1..], Chars(word))
    else if s[0] == '\\' then
      if |s| == 1 then None
      else if s[1] == '\n' then Unquoted(s[2..], word)
      else Unquoted(s[2..], Add(word, s[1], true))
    else if s[0] == ' ' || s[0] == '\t' then Then(Flush(word), Unquoted(s[1..], None))
    else if s[0] == '\n' then Then(Flush(word) + [Newline], Unquoted(s[1..], None))
    else if s[0] == '#' && word.None? then Unquoted(SkipComment(s[1..]), None)
    else if IsActive(s[0]) then None
    else Unquoted(s[1..], Add(word, s[0], false))
  }

  function SingleQuoted(s: string, chars: seq<WordChar>): Option<seq<Token>>
    decreases |s|
  {
    if s == [] then None
    else if s[0] == '\'' then Unquoted(s[1..], Some(chars))
    else SingleQuoted(s[1..], chars + [WordChar(s[0], true)])
  }

  function DoubleQuoted(s: string, chars: seq<WordChar>): Option<seq<Token>>
    decreases |s|
  {
    if s == [] then None
    else if s[0] == '"' then Unquoted(s[1..], Some(chars))
    else if s[0] == '$' || s[0] == '`' then None
    else if s[0] == '\\' && |s| > 1 && s[1] == '\n' then DoubleQuoted(s[2..], chars)
    else if s[0] == '\\' && |s| > 1 && s[1] in {'$', '`', '"', '\\'} then
      DoubleQuoted(s[2..], chars + [WordChar(s[1], true)])
    else DoubleQuoted(s[1..], chars + [WordChar(s[0], true)])
  }

  /** The tokens of a text.  A shell cannot be given NUL. */
  function Lex(s: string): Option<seq<Token>> {
    if '\0' in s then None else Unquoted(s, None)
  }

  /** Quote removal. */
  function Plain(chars: seq<WordChar>): string {
    seq(|chars|, i requires 0 <= i < |chars| => chars[i].c)
  }

  predicate IsNameChar(c: char) {
    'a' <= c <= 'z' || 'A' <= c <= 'Z' || c == '_' || IsDigit(c)
  }

  /** A shell name. */
  predicate IsName(s: string) {
    s != [] && !IsDigit(s[0]) && forall i :: 0 <= i < |s| ==> IsNameChar(s[i])
  }

  /** Position of the first unquoted equals sign, or the length. */
  function EqualsAt(chars: seq<WordChar>): (n: nat)
    ensures n <= |chars|
    ensures forall i :: 0 <= i < n ==> chars[i] != WordChar('=', false)
    ensures n < |chars| ==> chars[n] == WordChar('=', false)
  {
    if chars == [] || chars[0] == WordChar('=', false) then 0 else 1 + EqualsAt(chars[1..])
  }

  /** An assignment word: an unquoted name, then an unquoted equals sign. */
  function Assignment(chars: seq<WordChar>): Option<(string, string)> {
    var n := EqualsAt(chars);
    if n < |chars| && IsName(Plain(chars[..n])) && (forall i :: 0 <= i < n ==> !chars[i].quoted)
    then Some((Plain(chars[..n]), Plain(chars[n + 1..])))
    else None
  }

  /** The arguments of a line that is one simple command without assignments. */
  function Arguments(line: string): Option<seq<string>> {
    match Lex(line)
    case None => None
    case Some(tokens) => WordValues(tokens)
  }

  function WordValues(tokens: seq<Token>): Option<seq<string>> {
    if tokens == [] then Some([])
    else if tokens[0].Newline? || Assignment(tokens[0].chars).Some? then None
    else match WordValues(tokens[1..])
      case None => None
      case Some(rest) => Some([Plain(tokens[0].chars)] + rest)
  }

  // ----- the two escapers

  /** strings.ReplaceAll of the single quote */
  function ReplaceQuotes(s: string, by_: string): string {
    if s == [] then "" else (if s[0] == '\'' then by_ else [s[0]]) + ReplaceQuotes(s[1..], by_)
  }

  const BACKSLASHED: string := "'\\''"
  const DOUBLE_QUOTED: string := "'\"'\"'"

  /** shellEscape in internal/store/fs_store.go */
  function ShellEscape(value: string): string {
    "'" + ReplaceQuotes(value, BACKSLASHED) + "'"
  }

  /** shellQuote in cmd/mergen-init-snapshot/main.go */
  function ShellQuote(raw: string): string {
    if raw == "" then "''" else "'" + ReplaceQuotes(raw, DOUBLE_QUOTED) + "'"
  }

  function Quoted(s: string): seq<WordChar> {
    seq(|s|, i requires 0 <= i < |s| => WordChar(s[i], true))
  }

  function Bare(s: string): seq<WordChar> {
    seq(|s|, i requires 0 <= i < |s| => WordChar(s[i], false))
  }

  /** Leaving the single quotes, one quoted quote, and back in. */
  lemma OneQuote(by_: string, rest: string, chars: seq<WordChar>)
    requires by_ == BACKSLASHED || by_ == DOUBLE_QUOTED
    ensures SingleQuoted(by_ + rest, chars) == SingleQuoted(rest, chars + [WordChar('\'', true)])
  {
    var s, more := by_ + rest, chars + [WordChar('\'', true)];
    assert SingleQuoted(s, chars) == Unquoted(s[1..], Some(chars));
    if by_ == BACKSLASHED {
      var t := s[1..];
      assert t == ['\\', '\'', '\''] + rest;
      assert Unquoted(t, Some(chars)) == Unquoted(t[2..], Some(more));
      assert t[2..] == ['\''] + rest && t[2..][1..] == rest;
    } else {
      var t := s[1..];
      assert t == ['"', '\'', '"', '\''] + rest;
      assert Unquoted(t, Some(chars)) == DoubleQuoted(t[1..], chars);
      assert t[1..][1..] == ['"', '\''] + rest;
      assert DoubleQuoted(t[1..], chars) == DoubleQuoted(['"', '\''] + rest, more);
      assert (['"', '\''] + rest)[1..] == ['\''] + rest && (['\''] + rest)[1..] == rest;
      assert DoubleQuoted(['"', '\''] + rest, more) == Unquoted(['\''] + rest, Some(more));
    }
  }

  lemma {:induction false} EscapedReads(s: string, by_: string, rest: string, chars: seq<WordChar>)
    requires by_ == BACKSLASHED || by_ == DOUBLE_QUOTED
    ensures SingleQuoted(ReplaceQuotes(s, by_) + "'" + rest, chars) == Unquoted(rest, Some(chars + Quoted(s)))
  {
    if s == [] {
      assert ReplaceQuotes(s, by_) + "'" + rest == "'" + rest;
      assert ("'" + rest)[1..] == rest && chars + Quoted(s) == chars;
    } else {
      var head := if s[0] == '\'' then by_ else [s[0]];
      var tail := ReplaceQuotes(s[1..], by_) + "'" + rest;
      assert ReplaceQuotes(s, by_) + "'" + rest == head + tail;
      var more := chars + [WordChar(s[0], true)];
      if s[0] == '\'' {
        OneQuote(by_, tail, chars);
      } else {
        assert (head + tail)[1..] == tail;
      }
      assert SingleQuoted(head + tail, chars) == SingleQuoted(tail, more);
      EscapedReads(s[1..], by_, rest, more);
      assert more + Quoted(s[1..]) == chars + Quoted(s);
    }
  }

  /** From an opening quote on. */
  lemma OpenedReads(s: string, by_: string, rest: string, word: Option<seq<WordChar>>)
    requires by_ == BACKSLASHED || by_ == DOUBLE_QUOTED
    ensures Unquoted("'" + ReplaceQuotes(s, by_) + "'" + rest, word) == Unquoted(rest, Some(Chars(word) + Quoted(s)))
  {
    var body := ReplaceQuotes(s, by_) + "'" + rest;
    EscapedReads(s, by_, rest, Chars(word));
    assert "'" + ReplaceQuotes(s, by_) + "'" + rest == ['\''] + body;
    assert Unquoted(['\''] + body, word) == SingleQuoted((['\''] + body)[1..], Chars(word));
    assert (['\''] + body)[1..] == body;
  }

  lemma ShellQuoteForm(s: string)
    ensures ShellQuote(s) == "'" + ReplaceQuotes(s, DOUBLE_QUOTED) + "'"
  {
  }

  /** Both escapers produce text that reads, in any word, as exactly the characters escaped. */
  lemma EscapersRead(s: string, rest: string, word: Option<seq<WordChar>>)
    ensures Unquoted(ShellEscape(s) + rest, word) == Unquoted(rest, Some(Chars(word) + Quoted(s)))
    ensures Unquoted(ShellQuote(s) + rest, word) == Unquoted(rest, Some(Chars(word) + Quoted(s)))
  {
    ShellQuoteForm(s);
    OpenedReads(s, BACKSLASHED, rest, word);
    OpenedReads(s, DOUBLE_QUOTED, rest, word);
  }

  lemma PlainQuoted(s: string)
    ensures Plain(Quoted(s)) == s && Plain(Bare(s)) == s
  {
  }

  lemma {:induction false} ReplaceKeeps(s: string, by_: string, c: char)
    requires c != '\'' && c !in by_
    ensures c in ReplaceQuotes(s, by_) <==> c in s
  {
    if s != [] {
      ReplaceKeeps(s[1..], by_, c);
      assert s == [s[0]] + s[1..];
    }
  }

  /** Neither escaper adds or drops a NUL. */
  lemma EscapersKeepNul(s: string)
    ensures '\0' in ShellEscape(s) <==> '\0' in s
    ensures '\0' in ShellQuote(s) <==> '\0' in s
  {
    ReplaceKeeps(s, BACKSLASHED, '\0');
    ReplaceKeeps(s, DOUBLE_QUOTED, '\0');
  }

  /** Escaped on its own, a string without NUL is one word that stands for it. */
  lemma EscapersAgree(s: string)
    requires '\0' !in s
    ensures Lex(ShellEscape(s)) == Lex(ShellQuote(s)) == Some([Word(Quoted(s))])
  {
    EscapersKeepNul(s);
    EscapersRead(s, "", None);
    assert ShellEscape(s) + "" == ShellEscape(s) && ShellQuote(s) + "" == ShellQuote(s);
    assert [] + Quoted(s) == Quoted(s);
  }
}
