/**
 The parts of Go's strings package the program leans on.  Case mapping covers ASCII letters only.
 */
module Text {

  datatype Option<+T> = None | Some(value: T)
  datatype Result<+T, +E> = Ok(value: T) | Err(error: E)

  // ----- white space and case

  /** unicode.IsSpace */
  predicate IsSpace(c: char) {
    || '\t' <= c <= '\r'
    || c == ' '
    || c == '\U{0085}' || c == '\U{00A0}' || c == '\U{1680}'
    || '\U{2000}' <= c <= '\U{200A}'
    || c == '\U{2028}' || c == '\U{2029}' || c == '\U{202F}' || c == '\U{205F}' || c == '\U{3000}'
  }

  predicate SpaceFree(s: string) {
    forall i :: 0 <= i < |s| ==> !IsSpace(s[i])
  }

  function TrimLeft(s: string): string {
    if s != [] && IsSpace(s[0]) then TrimLeft(s[1..]) else s
  }

  function TrimRight(s: string): string {
    if s != [] && IsSpace(s[|s| - 1]) then TrimRight(s[..|s| - 1]) else s
  }

  /** strings.TrimSpace */
  function Trim(s: string): string {
    TrimRight(TrimLeft(s))
  }

  /** No white space at either end: what TrimSpace leaves alone. */
  predicate Trimmed(s: string) {
    s != [] ==> !IsSpace(s[0]) && !IsSpace(s[|s| - 1])
  }

  function LowerChar(c: char): char {
    if 'A' <= c <= 'Z' then c - 'A' + 'a' else c
  }

  /** strings.ToLower on ASCII */
  function Lower(s: string): (r: string)
    ensures |r| == |s| && forall i :: 0 <= i < |s| ==> r[i] == LowerChar(s[i])
  {
    seq(|s|, i requires 0 <= i < |s| => LowerChar(s[i]))
  }

  lemma {:induction false} TrimRightTrims(s: string)
    ensures TrimRight(s) <= s
    ensures TrimRight(s) != [] ==> !IsSpace(TrimRight(s)[|TrimRight(s)| - 1])
  {
    if s != [] && IsSpace(s[|s| - 1]) {
      TrimRightTrims(s[..|s| - 1]);
    }
  }

  lemma {:induction false} TrimLeftTrims(s: string)
    ensures TrimLeft(s) != [] ==> !IsSpace(TrimLeft(s)[0])
  {
    if s != [] && IsSpace(s[0]) {
      TrimLeftTrims(s[1..]);
    }
  }

  lemma TrimTrims(s: string)
    ensures Trimmed(Trim(s))
    ensures Trimmed(s) ==> Trim(s) == s
  {
    TrimLeftTrims(s);
    TrimRightTrims(TrimLeft(s));
  }

  /** All white space. */
  predicate Blank(s: string) {
    forall i :: 0 <= i < |s| ==> IsSpace(s[i])
  }

  /** What TrimSpace takes away is white space at the two ends, and nothing else. */
  lemma {:induction false} TrimLeftParts(s: string)
    ensures exists pre :: Blank(pre) && s == pre + TrimLeft(s)
  {
    if s != [] && IsSpace(s[0]) {
      TrimLeftParts(s[1..]);
      var pre :| Blank(pre) && s[1..] == pre + TrimLeft(s[1..]);
      assert Blank([s[0]] + pre) && s == ([s[0]] + pre) + TrimLeft(s);
    } else {
      assert Blank("") && s == "" + TrimLeft(s);
    }
  }

  lemma {:induction false} TrimRightParts(s: string)
    ensures exists post :: Blank(post) && s == TrimRight(s) + post
  {
    if s != [] && IsSpace(s[|s| - 1]) {
      var front, last := s[..|s| - 1], s[|s| - 1];
      TrimRightParts(front);
      var post :| Blank(post) && front == TrimRight(front) + post;
      assert Blank(post + [last]) && s == TrimRight(s) + (post + [last]);
    } else {
      assert Blank("") && s == TrimRight(s) + "";
    }
  }

  lemma TrimParts(s: string)
    ensures exists pre, post :: Blank(pre) && Blank(post) && s == pre + Trim(s) + post
  {
    TrimLeftParts(s);
    TrimRightParts(TrimLeft(s));
    var pre :| Blank(pre) && s == pre + TrimLeft(s);
    var post :| Blank(post) && TrimLeft(s) == Trim(s) + post;
    assert s == pre + Trim(s) + post;
  }

  lemma {:induction false} TrimLeftSkips(pre: string, s: string)
    requires Blank(pre) && (s != [] ==> !IsSpace(s[0]))
    ensures TrimLeft(pre + s) == s
  {
    if pre == [] {
      assert pre + s == s;
    } else {
      assert (pre + s)[1..] == pre[1..] + s;
      TrimLeftSkips(pre[1..], s);
    }
  }

  lemma {:induction false} TrimRightSkips(s: string, post: string)
    requires Blank(post) && (s != [] ==> !IsSpace(s[|s| - 1]))
    ensures TrimRight(s + post) == s
  {
    if post == [] {
      assert s + post == s;
    } else {
      var front := post[..|post| - 1];
      assert (s + post)[..|s + post| - 1] == s + front;
      TrimRightSkips(s, front);
    }
  }

  lemma TrimSkips(pre: string, s: string, post: string)
    requires Blank(pre) && Blank(post) && s != "" && Trimmed(s)
    ensures Trim(pre + s + post) == s
  {
    assert pre + s + post == pre + (s + post);
    TrimLeftSkips(pre, s + post);
    TrimRightSkips(s, post);
  }

  lemma BlankTrims(s: string)
    ensures Trim(s) == "" <==> Blank(s)
  {
    TrimParts(s);
    var pre, post :| Blank(pre) && Blank(post) && s == pre + Trim(s) + post;
    if Blank(s) {
      TrimLeftSkips(s, "");
      assert s + "" == s;
    }
  }

  // ----- fields

  /** Length of the leading run of characters that are not white space. */
  function WordLength(s: string): (n: nat)
    ensures n <= |s| && SpaceFree(s[..n]) && (n < |s| ==> IsSpace(s[n]))
  {
    if s == [] || IsSpace(s[0]) then 0
    else
      var n := 1 + WordLength(s[1..]);
      assert forall i :: 1 <= i < n ==> s[..n][i] == s[1..][..n - 1][i - 1];
      n
  }

  /** strings.Fields */
  function Fields(s: string): seq<string>
    decreases |s|
  {
    if s == [] then []
    else if IsSpace(s[0]) then Fields(s[1..])
    else [s[..WordLength(s)]] + Fields(s[WordLength(s)..])
  }

  /** strings.Join */
  function Join(parts: seq<string>, sep: string): string {
    if parts == [] then ""
    else if |parts| == 1 then parts[0]
    else parts[0] + sep + Join(parts[1..], sep)
  }

  predicate IsToken(s: string) {
    s != [] && SpaceFree(s)
  }

  lemma {:induction false} FieldsAreTokens(s: string)
    ensures forall i :: 0 <= i < |Fields(s)| ==> IsToken(Fields(s)[i])
    decreases |s|
  {
    if s != [] {
      if IsSpace(s[0]) {
        FieldsAreTokens(s[1..]);
      } else {
        FieldsAreTokens(s[WordLength(s)..]);
      }
    }
  }

  lemma {:induction false} WordLengthToken(w: string, rest: string)
    requires SpaceFree(w) && (rest != [] ==> IsSpace(rest[0]))
    ensures WordLength(w + rest) == |w|
  {
    if w == [] {
      assert w + rest == rest;
    } else {
      assert (w + rest)[1..] == w[1..] + rest;
      WordLengthToken(w[1..], rest);
    }
  }

  lemma {:induction false} WordLengthAppend(a: string, b: string, c: string)
    requires c == a + b && (b != [] ==> IsSpace(b[0]))
    ensures WordLength(c) == WordLength(a)
    decreases |a|
  {
    if a != [] && !IsSpace(a[0]) {
      WordLengthAppend(a[1..], b, c[1..]);
    }
  }

  lemma SlicesOfBoth(a: string, b: string, c: string, n: nat)
    requires c == a + b && n <= |a|
    ensures c[..n] == a[..n] && c[n..] == a[n..] + b
  {
  }

  /** White space between two strings separates their fields. */
  lemma {:induction false} FieldsOfBoth(a: string, b: string, c: string)
    requires c == a + b && (b != [] ==> IsSpace(b[0]))
    ensures Fields(c) == Fields(a) + Fields(b)
    decreases |a|
  {
    if a == [] {
      assert c == b;
    } else if IsSpace(a[0]) {
      SlicesOfBoth(a, b, c, 1);
      FieldsOfBoth(a[1..], b, c[1..]);
    } else {
      var n := WordLength(a);
      WordLengthAppend(a, b, c);
      SlicesOfBoth(a, b, c, n);
      FieldsOfBoth(a[n..], b, c[n..]);
    }
  }

  lemma FieldsAppend(a: string, b: string)
    requires b != [] ==> IsSpace(b[0])
    ensures Fields(a + b) == Fields(a) + Fields(b)
  {
    FieldsOfBoth(a, b, a + b);
  }

  lemma FieldsOfToken(w: string)
    requires IsToken(w)
    ensures Fields(w) == [w]
  {
    WordLengthToken(w, "");
    assert w + "" == w;
    assert w[..|w|] == w && w[|w|..] == "";
  }

  lemma {:induction false} FieldsJoin(tokens: seq<string>)
    requires forall i :: 0 <= i < |tokens| ==> IsToken(tokens[i])
    ensures Fields(Join(tokens, " ")) == tokens
  {
    if |tokens| == 1 {
      FieldsOfToken(tokens[0]);
    } else if tokens != [] {
      var rest := Join(tokens[1..], " ");
      FieldsJoin(tokens[1..]);
      FieldsOfToken(tokens[0]);
      FieldsAppend(tokens[0], " " + rest);
      assert (" " + rest)[1..] == rest;
      assert Join(tokens, " ") == tokens[0] + (" " + rest);
    }
  }

  lemma {:induction false} FieldsTrimLeft(s: string)
    ensures Fields(TrimLeft(s)) == Fields(s)
  {
    if s != [] && IsSpace(s[0]) {
      FieldsTrimLeft(s[1..]);
    }
  }

  lemma {:induction false} FieldsTrimRight(s: string)
    ensures Fields(TrimRight(s)) == Fields(s)
  {
    if s != [] && IsSpace(s[|s| - 1]) {
      var t := s[..|s| - 1];
      assert s == t + [s[|s| - 1]];
      FieldsTrimRight(t);
      FieldsAppend(t, [s[|s| - 1]]);
    }
  }

  lemma FieldsTrim(s: string)
    ensures Fields(Trim(s)) == Fields(s)
  {
    FieldsTrimLeft(s);
    FieldsTrimRight(TrimLeft(s));
  }

  // ----- separators

  /** strings.Split for a one-character separator */
  function Split(s: string, sep: char): (parts: seq<string>)
    ensures |parts| >= 1
  {
    if s == [] then [""]
    else if s[0] == sep then [""] + Split(s[1..], sep)
    else
      var parts := Split(s[1..], sep);
      [[s[0]] + parts[0]] + parts[1..]
  }

  lemma {:induction false} SplitAppend(a: string, b: string, sep: char)
    requires sep !in a
    ensures Split(a + [sep] + b, sep) == [a] + Split(b, sep)
  {
    if a == [] {
      assert (a + [sep] + b)[1..] == b;
    } else {
      assert (a + [sep] + b)[1..] == a[1..] + [sep] + b;
      SplitAppend(a[1..], b, sep);
      assert a == [a[0]] + a[1..];
    }
  }

  lemma {:induction false} SplitNone(a: string, sep: char)
    requires sep !in a
    ensures Split(a, sep) == [a]
  {
    if a != [] {
      SplitNone(a[1..], sep);
      assert a == [a[0]] + a[1..];
    }
  }

  lemma {:induction false} JoinSplit(s: string, sep: char)
    ensures Join(Split(s, sep), [sep]) == s
    ensures forall i :: 0 <= i < |Split(s, sep)| ==> sep !in Split(s, sep)[i]
  {
    if s != [] {
      var parts := Split(s[1..], sep);
      JoinSplit(s[1..], sep);
      if s[0] == sep {
        assert ([""] + parts)[1..] == parts;
        assert Join([""] + parts, [sep]) == "" + [sep] + Join(parts, [sep]);
      } else {
        assert ([[s[0]] + parts[0]] + parts[1..])[1..] == parts[1..];
      }
    }
  }

  // ----- decimal numbers

  predicate IsDigit(c: char) {
    '0' <= c <= '9'
  }

  predicate AllDigits(s: string) {
    forall i :: 0 <= i < |s| ==> IsDigit(s[i])
  }

  function DigitChar(d: nat): (c: char)
    requires d < 10
    ensures IsDigit(c) && (c - '0') as int == d
  {
    '0' + d as char
  }

  /** fmt's %d for a number that is not negative */
  function Decimal(n: nat): string {
    if n < 10 then [DigitChar(n)] else Decimal(n / 10) + [DigitChar(n % 10)]
  }

  function DigitsValue(s: string): nat
    requires AllDigits(s)
  {
    if s == [] then 0 else DigitsValue(s[..|s| - 1]) * 10 + (s[|s| - 1] - '0') as int
  }

  /** What %d prints: digits, and no leading zero on a longer number. */
  predicate IsDecimal(s: string) {
    s != [] && AllDigits(s) && (|s| > 1 ==> s[0] != '0')
  }

  lemma {:induction false} DecimalReads(n: nat)
    ensures IsDecimal(Decimal(n)) && DigitsValue(Decimal(n)) == n
    ensures n > 0 ==> Decimal(n)[0] != '0'
  {
    if n >= 10 {
      DecimalReads(n / 10);
      assert Decimal(n)[..|Decimal(n)| - 1] == Decimal(n / 10);
    }
  }

  lemma {:induction false} DecimalPrints(s: string)
    requires IsDecimal(s)
    ensures Decimal(DigitsValue(s)) == s
    ensures s[0] != '0' ==> DigitsValue(s) > 0
  {
    var init, last := s[..|s| - 1], (s[|s| - 1] - '0') as int;
    assert s == init + [s[|s| - 1]];
    if init != [] {
      DecimalPrints(init);
      var v := DigitsValue(init);
      assert (v * 10 + last) / 10 == v && (v * 10 + last) % 10 == last;
    }
  }
}
