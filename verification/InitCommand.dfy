/**
 cmd/mergen-init-snapshot/main.go: the command lines tried for the main process, and its environment.
 */
module InitCommand {
  import opened Text
  import opened Sorting
  import opened Shell

  // ----- command lines

  function QuoteAll(argv: seq<string>): seq<string> {
    seq(|argv|, i requires 0 <= i < |argv| => ShellQuote(argv[i]))
  }

  function CommandLine(argv: seq<string>): string {
    Join(QuoteAll(argv), " ")
  }

  /** shellCommandLine */
  method ShellCommandLine(argv: seq<string>) returns (line: string)
    ensures line == CommandLine(argv)
  {
    if |argv| == 0 {
      assert QuoteAll(argv) == [];
      return "";
    }
    var quoted: seq<string> := [];
    for i := 0 to |argv|
      invariant quoted == QuoteAll(argv)[..i]
    {
      quoted := quoted + [ShellQuote(argv[i])];
    }
    assert quoted == QuoteAll(argv);
    line := Join(quoted, " ");
  }

  predicate NulFree(argv: seq<string>) {
    forall i :: 0 <= i < |argv| ==> '\0' !in argv[i]
  }

  lemma NotAssignment(s: string)
    ensures Assignment(Quoted(s)) == None
  {
  }

  function QuotedWords(argv: seq<string>): seq<Token> {
    seq(|argv|, i requires 0 <= i < |argv| => Word(Quoted(argv[i])))
  }

  lemma QuotedWordsCons(argv: seq<string>)
    requires argv != []
    ensures QuotedWords(argv) == [Word(Quoted(argv[0]))] + QuotedWords(argv[1..])
    ensures QuoteAll(argv) == [ShellQuote(argv[0])] + QuoteAll(argv[1..])
    ensures |argv| > 1 ==> CommandLine(argv) == ShellQuote(argv[0]) + (" " + CommandLine(argv[1..]))
  {
    assert QuoteAll(argv)[1..] == QuoteAll(argv[1..]);
  }

  lemma {:induction false} CommandLineTokens(argv: seq<string>)
    ensures Unquoted(CommandLine(argv), None) == Some(QuotedWords(argv))
  {
    if argv == [] {
      assert QuoteAll(argv) == [] && QuotedWords(argv) == [];
    } else {
      var first, tail := argv[0], argv[1..];
      assert [] + Quoted(first) == Quoted(first);
      QuotedWordsCons(argv);
      if tail == [] {
        EscapersRead(first, "", None);
        assert QuoteAll(argv) == [ShellQuote(first)] && QuotedWords(argv) == [Word(Quoted(first))];
        assert ShellQuote(first) + "" == CommandLine(argv);
      } else {
        var rest := " " + CommandLine(tail);
        EscapersRead(first, rest, None);
        CommandLineTokens(tail);
        assert rest[1..] == CommandLine(tail);
        assert Unquoted(rest, Some(Quoted(first))) == Then([Word(Quoted(first))], Unquoted(CommandLine(tail), None));
      }
    }
  }

  lemma {:induction false} QuotedWordValues(argv: seq<string>)
    ensures WordValues(QuotedWords(argv)) == Some(argv)
  {
    if argv != [] {
      QuotedWordsCons(argv);
      QuotedWordValues(argv[1..]);
      assert QuotedWords(argv)[1..] == QuotedWords(argv[1..]);
      NotAssignment(argv[0]);
      PlainQuoted(argv[0]);
      assert argv == [argv[0]] + argv[1..];
    }
  }

  lemma {:induction false} CommandLineNul(argv: seq<string>)
    ensures '\0' !in CommandLine(argv) <==> NulFree(argv)
  {
    if argv != [] {
      EscapersKeepNul(argv[0]);
      CommandLineNul(argv[1..]);
      assert NulFree(argv) <==> '\0' !in argv[0] && NulFree(argv[1..]) by {
        assert argv == [argv[0]] + argv[1..];
        if NulFree(argv) {
          forall i | 0 <= i < |argv[1..]| ensures '\0' !in argv[1..][i] { assert argv[1..][i] == argv[i + 1]; }
        }
      }
      QuotedWordsCons(argv);
    }
  }

  /**
   The shell reads the command line back as exactly the arguments (empty ones, quotes, blanks and
   newlines included), for every argument list a shell can be given: those without NUL.
   */
  lemma CommandLineReadsBack(argv: seq<string>)
    ensures Arguments(CommandLine(argv)) == Some(argv) <==> NulFree(argv)
  {
    CommandLineTokens(argv);
    QuotedWordValues(argv);
    CommandLineNul(argv);
  }

  /** equalStringSlices */
  method EqualStringSlices(a: seq<string>, b: seq<string>) returns (equal: bool)
    ensures equal <==> a == b
  {
    if |a| != |b| { return false; }
    for i := 0 to |a|
      invariant a[..i] == b[..i]
    {
      if a[i] != b[i] { return false; }
    }
    return true;
  }

  lemma {:induction false} ReplaceLonger(s: string, by_: string)
    requires by_ != []
    ensures |ReplaceQuotes(s, by_)| >= |s|
  {
    if s != [] { ReplaceLonger(s[1..], by_); }
  }

  /** The command line is longer than any argument in it. */
  lemma {:induction false} CommandLineLonger(argv: seq<string>, i: nat)
    requires i < |argv|
    ensures |CommandLine(argv)| > |argv[i]|
  {
    ReplaceLonger(argv[0], DOUBLE_QUOTED);
    assert QuoteAll(argv)[1..] == QuoteAll(argv[1..]);
    if i > 0 {
      CommandLineLonger(argv[1..], i - 1);
    }
  }

  /**
   commandCandidates: always the command itself and then its rendering for a shell; the two tests
   that would drop the second never succeed.
   */
  method CommandCandidates(argv: seq<string>) returns (r: seq<seq<string>>)
    ensures var primary := if argv == [] then ["/bin/sh"] else argv;
      r == [primary, ["/bin/sh", "-lc", CommandLine(primary)]]
  {
    var primary := if |argv| == 0 then ["/bin/sh"] else argv;
    r := [primary];
    var shellLine := ShellCommandLine(primary);
    CommandLineLonger(primary, 0);
    if shellLine == "" { return; }
    var fallback := ["/bin/sh", "-lc", shellLine];
    if |primary| == 3 { CommandLineLonger(primary, 2); }
    var same := EqualStringSlices(primary, fallback);
    if !same {
      r := r + [fallback];
    }
  }

  // ----- environment lists

  /** Position of the first '=', or the length. */
  function EqualsIndex(s: string): (n: nat)
    ensures n <= |s| && '=' !in s[..n] && (n < |s| ==> s[n] == '=')
  {
    if s == [] || s[0] == '=' then 0
    else
      assert s[..1 + EqualsIndex(s[1..])] == [s[0]] + s[1..][..EqualsIndex(s[1..])];
      1 + EqualsIndex(s[1..])
  }

  /** One "KEY=VALUE" item; anything else is dropped. */
  function ParseItem(item: string): Option<(string, string)> {
    var n := EqualsIndex(item);
    if n == |item| then None
    else if Trim(item[..n]) == "" then None
    else Some((Trim(item[..n]), item[n + 1..]))
  }

  /** An item is split at its first '='; the key is trimmed, the value is not; without a key or a '=' it is dropped. */
  lemma ItemReads(before: string, value: string)
    requires '=' !in before
    ensures ParseItem(before) == None
    ensures ParseItem(before + "=" + value) == if Blank(before) then None else Some((Trim(before), value))
  {
    EqualsIndexOf(before, value);
    var item := before + "=" + value;
    assert item[..|before|] == before && item[|before| + 1..] == value;
    BlankTrims(before);
    assert EqualsIndex(before) == |before|;
  }

  function Parsed(items: seq<string>): map<string, string> {
    if items == [] then map[]
    else
      var m := Parsed(items[..|items| - 1]);
      match ParseItem(items[|items| - 1])
      case None => m
      case Some((k, v)) => m[k := v]
  }

  /** parseEnvList */
  method ParseEnvList(envs: seq<string>) returns (out: map<string, string>)
    ensures out == Parsed(envs)
  {
    out := map[];
    for i := 0 to |envs|
      invariant out == Parsed(envs[..i])
    {
      var item := envs[i];
      assert envs[..i + 1][..i] == envs[..i];
      if item == "" { continue; }
      var n := EqualsIndex(item);
      if n == |item| { continue; }
      var key := Trim(item[..n]);
      if key == "" { continue; }
      out := out[key := item[n + 1..]];
    }
    assert envs[..|envs|] == envs;
  }

  function Items(env: map<string, string>, keys: seq<string>): seq<string>
    requires forall i :: 0 <= i < |keys| ==> keys[i] in env
  {
    seq(|keys|, i requires 0 <= i < |keys| => keys[i] + "=" + env[keys[i]])
  }

  ghost function Printed(env: map<string, string>): seq<string> {
    SortedKeysOf(env.Keys, Listed(env.Keys));
    Items(env, SortedKeys(env.Keys))
  }

  /** envMapToList: the map is walked in whatever order the runtime picks. */
  method EnvMapToList(env: map<string, string>) returns (out: seq<string>)
    ensures out == Printed(env)
  {
    var keys := CollectKeys(env.Keys);
    SortedKeysOf(env.Keys, keys);
    out := PrintItems(env, Sort(StringLess, keys));
  }

  method PrintItems(env: map<string, string>, keys: seq<string>) returns (out: seq<string>)
    requires forall i :: 0 <= i < |keys| ==> keys[i] in env
    ensures out == Items(env, keys)
  {
    out := [];
    for i := 0 to |keys|
      invariant out == Items(env, keys)[..i]
    {
      out := out + [keys[i] + "=" + env[keys[i]]];
    }
  }

  /** A key that survives printing and parsing. */
  predicate IsCleanKey(k: string) {
    k != "" && Trimmed(k) && '=' !in k
  }

  lemma {:induction false} EqualsIndexOf(k: string, v: string)
    requires '=' !in k
    ensures EqualsIndex(k + "=" + v) == |k|
  {
    if k != [] {
      assert (k + "=" + v)[1..] == k[1..] + "=" + v;
      EqualsIndexOf(k[1..], v);
    }
  }

  lemma ParsePrinted(k: string, v: string)
    requires IsCleanKey(k)
    ensures ParseItem(k + "=" + v) == Some((k, v))
  {
    EqualsIndexOf(k, v);
    TrimTrims(k);
    assert (k + "=" + v)[..|k|] == k && (k + "=" + v)[|k| + 1..] == v;
  }

  lemma {:induction false} TrimSubset(s: string, c: char)
    ensures c in Trim(s) ==> c in s
  {
    TrimLeftSubset(s, c);
    TrimRightTrims(TrimLeft(s));
  }

  lemma {:induction false} TrimLeftSubset(s: string, c: char)
    ensures c in TrimLeft(s) ==> c in s
  {
    if s != [] && IsSpace(s[0]) { TrimLeftSubset(s[1..], c); }
  }

  /** Whatever the input, parsing yields clean keys only. */
  lemma {:induction false} ParsedKeysClean(items: seq<string>)
    ensures forall k :: k in Parsed(items) ==> IsCleanKey(k)
  {
    if items != [] {
      ParsedKeysClean(items[..|items| - 1]);
      var item := items[|items| - 1];
      var raw := item[..EqualsIndex(item)];
      TrimTrims(raw);
      TrimSubset(raw, '=');
    }
  }

  lemma {:induction false} ParsedItems(env: map<string, string>, keys: seq<string>, n: nat)
    requires n <= |keys| && forall i :: 0 <= i < |keys| ==> keys[i] in env && IsCleanKey(keys[i])
    ensures Parsed(Items(env, keys)[..n]) == map k | k in env && k in keys[..n] :: env[k]
  {
    if n > 0 {
      ParsedItems(env, keys, n - 1);
      assert Items(env, keys)[..n][..n - 1] == Items(env, keys)[..n - 1];
      ParsePrinted(keys[n - 1], env[keys[n - 1]]);
      assert keys[..n] == keys[..n - 1] + [keys[n - 1]];
    }
  }

  lemma AllItemsParsed(env: map<string, string>, keys: seq<string>)
    requires forall k :: k in keys <==> k in env
    requires forall k :: k in env ==> IsCleanKey(k)
    ensures Parsed(Items(env, keys)) == env
  {
    assert forall i :: 0 <= i < |keys| ==> keys[i] in keys;
    ParsedItems(env, keys, |keys|);
    assert keys[..|keys|] == keys && Items(env, keys)[..|keys|] == Items(env, keys);
  }

  lemma CleanParsesBack(env: map<string, string>)
    requires forall k :: k in env ==> IsCleanKey(k)
    ensures Parsed(Printed(env)) == env
  {
    SortedKeysOf(env.Keys, Listed(env.Keys));
    AllItemsParsed(env, SortedKeys(env.Keys));
  }

  /** Printing then parsing gives the map back exactly when all its keys are clean. */
  lemma PrintedParsesBack(env: map<string, string>)
    ensures Parsed(Printed(env)) == env <==> forall k :: k in env ==> IsCleanKey(k)
  {
    if forall k :: k in env ==> IsCleanKey(k) {
      CleanParsesBack(env);
    } else {
      ParsedKeysClean(Printed(env));
    }
  }

  /** So every environment that came from a list survives, and its printed form is fixed. */
  lemma ParsedSurvives(items: seq<string>)
    ensures Parsed(Printed(Parsed(items))) == Parsed(items)
  {
    ParsedKeysClean(items);
    PrintedParsesBack(Parsed(items));
  }

  /** Item `i` is the last one that sets `k`. */
  ghost predicate SetsLast(items: seq<string>, i: nat, k: string) {
    SetsKey(items, i, k) && forall j: nat :: i < j ==> !SetsKey(items, j, k)
  }

  ghost predicate SetsKey(items: seq<string>, i: nat, k: string) {
    i < |items| && ParseItem(items[i]).Some? && ParseItem(items[i]).value.0 == k
  }

  /** The last well-formed item for a key decides its value. */
  lemma {:induction false} LastItemWins(items: seq<string>, i: nat, k: string)
    requires SetsLast(items, i, k)
    ensures k in Parsed(items) && Parsed(items)[k] == ParseItem(items[i]).value.1
    decreases |items|
  {
    var n: nat := |items| - 1;
    if i < n {
      var front := items[..n];
      assert front[i] == items[i] && !SetsKey(items, n, k);
      assert forall j: nat :: SetsKey(front, j, k) ==> SetsKey(items, j, k);
      LastItemWins(front, i, k);
    }
  }

  /** A key that no well-formed item sets is not there. */
  lemma {:induction false} UnsetIsAbsent(items: seq<string>, k: string)
    requires forall i: nat :: !SetsKey(items, i, k)
    ensures k !in Parsed(items)
  {
    if items != [] {
      var n: nat := |items| - 1;
      assert !SetsKey(items, n, k);
      assert forall j: nat :: SetsKey(items[..n], j, k) ==> SetsKey(items, j, k);
      UnsetIsAbsent(items[..n], k);
    }
  }
}
