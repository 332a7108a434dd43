/**
 internal/store/fs_store.go, writeEnvAtomic: the environment file of a VM, and what a script that
 sources it ends up with.
 */
module EnvFile {
  import opened Text
  import opened Sorting
  import opened Shell

  function Line(key: string, value: string): string {
    key + "=" + ShellEscape(value)
  }

  function Lines(env: map<string, string>, keys: seq<string>): seq<string>
    requires forall i :: 0 <= i < |keys| ==> keys[i] in env
  {
    seq(|keys|, i requires 0 <= i < |keys| => Line(keys[i], env[keys[i]]))
  }

  function Content(env: map<string, string>, keys: seq<string>): string
    requires forall i :: 0 <= i < |keys| ==> keys[i] in env
  {
    Join(Lines(env, keys), "\n") + "\n"
  }

  /** The keys in byte order. */
  ghost function KeysOf(env: map<string, string>): (keys: seq<string>)
    ensures forall k :: k in keys <==> k in env
    ensures forall i, j :: 0 <= i < j < |keys| ==> StringLess(keys[i], keys[j])
  {
    SortedKeysOf(env.Keys, Listed(env.Keys));
    SortedKeys(env.Keys)
  }

  /** The content of the file: one line per key, in byte order. */
  ghost function EnvText(env: map<string, string>): string {
    Content(env, KeysOf(env))
  }

  method RenderLines(env: map<string, string>, keys: seq<string>) returns (lines: seq<string>)
    requires forall i :: 0 <= i < |keys| ==> keys[i] in env
    ensures lines == Lines(env, keys)
  {
    lines := [];
    for i := 0 to |keys|
      invariant lines == Lines(env, keys)[..i]
    {
      lines := lines + [Line(keys[i], env[keys[i]])];
    }
  }

  /** The content does not depend on the order in which the map's keys are met. */
  method RenderEnv(env: map<string, string>) returns (content: string)
    ensures content == EnvText(env)
  {
    var keys := CollectKeys(env.Keys);
    SortedKeysOf(env.Keys, keys);
    var lines := RenderLines(env, Sort(StringLess, keys));
    content := Join(lines, "\n") + "\n";
  }

  // ----- sourcing the file

  /** The assignments of a text that holds nothing else. */
  function Assignments(tokens: seq<Token>): Option<seq<(string, string)>> {
    if tokens == [] then Some([])
    else if tokens[0].Newline? then Assignments(tokens[1..])
    else match (Assignment(tokens[0].chars), Assignments(tokens[1..]))
      case (Some(a), Some(rest)) => Some([a] + rest)
      case _ => None
  }

  /** The variables after the assignments, in order. */
  function Assigned(list: seq<(string, string)>): map<string, string> {
    if list == [] then map[]
    else Assigned(list[..|list| - 1])[list[|list| - 1].0 := list[|list| - 1].1]
  }

  /** The variables a script has after sourcing the text, when the text is assignments only. */
  function Sourced(text: string): Option<map<string, string>> {
    match Lex(text)
    case None => None
    case Some(tokens) =>
      match Assignments(tokens)
      case None => None
      case Some(list) => Some(Assigned(list))
  }

  predicate Shellable(env: map<string, string>) {
    forall k :: k in env ==> IsName(k) && '\0' !in env[k]
  }

  lemma {:induction false} BareReads(s: string, rest: string, word: Option<seq<WordChar>>)
    requires forall i :: 0 <= i < |s| ==> IsNameChar(s[i])
    requires s != []
    ensures Unquoted(s + rest, word) == Unquoted(rest, Some(Chars(word) + Bare(s)))
  {
    assert (s + rest)[1..] == s[1..] + rest;
    var more := Add(word, s[0], false);
    if |s| == 1 {
      assert s[1..] + rest == rest;
      assert Chars(word) + Bare(s) == Chars(more);
    } else {
      BareReads(s[1..], rest, more);
      assert Chars(more) + Bare(s[1..]) == Chars(word) + Bare(s);
    }
  }

  function LineWord(key: string, value: string): seq<WordChar> {
    Bare(key) + [WordChar('=', false)] + Quoted(value)
  }

  lemma NameReads(key: string, more: string)
    requires IsName(key)
    ensures Unquoted(key + "=" + more, None) == Unquoted(more, Some(Bare(key) + [WordChar('=', false)]))
  {
    var after := "=" + more;
    assert key + "=" + more == key + after && after[1..] == more;
    BareReads(key, after, None);
    assert Chars(None) + Bare(key) == Bare(key);
  }

  lemma ValueReads(front: seq<WordChar>, value: string, rest: string)
    ensures Unquoted(ShellEscape(value) + ("\n" + rest), Some(front))
         == Then([Word(front + Quoted(value)), Newline], Unquoted(rest, None))
  {
    var tail, w := "\n" + rest, front + Quoted(value);
    EscapersRead(value, tail, Some(front));
    assert tail[1..] == rest;
    assert [Word(w)] + [Newline] == [Word(w), Newline];
  }

  lemma LineReads(key: string, value: string, rest: string)
    requires IsName(key)
    ensures Unquoted(Line(key, value) + "\n" + rest, None) == Then([Word(LineWord(key, value)), Newline], Unquoted(rest, None))
  {
    var more := ShellEscape(value) + ("\n" + rest);
    assert Line(key, value) + "\n" + rest == key + "=" + more;
    NameReads(key, more);
    ValueReads(Bare(key) + [WordChar('=', false)], value, rest);
  }

  lemma {:induction false} EqualsAtSplit(front: seq<WordChar>, back: seq<WordChar>)
    requires forall i :: 0 <= i < |front| ==> front[i] != WordChar('=', false)
    ensures EqualsAt(front + [WordChar('=', false)] + back) == |front|
  {
    if front != [] {
      assert (front + [WordChar('=', false)] + back)[1..] == front[1..] + [WordChar('=', false)] + back;
      EqualsAtSplit(front[1..], back);
    }
  }

  lemma LineAssigns(key: string, value: string)
    requires IsName(key)
    ensures Assignment(LineWord(key, value)) == Some((key, value))
  {
    EqualsAtSplit(Bare(key), Quoted(value));
    var w := LineWord(key, value);
    assert w[..|key|] == Bare(key) && w[|key| + 1..] == Quoted(value);
    PlainQuoted(key);
    PlainQuoted(value);
  }

  /** Lines, each with its newline. */
  function Terminated(lines: seq<string>): string {
    if lines == [] then "" else lines[0] + "\n" + Terminated(lines[1..])
  }

  lemma {:induction false} JoinTerminates(lines: seq<string>)
    requires lines != []
    ensures Join(lines, "\n") + "\n" == Terminated(lines)
  {
    if |lines| > 1 {
      JoinTerminates(lines[1..]);
      assert Join(lines, "\n") + "\n" == lines[0] + "\n" + (Join(lines[1..], "\n") + "\n");
    } else {
      assert Terminated(lines[1..]) == "";
    }
  }

  function Pairs(env: map<string, string>, keys: seq<string>): seq<(string, string)>
    requires forall i :: 0 <= i < |keys| ==> keys[i] in env
  {
    seq(|keys|, i requires 0 <= i < |keys| => (keys[i], env[keys[i]]))
  }

  /** The lines read as the assignments they were made from. */
  lemma {:induction false} LinesAssign(env: map<string, string>, keys: seq<string>)
    requires forall i :: 0 <= i < |keys| ==> keys[i] in env && IsName(keys[i])
    ensures var t := Unquoted(Terminated(Lines(env, keys)), None);
      t.Some? && Assignments(t.value) == Some(Pairs(env, keys))
  {
    if keys != [] {
      var k, v, tail := keys[0], env[keys[0]], keys[1..];
      LinesAssign(env, tail);
      FirstLine(env, keys);
      LineOnTop(k, v, Terminated(Lines(env, tail)));
    } else {
      assert Lines(env, keys) == [] && Pairs(env, keys) == [];
    }
  }

  /** One line in front of a text of assignments: one assignment more. */
  lemma LineOnTop(k: string, v: string, text: string)
    requires IsName(k) && Unquoted(text, None).Some? && Assignments(Unquoted(text, None).value).Some?
    ensures var t := Unquoted(Line(k, v) + "\n" + text, None);
      t.Some? && Assignments(t.value) == Some([(k, v)] + Assignments(Unquoted(text, None).value).value)
  {
    LineReads(k, v, text);
    LineAssigns(k, v);
    LineThen(LineWord(k, v), (k, v), Unquoted(text, None).value);
  }

  lemma FirstLine(env: map<string, string>, keys: seq<string>)
    requires keys != [] && forall i :: 0 <= i < |keys| ==> keys[i] in env
    ensures Terminated(Lines(env, keys)) == Line(keys[0], env[keys[0]]) + "\n" + Terminated(Lines(env, keys[1..]))
    ensures Pairs(env, keys) == [(keys[0], env[keys[0]])] + Pairs(env, keys[1..])
  {
    assert Lines(env, keys)[1..] == Lines(env, keys[1..]);
  }

  /** A line's word and its newline before other tokens: one assignment more. */
  lemma LineThen(w: seq<WordChar>, a: (string, string), rest: seq<Token>)
    requires Assignment(w) == Some(a) && Assignments(rest).Some?
    ensures Assignments([Word(w), Newline] + rest) == Some([a] + Assignments(rest).value)
  {
    var tokens := [Word(w), Newline] + rest;
    assert tokens[1..] == [Newline] + rest && tokens[1..][1..] == rest;
  }

  lemma {:induction false} PairsAssigned(env: map<string, string>, keys: seq<string>, n: nat)
    requires n <= |keys| && forall i :: 0 <= i < |keys| ==> keys[i] in env
    ensures Assigned(Pairs(env, keys)[..n]) == map k | k in env && k in keys[..n] :: env[k]
  {
    if n > 0 {
      PairsAssigned(env, keys, n - 1);
      assert Pairs(env, keys)[..n][..n - 1] == Pairs(env, keys)[..n - 1];
      assert keys[..n] == keys[..n - 1] + [keys[n - 1]];
    }
  }

  lemma {:induction false} TerminatedNul(env: map<string, string>, keys: seq<string>)
    requires forall i :: 0 <= i < |keys| ==> keys[i] in env
    ensures '\0' in Terminated(Lines(env, keys)) <==> exists i :: 0 <= i < |keys| && ('\0' in keys[i] || '\0' in env[keys[i]])
  {
    if keys != [] {
      var tail := keys[1..];
      TerminatedNul(env, tail);
      EscapersKeepNul(env[keys[0]]);
      assert Lines(env, keys)[1..] == Lines(env, tail);
      assert '\0' in Terminated(Lines(env, keys)) <==>
        '\0' in keys[0] || '\0' in env[keys[0]] || '\0' in Terminated(Lines(env, tail));
      if i :| 0 <= i < |tail| && ('\0' in tail[i] || '\0' in env[tail[i]]) {
        assert keys[i + 1] == tail[i];
      }
      if i :| 0 <= i < |keys| && ('\0' in keys[i] || '\0' in env[keys[i]]) {
        if i > 0 { assert tail[i - 1] == keys[i]; }
      }
    }
  }

  /** Only shell names can be assigned to. */
  lemma {:induction false} AssignedNames(tokens: seq<Token>)
    ensures Assignments(tokens).Some? ==>
      forall i :: 0 <= i < |Assignments(tokens).value| ==> IsName(Assignments(tokens).value[i].0)
  {
    if tokens != [] { AssignedNames(tokens[1..]); }
  }

  lemma {:induction false} AssignedKeys(list: seq<(string, string)>)
    ensures forall k :: k in Assigned(list) ==> exists i :: 0 <= i < |list| && list[i].0 == k
  {
    if list != [] {
      var front := list[..|list| - 1];
      AssignedKeys(front);
      forall k | k in Assigned(list) ensures exists i :: 0 <= i < |list| && list[i].0 == k {
        if k == list[|list| - 1].0 {
        } else {
          assert k in Assigned(front);
          var i :| 0 <= i < |front| && front[i].0 == k;
          assert list[i].0 == k;
        }
      }
    }
  }

  lemma EnvTextLines(env: map<string, string>)
    requires env != map[]
    ensures EnvText(env) == Terminated(Lines(env, KeysOf(env)))
  {
    var k :| k in env;
    assert k in KeysOf(env);
    JoinTerminates(Lines(env, KeysOf(env)));
  }

  lemma EnvTextNul(env: map<string, string>)
    requires env != map[]
    ensures '\0' in EnvText(env) <==> exists k :: k in env && ('\0' in k || '\0' in env[k])
  {
    var keys := KeysOf(env);
    EnvTextLines(env);
    TerminatedNul(env, keys);
    if k :| k in env && ('\0' in k || '\0' in env[k]) {
      assert k in keys;
      var i :| 0 <= i < |keys| && keys[i] == k;
    }
  }

  lemma AllPairsAssigned(env: map<string, string>, keys: seq<string>)
    requires forall k :: k in keys <==> k in env
    ensures forall i :: 0 <= i < |keys| ==> keys[i] in env
    ensures Assigned(Pairs(env, keys)) == env
  {
    assert forall i :: 0 <= i < |keys| ==> keys[i] in keys;
    PairsAssigned(env, keys, |keys|);
    assert Pairs(env, keys)[..|keys|] == Pairs(env, keys) && keys[..|keys|] == keys;
  }

  lemma ShellableSourcesBack(env: map<string, string>)
    requires env != map[] && Shellable(env)
    ensures Sourced(EnvText(env)) == Some(env)
  {
    forall k | k in env ensures '\0' !in k { NamesHoldNoNul(k); }
    EnvTextNul(env);
    EnvTextLines(env);
    LinesAssign(env, KeysOf(env));
    AllPairsAssigned(env, KeysOf(env));
  }

  /**
   Sourcing the file gives back exactly the map when every key is a shell name and no value holds
   NUL, and in no other case.  The daemon writes the file only for a map that is not empty.
   */
  lemma EnvTextSourcesBack(env: map<string, string>)
    requires env != map[]
    ensures Sourced(EnvText(env)) == Some(env) <==> Shellable(env)
  {
    EnvTextNul(env);
    if Shellable(env) {
      ShellableSourcesBack(env);
    }
    if Sourced(EnvText(env)) == Some(env) {
      var list := Assignments(Lex(EnvText(env)).value).value;
      AssignedNames(Lex(EnvText(env)).value);
      AssignedKeys(list);
      forall k | k in env ensures IsName(k) {
        assert k in Assigned(list);
      }
    }
  }

  lemma NamesHoldNoNul(k: string)
    requires IsName(k)
    ensures '\0' !in k
  {
  }
}
