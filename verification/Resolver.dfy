/**
 internal/forwarder/resolver.go: the index from server-name labels to VMs.
 */
module Resolver {
  import opened Text
  import opened Sorting
  import opened Model
  import opened FirstWins

  // ----- order of VMs

  /** Creation time, with missing times last, then id. */
  predicate MetaLess(a: VmMeta, b: VmMeta) {
    if a.createdAt == ZERO_TIME && b.createdAt == ZERO_TIME then StringLess(a.id, b.id)
    else if a.createdAt == ZERO_TIME then false
    else if b.createdAt == ZERO_TIME then true
    else if a.createdAt == b.createdAt then StringLess(a.id, b.id)
    else a.createdAt < b.createdAt
  }

  lemma MetaOrder()
    ensures StrictWeakOrder(MetaLess)
    ensures forall a, b :: Tied(MetaLess, a, b) <==> a.createdAt == b.createdAt && a.id == b.id
  {
    forall a, b
      ensures MetaLess(a, b) ==> !MetaLess(b, a)
      ensures Tied(MetaLess, a, b) <==> a.createdAt == b.createdAt && a.id == b.id
    {
      StringLessAsymmetric(a.id, b.id);
    }
    forall a, b, c ensures !MetaLess(b, a) && !MetaLess(c, b) ==> !MetaLess(c, a) {
      StringNotLessTransitive(a.id, b.id, c.id);
    }
  }

  function InOrder(metas: seq<VmMeta>): seq<VmMeta> {
    Sort(MetaLess, metas)
  }

  lemma Without<T>(s: seq<T>, a: T) returns (t: seq<T>)
    requires a in s
    ensures multiset(s) == multiset(t) + multiset{a}
  {
    var i :| 0 <= i < |s| && s[i] == a;
    t := s[..i] + s[i + 1..];
    assert s == s[..i] + [a] + s[i + 1..];
  }

  lemma Others<T>(s: seq<T>, a: T, b: T) returns (rest: seq<T>)
    requires a in s && b in s && a != b
    ensures multiset([a, b] + rest) == multiset(s)
  {
    var t := Without(s, a);
    assert b in multiset(s);
    assert b in multiset(t);
    rest := Without(t, b);
    assert [a, b] + rest == [a] + ([b] + rest);
  }

  ghost predicate OrderIrrelevant(metas: seq<VmMeta>) {
    forall listing :: multiset(listing) == multiset(metas) ==> InOrder(listing) == InOrder(metas)
  }

  lemma IrrelevantThenEqual(metas: seq<VmMeta>, a: VmMeta, b: VmMeta)
    requires OrderIrrelevant(metas) && a in metas && b in metas && Tied(MetaLess, a, b)
    ensures a == b
  {
    if a != b {
      var rest := Others(metas, a, b);
      assert multiset([b, a] + rest) == multiset([a, b] + rest);
      MetaOrder();
      SwapShows(a, b, rest);
    }
  }

  /**
   The order of the directory listing never matters exactly when no two different records share
   both creation time and id.
   */
  lemma ListingOrderIrrelevant(metas: seq<VmMeta>)
    ensures OrderIrrelevant(metas) <==>
      (forall a, b :: a in metas && b in metas && a.createdAt == b.createdAt && a.id == b.id ==> a == b)
  {
    MetaOrder();
    if OrderIrrelevant(metas) {
      forall a, b | a in metas && b in metas && Tied(MetaLess, a, b) ensures a == b {
        IrrelevantThenEqual(metas, a, b);
      }
    } else {
      var listing :| multiset(listing) == multiset(metas) && InOrder(listing) != InOrder(metas);
      if TiesAreEqual(MetaLess, metas) { SortOrderIndependent(MetaLess, metas, listing); }
    }
  }

  /** A stable sort shows which of two tied records came first. */
  lemma SwapShows(a: VmMeta, b: VmMeta, rest: seq<VmMeta>)
    requires Tied(MetaLess, a, b) && a != b
    ensures InOrder([a, b] + rest) != InOrder([b, a] + rest)
  {
    var p, q := [a, b] + rest, [b, a] + rest;
    MetaOrder();
    SortStable(MetaLess, a, p);
    SortStable(MetaLess, a, q);
    assert Tied(MetaLess, a, a) && Tied(MetaLess, b, a);
    assert TiedWith(MetaLess, a, p)[0] == a;
    assert TiedWith(MetaLess, a, q)[0] == b;
  }

  // ----- aliases

  const KEYS: seq<string> := ["host", "hostname", "app", "name"]

  function Normal(value: string): string {
    Lower(Trim(value))
  }

  /** What a tag or metadata key contributes, before normalisation; "" for nothing. */
  function TagText(meta: VmMeta, key: string): string {
    if key in meta.tags then meta.tags[key] else ""
  }

  function MetadataText(meta: VmMeta, key: string): string {
    if key in meta.metadata && meta.metadata[key].Text? then meta.metadata[key].text else ""
  }

  /** A value as an alias; a blank one is none. */
  function AliasOf(value: string): set<string> {
    if Normal(value) == "" then {} else {Normal(value)}
  }

  function IdAliases(meta: VmMeta): set<string> {
    AliasOf(meta.id) + (if |meta.id| >= 8 then AliasOf(meta.id[..8]) else {})
  }

  function KeyAliases(meta: VmMeta, key: string): set<string> {
    AliasOf(TagText(meta, key)) + AliasOf(MetadataText(meta, key))
  }

  function AliasesFor(meta: VmMeta, keys: seq<string>): set<string> {
    IdAliases(meta) + set k, a | k in keys && a in KeyAliases(meta, k) :: a
  }

  /** The names a VM answers to: its id, the first eight characters of it, four tags, four metadata strings. */
  function Aliases(meta: VmMeta): set<string> {
    AliasesFor(meta, KEYS)
  }

  method AddAlias(value: string, seen: set<string>, out: seq<string>) returns (seen': set<string>, out': seq<string>)
    requires multiset(out) == multiset(seen)
    ensures seen' == seen + AliasOf(value)
    ensures multiset(out') == multiset(seen')
  {
    seen', out' := seen, out;
    var v := Lower(Trim(value));
    if v == "" { return; }
    if v in seen { return; }
    seen' := seen + {v};
    out' := out + [v];
  }

  /** The tag and the metadata string of one key. */
  method AddKey(meta: VmMeta, key: string, seen: set<string>, out: seq<string>) returns (seen': set<string>, out': seq<string>)
    requires multiset(out) == multiset(seen)
    ensures seen' == seen + KeyAliases(meta, key)
    ensures multiset(out') == multiset(seen')
  {
    assert AliasOf("") == {};
    seen', out' := AddAlias(TagText(meta, key), seen, out);
    if key !in meta.metadata { return; }
    if meta.metadata[key].Text? {
      seen', out' := AddAlias(meta.metadata[key].text, seen', out');
    }
  }

  method AddIds(meta: VmMeta) returns (seen: set<string>, out: seq<string>)
    ensures seen == IdAliases(meta) && multiset(out) == multiset(seen)
  {
    seen, out := AddAlias(meta.id, {}, []);
    if |meta.id| >= 8 {
      seen, out := AddAlias(meta.id[..8], seen, out);
    }
  }

  lemma AliasesNext(meta: VmMeta, keys: seq<string>, n: nat)
    requires n < |keys|
    ensures AliasesFor(meta, keys[..n + 1]) == AliasesFor(meta, keys[..n]) + KeyAliases(meta, keys[n])
  {
    assert keys[..n + 1] == keys[..n] + [keys[n]];
  }

  method AddKeys(meta: VmMeta, keys: seq<string>, seen: set<string>, out: seq<string>) returns (seen': set<string>, out': seq<string>)
    requires seen == IdAliases(meta) && multiset(out) == multiset(seen)
    ensures seen' == AliasesFor(meta, keys) && multiset(out') == multiset(seen')
  {
    seen', out' := seen, out;
    for n := 0 to |keys|
      invariant multiset(out') == multiset(seen') && seen' == AliasesFor(meta, keys[..n])
    {
      AliasesNext(meta, keys, n);
      seen', out' := AddKey(meta, keys[n], seen', out');
    }
    assert keys[..|keys|] == keys;
  }

  /** aliasesForMeta: each alias once. */
  method AliasesForMeta(meta: VmMeta) returns (out: seq<string>)
    ensures multiset(out) == multiset(Aliases(meta))
  {
    var seen: set<string>;
    seen, out := AddIds(meta);
    seen, out := AddKeys(meta, KEYS, seen, out);
  }

  // ----- the index

  /** The first VM in the list that answers to the label. */
  function FirstWith(metas: seq<VmMeta>, alias: string): Option<VmMeta> {
    First(Aliases, metas, alias)
  }

  function Index(metas: seq<VmMeta>): map<string, VmMeta> {
    Indexed(Aliases, metas)
  }

  /** `index`, and `meta` under the aliases that `index` does not have. */
  ghost predicate AddedTo(index: map<string, VmMeta>, aliases: set<string>, meta: VmMeta, next: map<string, VmMeta>) {
    && (forall a :: a in index ==> a in next && next[a] == index[a])
    && (forall a :: a in next && a !in index ==> a in aliases && next[a] == meta)
    && (forall a :: a in aliases ==> a in next)
  }

  /** Adding a VM under each name of a list, except those another VM has already. */
  method AddNames(index: map<string, VmMeta>, aliases: seq<string>, ghost names: set<string>, meta: VmMeta)
    returns (next: map<string, VmMeta>)
    requires multiset(aliases) == multiset(names)
    ensures next == (map a | a in names :: meta) + index
  {
    next := index;
    ghost var done: set<string> := {};
    for i := 0 to |aliases|
      invariant done == set a | a in aliases[..i]
      invariant AddedTo(index, done, meta, next)
    {
      var alias := aliases[i];
      assert aliases[..i + 1] == aliases[..i] + [alias];
      done := done + {alias};
      if alias in next { continue; }
      next := next[alias := meta];
    }
    assert aliases[..|aliases|] == aliases;
    forall a ensures a in done <==> a in names {
      assert a in aliases <==> a in multiset(aliases);
    }
    assert done == names;
    AddedIs(index, done, meta, next);
  }

  method AddVm(index: map<string, VmMeta>, meta: VmMeta) returns (next: map<string, VmMeta>)
    ensures next == (map a | a in Aliases(meta) :: meta) + index
  {
    var aliases := AliasesForMeta(meta);
    next := AddNames(index, aliases, Aliases(meta), meta);
  }

  lemma AddedIs(index: map<string, VmMeta>, aliases: set<string>, meta: VmMeta, next: map<string, VmMeta>)
    requires AddedTo(index, aliases, meta, next)
    ensures next == (map a | a in aliases :: meta) + index
  {
  }

  method BuildIndex(ordered: seq<VmMeta>) returns (next: map<string, VmMeta>)
    ensures next == Index(ordered)
  {
    next := map[];
    for i := 0 to |ordered|
      invariant next == Index(ordered[..i])
    {
      assert ordered[..i + 1][..i] == ordered[..i];
      next := AddVm(next, ordered[i]);
    }
    assert ordered[..|ordered|] == ordered;
  }

  /** Looking a label up in the index is scanning the list for the first VM that answers to it. */
  lemma IndexScans(metas: seq<VmMeta>, alias: string)
    ensures Lookup(Index(metas), alias) == FirstWith(metas, alias)
  {
    IndexedScans(Aliases, metas, alias);
  }

  /** The index of the sorted listing finds the earliest VM that answers, and fails only when none does. */
  lemma IndexFindsEarliest(metas: seq<VmMeta>, alias: string)
    ensures match Lookup(Index(InOrder(metas)), alias)
      case Some(vm) => Earliest(MetaLess, Aliases, metas, alias, vm)
      case None => forall vm :: vm in metas ==> alias !in Aliases(vm)
  {
    var ordered := InOrder(metas);
    MetaOrder();
    SortSorts(MetaLess, metas);
    MultisetMembers(metas, ordered);
    IndexScans(ordered, alias);
    FirstOfSorted(MetaLess, Aliases, ordered, alias);
  }

  /** Of two VMs that answer, `vm` may win over `other`: it has a creation time if `other` has, and not a later one; on equal times, not the later id. */
  ghost predicate NotYounger(vm: VmMeta, other: VmMeta) {
    && (other.createdAt != ZERO_TIME ==> vm.createdAt != ZERO_TIME && vm.createdAt <= other.createdAt)
    && (vm.createdAt == other.createdAt ==> !ByteBefore(other.id, vm.id))
  }

  /** A lookup gives an answering VM that is no younger than any other, and nothing only when none answers. */
  lemma LookupGivesOldest(metas: seq<VmMeta>, alias: string)
    ensures match Lookup(Index(InOrder(metas)), alias)
      case Some(vm) => vm in metas && alias in Aliases(vm)
        && forall other :: other in metas && alias in Aliases(other) ==> NotYounger(vm, other)
      case None => forall vm :: vm in metas ==> alias !in Aliases(vm)
  {
    IndexFindsEarliest(metas, alias);
    match Lookup(Index(InOrder(metas)), alias)
    case None =>
    case Some(vm) =>
      forall other | other in metas && alias in Aliases(other) ensures NotYounger(vm, other) {
        NotLessNotYounger(vm, other);
      }
  }

  lemma NotLessNotYounger(vm: VmMeta, other: VmMeta)
    requires !MetaLess(other, vm)
    ensures NotYounger(vm, other)
  {
    StringLessIsByteBefore(other.id, vm.id);
  }

  /** A VM answers to its id, the first eight characters of it, and its tags and string metadata under four keys, trimmed and in lower case. */
  lemma AliasesExactly(meta: VmMeta, alias: string)
    ensures alias in Aliases(meta) <==> alias != "" && GoesBy(meta, alias)
  {
    assert KEYS[0] == "host" && KEYS[1] == "hostname" && KEYS[2] == "app" && KEYS[3] == "name";
    forall k ensures alias in KeyAliases(meta, k) <==> alias != "" && Named(meta, k, alias) {
      BlankIsNone();
    }
    if alias in Aliases(meta) && alias !in IdAliases(meta) {
      var k :| k in KEYS && alias in KeyAliases(meta, k);
      assert k == KEYS[0] || k == KEYS[1] || k == KEYS[2] || k == KEYS[3];
    }
  }

  /** A tag or a string in the metadata under the key says so. */
  ghost predicate Named(meta: VmMeta, key: string, alias: string) {
    || (key in meta.tags && Lower(Trim(meta.tags[key])) == alias)
    || (key in meta.metadata && meta.metadata[key].Text? && Lower(Trim(meta.metadata[key].text)) == alias)
  }

  ghost predicate GoesBy(meta: VmMeta, alias: string) {
    || Lower(Trim(meta.id)) == alias
    || (|meta.id| >= 8 && Lower(Trim(meta.id[..8])) == alias)
    || Named(meta, "host", alias) || Named(meta, "hostname", alias) || Named(meta, "app", alias) || Named(meta, "name", alias)
  }

  lemma BlankIsNone()
    ensures AliasOf("") == {}
  {
  }

  // ----- server names

  datatype NameError = Empty | WrongDomain | BadLabel

  /** labelFromServerName */
  function LabelOf(tail: string, serverName: string): Result<string, NameError> {
    var name := Bare(serverName);
    if name == "" then Err(Empty)
    else if |name| < |tail| || name[|name| - |tail|..] != tail then Err(WrongDomain)
    else
      var alias := name[..|name| - |tail|];
      if alias == "" || '.' in alias then Err(BadLabel) else Ok(alias)
  }

  /** Lower case, trimmed, one final dot dropped. */
  function Bare(serverName: string): string {
    var name := Lower(Trim(serverName));
    if name != "" && name[|name| - 1] == '.' then name[..|name| - 1] else name
  }

  /** A domain tail as configuration leaves it: a dot, then a lower-case domain without blanks or dots at its end. */
  predicate IsTail(tail: string) {
    && |tail| >= 2 && tail[0] == '.' && Lower(tail) == tail
    && tail[|tail| - 1] != '.' && !IsSpace(tail[|tail| - 1])
  }

  lemma BareDropsDot(alias: string, tail: string, serverName: string)
    requires tail != "" && tail[|tail| - 1] != '.'
    requires Lower(Trim(serverName)) in {alias + tail, alias + tail + "."}
    ensures Bare(serverName) == alias + tail
  {
    var name := alias + tail;
    assert name[|name| - 1] == tail[|tail| - 1];
    assert (name + ".")[..|name|] == name;
  }

  /** Any spelling of an alias and the tail, in either case, blanks around it, a final dot or not, asks for that alias. */
  lemma NamesParseBack(tail: string, alias: string, serverName: string)
    requires IsTail(tail) && alias != "" && '.' !in alias
    requires Lower(Trim(serverName)) in {alias + tail, alias + tail + "."}
    ensures LabelOf(tail, serverName) == Ok(alias)
  {
    BareDropsDot(alias, tail, serverName);
    LabelExact(tail, serverName, alias);
  }

  /** A label that was read names exactly the server name's first part. */
  lemma LabelExact(tail: string, serverName: string, alias: string)
    ensures LabelOf(tail, serverName) == Ok(alias) <==>
      alias != "" && '.' !in alias && Bare(serverName) == alias + tail
  {
    var name := Bare(serverName);
    if |name| >= |tail| {
      assert name == name[..|name| - |tail|] + name[|name| - |tail|..];
    }
    if name == alias + tail {
      assert name[..|alias|] == alias && name[|alias|..] == tail;
    }
  }

  lemma AliasesAreNormal(meta: VmMeta, a: string)
    requires a in Aliases(meta)
    ensures a != "" && Lower(a) == a && Trimmed(a)
  {
    var raw :| a in AliasOf(raw);
    AliasIsNormal(raw, a);
  }

  lemma AliasIsNormal(raw: string, a: string)
    requires a in AliasOf(raw)
    ensures a != "" && Lower(a) == a && Trimmed(a)
  {
    var t := Trim(raw);
    TrimTrims(raw);
    assert a == Lower(t);
  }

  /** Every alias without a dot can be asked for by its name under the domain. */
  lemma AliasesReachable(tail: string, meta: VmMeta, a: string)
    requires IsTail(tail) && a in Aliases(meta) && '.' !in a
    ensures LabelOf(tail, a + tail) == Ok(a)
  {
    AliasesAreNormal(meta, a);
    NormalName(tail, a);
    NamesParseBack(tail, a, a + tail);
  }

  lemma NormalName(tail: string, a: string)
    requires IsTail(tail) && a != "" && Lower(a) == a && Trimmed(a)
    ensures Lower(Trim(a + tail)) == a + tail
  {
    var s := a + tail;
    assert s[0] == a[0] && s[|s| - 1] == tail[|tail| - 1];
    TrimTrims(s);
    assert Lower(s) == Lower(a) + Lower(tail);
  }
}
