/**
 internal/converter/converter.go, inferHTTPPort: the port to suggest for an image's HTTP traffic.
 */
module HttpPort {
  import opened Text
  import opened Sorting

  datatype Candidate = Candidate(port: int, tcp: bool)

  /** strconv.Atoi; numbers too long for an int fail there and are out of range here. */
  function Atoi(s: string): Option<int> {
    var signed := s != "" && (s[0] == '+' || s[0] == '-');
    var digits := if signed then s[1..] else s;
    if digits == "" || !AllDigits(digits) then None
    else
      var value: int := DigitsValue(digits);
      Some(if signed && s[0] == '-' then -value else value)
  }

  /** The reading of an exposed-port key such as "8080/tcp". */
  function Read(key: string): Option<Candidate> {
    var parts := Split(key, '/');
    if |parts| != 2 then None
    else match Atoi(parts[0])
      case None => None
      case Some(port) => if port <= 0 || port > 65535 then None else Some(Candidate(port, Lower(parts[1]) == "tcp"))
  }

  predicate CandidateLess(a: Candidate, b: Candidate) {
    if a.tcp == b.tcp then a.port < b.port else a.tcp
  }

  predicate IsCommon(port: int) {
    port == 80 || port == 8080 || port == 3000 || port == 8000
  }

  /** The ports some key reads as, by how much they are preferred. */
  function AllPorts(exposed: set<string>): set<int> {
    set k | k in exposed && Read(k).Some? :: Read(k).value.port
  }

  function TcpPorts(exposed: set<string>): set<int> {
    set k | k in exposed && Read(k).Some? && Read(k).value.tcp :: Read(k).value.port
  }

  function CommonPorts(exposed: set<string>): set<int> {
    set p | p in TcpPorts(exposed) && IsCommon(p)
  }

  predicate Least(p: int, s: set<int>) {
    p in s && forall q :: q in s ==> p <= q
  }

  /** The smallest common TCP port if there is one, else the smallest TCP port, else the smallest port, else 0. */
  predicate Suggested(exposed: set<string>, p: int) {
    if CommonPorts(exposed) != {} then Least(p, CommonPorts(exposed))
    else if TcpPorts(exposed) != {} then Least(p, TcpPorts(exposed))
    else if AllPorts(exposed) != {} then Least(p, AllPorts(exposed))
    else p == 0
  }

  /** So the suggestion does not depend on the order in which the keys are met. */
  lemma SuggestedOnce(exposed: set<string>, p: int, q: int)
    requires Suggested(exposed, p) && Suggested(exposed, q)
    ensures p == q
  {
  }

  /** The four ports preferred, written out. */
  lemma CommonFour(exposed: set<string>, p: int)
    requires Suggested(exposed, p)
    ensures var four := TcpPorts(exposed) * {80, 3000, 8000, 8080};
      four != {} ==> p in four && forall q :: q in four ==> p <= q
  {
    assert TcpPorts(exposed) * {80, 3000, 8000, 8080} == CommonPorts(exposed);
  }

  /** How a key is written: a port in plain decimal, a slash, a protocol. */
  lemma KeyReads(n: nat, protocol: string)
    requires 1 <= n <= 65535 && '/' !in protocol
    ensures Read(Decimal(n) + "/" + protocol) == Some(Candidate(n, Lower(protocol) == "tcp"))
  {
    DecimalReads(n);
    SplitNone(protocol, '/');
    assert '/' !in Decimal(n);
    SplitAppend(Decimal(n), protocol, '/');
    assert Decimal(n) + "/" + protocol == Decimal(n) + ['/'] + protocol;
  }

  /** A key that reads has exactly one slash and a port in range; a minus sign or a zero never reads. */
  lemma ReadInRange(key: string)
    ensures Read(key).Some? ==> 1 <= Read(key).value.port <= 65535 && |Split(key, '/')| == 2
    ensures key != "" && (key[0] == '-' || key[0] == '/') ==> Read(key) == None
  {
    var parts := Split(key, '/');
    if key != "" && key[0] == '-' && |parts| == 2 {
      assert parts[0] != "" && parts[0][0] == '-';
    }
  }

  /** `cs` holds the readings of `keys`. */
  ghost predicate Readings(keys: set<string>, cs: seq<Candidate>) {
    && (forall k :: k in keys && Read(k).Some? ==> Read(k).value in cs)
    && (forall c :: c in cs ==> exists k :: k in keys && Read(k) == Some(c))
  }

  method ReadAll(exposed: set<string>) returns (candidates: seq<Candidate>)
    ensures Readings(exposed, candidates)
  {
    var todo := exposed;
    candidates := [];
    while todo != {}
      invariant todo <= exposed && Readings(exposed - todo, candidates)
      decreases todo
    {
      var key :| key in todo;
      todo := todo - {key};
      assert exposed - todo == (exposed - (todo + {key})) + {key};
      if Read(key).None? { continue; }
      ghost var before := candidates;
      candidates := candidates + [Read(key).value];
      assert forall c :: c in candidates <==> c in before || c == Read(key).value;
    }
    assert exposed - todo == exposed;
  }

  lemma CandidateOrder()
    ensures StrictWeakOrder(CandidateLess)
  {
  }

  method FirstCommon(candidates: seq<Candidate>) returns (port: Option<int>)
    requires Sorted(CandidateLess, candidates)
    ensures match port
      case Some(p) => Candidate(p, true) in candidates && IsCommon(p)
        && forall c :: c in candidates && c.tcp && IsCommon(c.port) ==> p <= c.port
      case None => forall c :: c in candidates && c.tcp ==> !IsCommon(c.port)
  {
    for i := 0 to |candidates|
      invariant forall j :: 0 <= j < i ==> !(candidates[j].tcp && IsCommon(candidates[j].port))
    {
      var c := candidates[i];
      if c.tcp && IsCommon(c.port) {
        forall d | d in candidates && d.tcp && IsCommon(d.port) ensures c.port <= d.port {
          var j :| 0 <= j < |candidates| && candidates[j] == d;
          assert i < j ==> !CandidateLess(candidates[j], candidates[i]);
        }
        return Some(c.port);
      }
    }
    return None;
  }

  method FirstTcp(candidates: seq<Candidate>) returns (port: Option<int>)
    requires Sorted(CandidateLess, candidates)
    ensures match port
      case Some(p) => Candidate(p, true) in candidates && forall c :: c in candidates && c.tcp ==> p <= c.port
      case None => forall c :: c in candidates ==> !c.tcp
  {
    for i := 0 to |candidates|
      invariant forall j :: 0 <= j < i ==> !candidates[j].tcp
    {
      var c := candidates[i];
      if c.tcp {
        forall d | d in candidates && d.tcp ensures c.port <= d.port {
          var j :| 0 <= j < |candidates| && candidates[j] == d;
          assert i < j ==> !CandidateLess(candidates[j], candidates[i]);
        }
        return Some(c.port);
      }
    }
    return None;
  }

  /** inferHTTPPort: the keys are met in whatever order the runtime picks, and sorted by an unstable sort. */
  method InferHttpPort(exposed: set<string>) returns (port: int)
    ensures Suggested(exposed, port)
  {
    if exposed == {} { return 0; }
    var candidates := ReadAll(exposed);
    PortsOf(exposed, candidates);
    if |candidates| == 0 { return 0; }
    CandidateOrder();
    SortSorts(CandidateLess, candidates);
    var sorted := Sort(CandidateLess, candidates);
    MultisetMembers(candidates, sorted);
    PortsOf(exposed, sorted);
    port := Choose(exposed, sorted);
  }

  /** The three scans of the sorted candidates. */
  method Choose(exposed: set<string>, sorted: seq<Candidate>) returns (port: int)
    requires sorted != [] && Sorted(CandidateLess, sorted) && Holds(exposed, sorted)
    ensures Suggested(exposed, port)
  {
    var common := FirstCommon(sorted);
    if common.Some? {
      CommonFirst(exposed, sorted, common.value);
      return common.value;
    }
    NoCommon(exposed, sorted);
    var tcp := FirstTcp(sorted);
    if tcp.Some? {
      TcpFirst(exposed, sorted, tcp.value);
      return tcp.value;
    }
    FirstIsLeast(sorted);
    AnyFirst(exposed, sorted);
    return sorted[0].port;
  }

  /** The port sets are those of the list. */
  ghost predicate Holds(exposed: set<string>, cs: seq<Candidate>) {
    && (forall p :: p in AllPorts(exposed) <==> Candidate(p, true) in cs || Candidate(p, false) in cs)
    && (forall p :: p in TcpPorts(exposed) <==> Candidate(p, true) in cs)
  }

  lemma CommonFirst(exposed: set<string>, cs: seq<Candidate>, p: int)
    requires Holds(exposed, cs) && Candidate(p, true) in cs && IsCommon(p)
    requires forall c :: c in cs && c.tcp && IsCommon(c.port) ==> p <= c.port
    ensures Suggested(exposed, p)
  {
    assert p in CommonPorts(exposed);
    forall q | q in CommonPorts(exposed) ensures p <= q { assert Candidate(q, true) in cs; }
  }

  lemma NoCommon(exposed: set<string>, cs: seq<Candidate>)
    requires Holds(exposed, cs)
    ensures (forall c :: c in cs && c.tcp ==> !IsCommon(c.port)) ==> CommonPorts(exposed) == {}
  {
    if p :| p in CommonPorts(exposed) { assert Candidate(p, true) in cs; }
  }

  lemma TcpFirst(exposed: set<string>, cs: seq<Candidate>, p: int)
    requires Holds(exposed, cs) && CommonPorts(exposed) == {} && Candidate(p, true) in cs
    requires forall c :: c in cs && c.tcp ==> p <= c.port
    ensures Suggested(exposed, p)
  {
    assert p in TcpPorts(exposed);
    forall q | q in TcpPorts(exposed) ensures p <= q { assert Candidate(q, true) in cs; }
  }

  lemma AnyFirst(exposed: set<string>, cs: seq<Candidate>)
    requires Holds(exposed, cs) && cs != [] && CommonPorts(exposed) == {}
    requires forall c :: c in cs ==> !c.tcp && cs[0].port <= c.port
    ensures Suggested(exposed, cs[0].port)
  {
    assert Candidate(cs[0].port, false) == cs[0];
    forall q | q in AllPorts(exposed) ensures cs[0].port <= q {
      assert Candidate(q, true) in cs || Candidate(q, false) in cs;
    }
    assert TcpPorts(exposed) == {} by {
      forall q ensures q !in TcpPorts(exposed) { assert Candidate(q, true) !in cs; }
    }
  }

  lemma FirstIsLeast(sorted: seq<Candidate>)
    requires sorted != [] && Sorted(CandidateLess, sorted) && forall c :: c in sorted ==> !c.tcp
    ensures forall c :: c in sorted ==> sorted[0].port <= c.port
  {
    forall c | c in sorted ensures sorted[0].port <= c.port {
      var j :| 0 <= j < |sorted| && sorted[j] == c;
      assert sorted[0] in sorted;
      assert j > 0 ==> !CandidateLess(sorted[j], sorted[0]);
    }
  }

  /** The three port sets, seen from the list of readings. */
  lemma PortsOf(exposed: set<string>, cs: seq<Candidate>)
    requires Readings(exposed, cs)
    ensures Holds(exposed, cs)
  {
    forall p
      ensures p in AllPorts(exposed) <==> Candidate(p, true) in cs || Candidate(p, false) in cs
      ensures p in TcpPorts(exposed) <==> Candidate(p, true) in cs
    {
      if p in AllPorts(exposed) {
        var k :| k in exposed && Read(k).Some? && Read(k).value.port == p;
        assert Read(k).value == Candidate(p, true) || Read(k).value == Candidate(p, false);
      }
      if p in TcpPorts(exposed) {
        var k :| k in exposed && Read(k).Some? && Read(k).value.tcp && Read(k).value.port == p;
        assert Read(k).value == Candidate(p, true);
      }
    }
  }
}
