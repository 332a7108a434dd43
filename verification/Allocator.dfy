/**
 internal/network/allocator.go: first-fit allocation of a guest address and of host ports.
 */
module Allocator {
  import opened Text
  import opened Ipv4
  import opened Model
  import opened Sorting

  datatype Config = Config(portStart: int, portEnd: int, cidr: Cidr)

  datatype AllocError =
    | BadCidr
    | CidrNotIpv4
    | NoHostRange
    | NoAddress
    | BadGuestPort(port: int)
    | BadHostPort(port: int)
    | BadProtocol(protocol: string)
    | NoPort
    | PortTaken(port: int)
    | PortRepeated(port: int)

  // ----- guest addresses

  /** The addresses the listed VMs hold. */
  function UsedAddresses(existing: seq<VmMeta>): set<string> {
    set vm | vm in existing && vm.guestIp != "" :: vm.guestIp
  }

  /** A block the allocator works on: IPv4 with at least two host bits. */
  predicate Usable(p: Cidr) {
    p.Block? && WellFormed(p) && HostBits(p) >= 2
  }

  lemma UsableSize(p: Cidr)
    requires Usable(p)
    ensures 4 <= Size(p) <= TWO32
  {
    Pow2Values();
    Pow2Grows(2, HostBits(p));
    Pow2Grows(HostBits(p), 32);
  }

  /** Address number `host` of the block. */
  function HostAddress(p: Cidr, host: nat): Addr
    requires p.Block? && WellFormed(p) && host < Size(p)
  {
    HostInBlock(p, host);
    FromU32(Network(p) + host)
  }

  function HostText(p: Cidr, host: nat): string
    requires p.Block? && WellFormed(p) && host < Size(p)
  {
    Render(HostAddress(p, host))
  }

  lemma HostTextInjective(p: Cidr, i: nat, j: nat)
    requires p.Block? && WellFormed(p) && i < Size(p) && j < Size(p)
    ensures HostText(p, i) == HostText(p, j) ==> i == j
  {
    HostInBlock(p, i);
    HostInBlock(p, j);
    RenderInjective(HostAddress(p, i), HostAddress(p, j));
    if HostText(p, i) == HostText(p, j) { DifferentNumbers(Network(p) + i, Network(p) + j); }
  }

  /** First fit: the first number from `lo` up to, not including, `hi` that is free. */
  function FirstFree(free: nat -> bool, lo: nat, hi: nat): Option<nat>
    decreases hi - lo
  {
    if lo >= hi then None
    else if free(lo) then Some(lo)
    else FirstFree(free, lo + 1, hi)
  }

  lemma FirstFreeNext(free: nat -> bool, lo: nat, hi: nat)
    requires lo < hi && !free(lo)
    ensures FirstFree(free, lo, hi) == FirstFree(free, lo + 1, hi)
  {
  }

  lemma {:induction false} FirstFreeIsFirst(free: nat -> bool, lo: nat, hi: nat)
    ensures match FirstFree(free, lo, hi)
      case Some(k) => lo <= k < hi && free(k) && forall j :: lo <= j < k ==> !free(j)
      case None => forall j :: lo <= j < hi ==> !free(j)
    decreases hi - lo
  {
    if lo < hi && !free(lo) {
      FirstFreeIsFirst(free, lo + 1, hi);
    }
  }

  /** A sum on 32 bits. */
  function Wrap(n: nat): U32 {
    if n < TWO32 then n else n % TWO32
  }

  /** A counter on 32 bits, one further. */
  function Increment(n: U32): U32 {
    if n + 1 == TWO32 then 0 else n + 1
  }

  /** The candidate for a host number, as text, in 32-bit arithmetic. */
  function AddressAt(network: U32, host: nat): string {
    Render(FromU32(Wrap(network + host)))
  }

  /** The host numbers whose address nobody holds. */
  function FreeAt(network: U32, used: set<string>): nat -> bool {
    (host: nat) => AddressAt(network, host) !in used
  }

  /** No sum wraps, so the candidates are the addresses of the block. */
  lemma AddressAtHost(p: Cidr, host: nat)
    requires p.Block? && WellFormed(p) && host < Size(p)
    ensures AddressAt(Network(p), host) == HostText(p, host)
  {
    HostInBlock(p, host);
  }

  function GuestAddress(p: Cidr, existing: seq<VmMeta>): Result<string, AllocError>
    requires WellFormed(p)
  {
    match p
    case Malformed => Err(BadCidr)
    case NotIpv4 => Err(CidrNotIpv4)
    case Block(_, _) =>
      if HostBits(p) <= 1 then Err(NoHostRange)
      else match FirstFree(FreeAt(Network(p), UsedAddresses(existing)), 2, Size(p) - 1)
        case Some(host) => Ok(AddressAt(Network(p), host))
        case None => Err(NoAddress)
  }

  method CollectAddresses(existing: seq<VmMeta>) returns (used: set<string>)
    ensures used == UsedAddresses(existing)
  {
    used := {};
    for i := 0 to |existing|
      invariant used == UsedAddresses(existing[..i])
    {
      if existing[i].guestIp != "" {
        used := used + {existing[i].guestIp};
      }
      assert existing[..i + 1] == existing[..i] + [existing[i]];
    }
    assert existing[..|existing|] == existing;
  }

  /**
   The candidate of one turn as text, and whether it is inside the block, which it always is; it is
   unused exactly when its host number is free.
   */
  method Candidate(p: Cidr, network: U32, host: U32, used: set<string>, ghost free: nat -> bool)
    returns (text: string, inside: bool)
    requires p.Block? && WellFormed(p) && network == Network(p) && host < Size(p)
    requires free == FreeAt(network, used)
    ensures inside && text == AddressAt(network, host)
    ensures free(host) == (text !in used)
  {
    HostInBlock(p, host);
    var candidate := Wrap(network + host);
    inside := Contains(p, candidate);
    text := Render(FromU32(candidate));
  }

  /**
   The loop of allocateGuestIP.  The counter never wraps, and the candidate never leaves the block,
   so the branch that skips it is dead.
   */
  method Scan(p: Cidr, network: U32, maxHost: U32, used: set<string>) returns (r: Option<string>)
    requires p.Block? && WellFormed(p) && network == Network(p) && 3 <= maxHost == Size(p) - 1
    ensures match FirstFree(FreeAt(network, used), 2, maxHost)
      case Some(k) => r == Some(AddressAt(network, k))
      case None => r == None
  {
    ghost var free := FreeAt(network, used);
    var host: U32 := 2;
    while host < maxHost
      invariant 2 <= host <= maxHost
      invariant FirstFree(free, 2, maxHost) == FirstFree(free, host, maxHost)
    {
      var candidate, inside := Candidate(p, network, host, used, free);
      if !inside {
        assert false;
      } else if candidate !in used {
        return Some(candidate);
      }
      FirstFreeNext(free, host, maxHost);
      host := Increment(host);
    }
    return None;
  }

  /** allocateGuestIP */
  method AllocateGuestIp(p: Cidr, existing: seq<VmMeta>) returns (r: Result<string, AllocError>)
    requires WellFormed(p)
    ensures r == GuestAddress(p, existing)
  {
    if p.Malformed? { return Err(BadCidr); }
    if p.NotIpv4? { return Err(CidrNotIpv4); }
    var used := CollectAddresses(existing);
    if HostBits(p) <= 1 { return Err(NoHostRange); }
    UsableSize(p);
    var found := Scan(p, Network(p), Wrap(Size(p) - 1), used);
    if found.None? { return Err(NoAddress); }
    return Ok(found.value);
  }

  /** Consecutive used addresses are that many distinct entries of `used`. */
  lemma {:induction false} UsedRun(p: Cidr, lo: nat, hi: nat, used: set<string>)
    requires p.Block? && WellFormed(p) && lo <= hi <= Size(p)
    requires forall j :: lo <= j < hi ==> HostText(p, j) in used
    ensures hi - lo <= |used|
    decreases hi - lo
  {
    if lo < hi {
      var first := HostText(p, lo);
      forall j | lo < j < hi ensures HostText(p, j) in used - {first} {
        HostTextInjective(p, lo, j);
      }
      UsedRun(p, lo + 1, hi, used - {first});
    }
  }

  /**
   What a caller gets: the lowest address of the block, from offset 2 up to but not including the
   last, that no listed VM holds; a failure exactly when all of them are held.  The search looks at
   no more candidates than there are distinct held addresses, plus one.
   */
  lemma GuestAddressIsLowestFree(p: Cidr, existing: seq<VmMeta>)
    requires Usable(p)
    ensures match GuestAddress(p, existing)
      case Ok(ip) => exists k: nat ::
        && 2 <= k <= Size(p) - 2
        && ip == HostText(p, k)
        && ip !in UsedAddresses(existing)
        && (forall j :: 2 <= j < k ==> HostText(p, j) in UsedAddresses(existing))
        && k - 2 <= |UsedAddresses(existing)|
      case Err(e) =>
        && e == NoAddress
        && forall j :: 2 <= j <= Size(p) - 2 ==> HostText(p, j) in UsedAddresses(existing)
  {
    UsableSize(p);
    var used, free := UsedAddresses(existing), FreeAt(Network(p), UsedAddresses(existing));
    FirstFreeIsFirst(free, 2, Size(p) - 1);
    match FirstFree(free, 2, Size(p) - 1)
    case Some(k) =>
      HeldBelow(p, used, k);
      AddressAtHost(p, k);
      UsedRun(p, 2, k, used);
    case None =>
      HeldBelow(p, used, Size(p) - 1);
  }

  lemma HeldBelow(p: Cidr, used: set<string>, hi: nat)
    requires p.Block? && WellFormed(p) && hi < Size(p)
    requires forall j :: 2 <= j < hi ==> !FreeAt(Network(p), used)(j)
    ensures forall j :: 2 <= j < hi ==> HostText(p, j) in used
  {
    forall j | 2 <= j < hi ensures HostText(p, j) in used {
      assert !FreeAt(Network(p), used)(j);
      AddressAtHost(p, j);
    }
  }

  // ----- host ports

  function UsedPorts(existing: seq<VmMeta>): set<int> {
    set vm, b | vm in existing && b in vm.ports :: b.host
  }

  /** The protocol a request stands for. */
  function Protocol(raw: string): string {
    var p := Trim(Lower(raw));
    if p == "" then "tcp" else p
  }

  /** `raw` is the word in any mixture of cases, with blanks around it. */
  ghost predicate Spells(raw: string, word: string) {
    exists pre, core, post :: SpelledAs(raw, pre, core, post, word)
  }

  ghost predicate SpelledAs(raw: string, pre: string, core: string, post: string, word: string) {
    && raw == pre + core + post && Blank(pre) && Blank(post) && |core| == |word|
    && forall i :: 0 <= i < |core| ==> core[i] == word[i] || core[i] as int == word[i] as int - 32
  }

  lemma LowerIsSpelling(core: string, word: string)
    requires forall i :: 0 <= i < |word| ==> 'a' <= word[i] <= 'z'
    ensures Lower(core) == word <==>
      |core| == |word| && forall i :: 0 <= i < |core| ==> core[i] == word[i] || core[i] as int == word[i] as int - 32
  {
  }

  lemma SpellingFound(raw: string, word: string)
    requires word != "" && (forall i :: 0 <= i < |word| ==> 'a' <= word[i] <= 'z') && Trim(Lower(raw)) == word
    ensures Spells(raw, word)
  {
    TrimParts(Lower(raw));
    var pre, post :| Blank(pre) && Blank(post) && Lower(raw) == pre + word + post;
    var i, j := |pre|, |pre| + |word|;
    SameBlanks(raw, pre, word, post);
    LowerIsSpelling(raw[i..j], word);
    assert SpelledAs(raw, raw[..i], raw[i..j], raw[j..], word);
  }

  lemma SpellingTrims(raw: string, word: string)
    requires word != "" && (forall i :: 0 <= i < |word| ==> 'a' <= word[i] <= 'z') && Spells(raw, word)
    ensures Trim(Lower(raw)) == word
  {
    var pre, core, post :| SpelledAs(raw, pre, core, post, word);
    LowerIsSpelling(core, word);
    assert Lower(raw) == Lower(pre) + word + Lower(post);
    LowerBlank(pre);
    LowerBlank(post);
    TrimSkips(Lower(pre), word, Lower(post));
  }

  /** A word of letters comes out exactly for its spellings. */
  lemma SpellingExact(raw: string, word: string)
    requires word != "" && forall i :: 0 <= i < |word| ==> 'a' <= word[i] <= 'z'
    ensures Trim(Lower(raw)) == word <==> Spells(raw, word)
  {
    if Trim(Lower(raw)) == word { SpellingFound(raw, word); }
    if Spells(raw, word) { SpellingTrims(raw, word); }
  }

  lemma LowerBlank(s: string)
    ensures Blank(s) <==> Blank(Lower(s))
  {
    forall i | 0 <= i < |s| ensures IsSpace(s[i]) <==> IsSpace(Lower(s)[i]) {
    }
  }

  lemma SameBlanks(raw: string, pre: string, word: string, post: string)
    requires Lower(raw) == pre + word + post && Blank(pre) && Blank(post)
    ensures var i, j := |pre|, |pre| + |word|;
      && raw == raw[..i] + raw[i..j] + raw[j..] && Blank(raw[..i]) && Blank(raw[j..]) && Lower(raw[i..j]) == word
  {
    var i, j := |pre|, |pre| + |word|;
    assert Lower(raw[..i]) == pre && Lower(raw[i..j]) == word && Lower(raw[j..]) == post;
    LowerBlank(raw[..i]);
    LowerBlank(raw[j..]);
  }

  /**
   A request with ports in range is refused for its protocol exactly when that is neither blank nor a
   spelling of tcp or udp; blank and tcp are answered as "tcp", udp as "udp".
   */
  lemma ProtocolExact(cfg: Config, used: set<int>, reserved: set<int>, req: PortRequest)
    requires 1 <= req.guest <= 65535 && 0 <= req.host <= 65535
    ensures var one := AssignOne(cfg, used, reserved, req);
      && ((one.Err? && one.error.BadProtocol?) <==> !Blank(req.protocol) && !Spells(req.protocol, "tcp") && !Spells(req.protocol, "udp"))
      && (one.Ok? ==> one.value.protocol == if Spells(req.protocol, "udp") then "udp" else "tcp")
  {
    BlankTrims(Lower(req.protocol));
    LowerBlank(req.protocol);
    SpellingExact(req.protocol, "tcp");
    SpellingExact(req.protocol, "udp");
  }

  /** nextFreePort from `port` on; 0 stands for none. */
  function FreePortFrom(port: int, end: int, taken: set<int>): int
    decreases end - port
  {
    if port > end then 0
    else if port in taken then FreePortFrom(port + 1, end, taken)
    else port
  }

  method NextFreePort(cfg: Config, used: set<int>, reserved: set<int>) returns (r: int)
    ensures r == FreePortFrom(cfg.portStart, cfg.portEnd, used + reserved)
  {
    var port := cfg.portStart;
    while port <= cfg.portEnd
      invariant FreePortFrom(cfg.portStart, cfg.portEnd, used + reserved)
             == FreePortFrom(port, cfg.portEnd, used + reserved)
      decreases cfg.portEnd - port
    {
      if port in used {
        port := port + 1;
        continue;
      }
      if port in reserved {
        port := port + 1;
        continue;
      }
      return port;
    }
    return 0;
  }

  /** One turn of the allocation loop. */
  function AssignOne(cfg: Config, used: set<int>, reserved: set<int>, req: PortRequest)
    : Result<PortBinding, AllocError>
  {
    if req.guest <= 0 || req.guest > 65535 then Err(BadGuestPort(req.guest))
    else if req.host < 0 || req.host > 65535 then Err(BadHostPort(req.host))
    else if Protocol(req.protocol) != "tcp" && Protocol(req.protocol) != "udp" then
      Err(BadProtocol(Protocol(req.protocol)))
    else
      var host := if req.host == 0 then FreePortFrom(cfg.portStart, cfg.portEnd, used + reserved) else req.host;
      if host == 0 then Err(NoPort)
      else if host in used then Err(PortTaken(host))
      else if host in reserved then Err(PortRepeated(host))
      else Ok(PortBinding(req.guest, host, Protocol(req.protocol)))
  }

  /** The bindings in the order of the requests. */
  function Assign(cfg: Config, used: set<int>, reserved: set<int>, requests: seq<PortRequest>)
    : Result<seq<PortBinding>, AllocError>
    decreases |requests|
  {
    if requests == [] then Ok([])
    else match AssignOne(cfg, used, reserved, requests[0])
      case Err(e) => Err(e)
      case Ok(b) => Prepend([b], Assign(cfg, used, reserved + {b.host}, requests[1..]))
  }

  function Prepend(front: seq<PortBinding>, r: Result<seq<PortBinding>, AllocError>): Result<seq<PortBinding>, AllocError> {
    match r
    case Ok(back) => Ok(front + back)
    case Err(e) => Err(e)
  }

  predicate HostLess(a: PortBinding, b: PortBinding) {
    a.host < b.host
  }

  function Ports(cfg: Config, existing: seq<VmMeta>, requests: seq<PortRequest>): Result<seq<PortBinding>, AllocError> {
    match Assign(cfg, UsedPorts(existing), {}, requests)
    case Ok(bindings) => Ok(Sort(HostLess, bindings))
    case Err(e) => Err(e)
  }

  method CollectPorts(existing: seq<VmMeta>) returns (used: set<int>)
    ensures used == UsedPorts(existing)
  {
    used := {};
    for i := 0 to |existing|
      invariant used == UsedPorts(existing[..i])
    {
      var vm := existing[i];
      for j := 0 to |vm.ports|
        invariant used == UsedPorts(existing[..i]) + HostPorts(vm.ports[..j])
      {
        used := used + {vm.ports[j].host};
        assert vm.ports[..j + 1] == vm.ports[..j] + [vm.ports[j]];
      }
      assert vm.ports[..|vm.ports|] == vm.ports;
      assert existing[..i + 1] == existing[..i] + [vm];
    }
    assert existing[..|existing|] == existing;
  }

  /** One turn of the loop of allocatePorts. */
  method AllocateOne(cfg: Config, used: set<int>, reserved: set<int>, req: PortRequest)
    returns (r: Result<PortBinding, AllocError>)
    ensures r == AssignOne(cfg, used, reserved, req)
  {
    if req.guest <= 0 || req.guest > 65535 { return Err(BadGuestPort(req.guest)); }
    if req.host < 0 || req.host > 65535 { return Err(BadHostPort(req.host)); }
    var protocol := Trim(Lower(req.protocol));
    if protocol == "" { protocol := "tcp"; }
    if protocol != "tcp" && protocol != "udp" { return Err(BadProtocol(protocol)); }
    var hostPort := req.host;
    if hostPort == 0 {
      hostPort := NextFreePort(cfg, used, reserved);
      if hostPort == 0 { return Err(NoPort); }
    }
    if hostPort in used { return Err(PortTaken(hostPort)); }
    if hostPort in reserved { return Err(PortRepeated(hostPort)); }
    return Ok(PortBinding(req.guest, hostPort, protocol));
  }

  lemma AssignNext(cfg: Config, used: set<int>, reserved: set<int>, requests: seq<PortRequest>, i: nat, bindings: seq<PortBinding>)
    requires i < |requests|
    ensures match AssignOne(cfg, used, reserved, requests[i])
      case Err(e) => Prepend(bindings, Assign(cfg, used, reserved, requests[i..])) == Err(e)
      case Ok(b) =>
        Prepend(bindings, Assign(cfg, used, reserved, requests[i..])) ==
        Prepend(bindings + [b], Assign(cfg, used, reserved + {b.host}, requests[i + 1..]))
  {
    assert requests[i..][0] == requests[i] && requests[i..][1..] == requests[i + 1..];
    match AssignOne(cfg, used, reserved, requests[i])
    case Err(_) =>
    case Ok(b) =>
      var rest := Assign(cfg, used, reserved + {b.host}, requests[i + 1..]);
      assert rest.Ok? ==> bindings + ([b] + rest.value) == bindings + [b] + rest.value;
  }

  /** allocatePorts */
  method AllocatePorts(cfg: Config, existing: seq<VmMeta>, requests: seq<PortRequest>)
    returns (r: Result<seq<PortBinding>, AllocError>)
    ensures r == Ports(cfg, existing, requests)
  {
    var used := CollectPorts(existing);
    var bindings: seq<PortBinding> := [];
    var reserved: set<int> := {};
    ghost var whole := Assign(cfg, used, {}, requests);
    assert requests[0..] == requests && forall t: seq<PortBinding> :: [] + t == t;
    for i := 0 to |requests|
      invariant whole == Prepend(bindings, Assign(cfg, used, reserved, requests[i..]))
    {
      AssignNext(cfg, used, reserved, requests, i, bindings);
      var one := AllocateOne(cfg, used, reserved, requests[i]);
      if one.Err? { return Err(one.error); }
      reserved := reserved + {one.value.host};
      bindings := bindings + [one.value];
    }
    assert bindings + [] == bindings;
    return Ok(Sort(HostLess, bindings));
  }

  /** `port` is the lowest port of the configured range outside `taken`. */
  ghost predicate LowestFree(cfg: Config, taken: set<int>, port: int) {
    && cfg.portStart <= port <= cfg.portEnd
    && port !in taken
    && forall q :: cfg.portStart <= q < port ==> q in taken
  }

  ghost predicate RangeFull(cfg: Config, taken: set<int>) {
    forall q :: cfg.portStart <= q <= cfg.portEnd ==> q in taken
  }

  /** Binding `b` is the right answer to `req` when the ports in `taken` are gone. */
  ghost predicate Answers(cfg: Config, taken: set<int>, req: PortRequest, b: PortBinding) {
    && 1 <= req.guest <= 65535 && 0 <= req.host <= 65535
    && b.guest == req.guest
    && b.protocol == Protocol(req.protocol) && b.protocol in {"tcp", "udp"}
    && b.host !in taken && b.host != 0
    && (if req.host != 0 then b.host == req.host else LowestFree(cfg, taken, b.host))
  }

  /** Every request is answered in turn, with earlier answers counted as taken. */
  ghost predicate AllAnswered(cfg: Config, taken: set<int>, requests: seq<PortRequest>, bs: seq<PortBinding>) {
    && |bs| == |requests|
    && forall i :: 0 <= i < |bs| ==> Answers(cfg, taken + HostPorts(bs[..i]), requests[i], bs[i])
  }

  lemma {:induction false} FreePortIsLowest(cfg: Config, port: int, taken: set<int>)
    requires cfg.portStart <= port
    requires forall q :: cfg.portStart <= q < port ==> q in taken
    ensures var f := FreePortFrom(port, cfg.portEnd, taken);
      || (f == 0 && RangeFull(cfg, taken))
      || LowestFree(cfg, taken, f)
    decreases cfg.portEnd - port
  {
    if port <= cfg.portEnd && port in taken {
      FreePortIsLowest(cfg, port + 1, taken);
    }
  }

  lemma LowestFreeUnique(cfg: Config, taken: set<int>, p: int, q: int)
    requires LowestFree(cfg, taken, p) && LowestFree(cfg, taken, q)
    ensures p == q
  {
  }

  lemma AssignOneAnswers(cfg: Config, used: set<int>, reserved: set<int>, req: PortRequest)
    ensures match AssignOne(cfg, used, reserved, req)
      case Ok(b) => forall c :: Answers(cfg, used + reserved, req, c) <==> c == b
      case Err(_) => forall c :: !Answers(cfg, used + reserved, req, c)
  {
    var taken := used + reserved;
    FreePortIsLowest(cfg, cfg.portStart, taken);
    forall p, q | LowestFree(cfg, taken, p) && LowestFree(cfg, taken, q) ensures p == q {
      LowestFreeUnique(cfg, taken, p, q);
    }
  }

  lemma FirstTaken(taken: set<int>, bs: seq<PortBinding>, i: nat)
    requires 0 < i < |bs|
    ensures taken + HostPorts(bs[..i]) == taken + {bs[0].host} + HostPorts(bs[1..][..i - 1])
  {
    assert bs[..i] == [bs[0]] + bs[1..][..i - 1];
  }

  lemma AllAnsweredUncons(cfg: Config, taken: set<int>, requests: seq<PortRequest>, bs: seq<PortBinding>)
    requires |bs| == |requests| > 0
    ensures AllAnswered(cfg, taken, requests, bs) <==>
      (Answers(cfg, taken, requests[0], bs[0]) && AllAnswered(cfg, taken + {bs[0].host}, requests[1..], bs[1..]))
  {
    assert bs[..0] == [] && taken + {} == taken;
    forall i | 0 < i < |bs|
      ensures taken + HostPorts(bs[..i]) == taken + {bs[0].host} + HostPorts(bs[1..][..i - 1])
    {
      FirstTaken(taken, bs, i);
    }
    if AllAnswered(cfg, taken + {bs[0].host}, requests[1..], bs[1..]) && Answers(cfg, taken, requests[0], bs[0]) {
      forall i | 0 <= i < |bs| ensures Answers(cfg, taken + HostPorts(bs[..i]), requests[i], bs[i]) {
        if i > 0 { assert bs[1..][i - 1] == bs[i] && requests[1..][i - 1] == requests[i]; }
      }
    }
    if AllAnswered(cfg, taken, requests, bs) {
      forall i | 0 <= i < |bs[1..]|
        ensures Answers(cfg, taken + {bs[0].host} + HostPorts(bs[1..][..i]), requests[1..][i], bs[1..][i])
      {
        assert bs[1..][i] == bs[i + 1];
      }
    }
  }

  /** The loop succeeds exactly when every request can be answered in turn, with those answers. */
  lemma {:induction false} AssignExact(cfg: Config, used: set<int>, reserved: set<int>, requests: seq<PortRequest>, bs: seq<PortBinding>)
    ensures Assign(cfg, used, reserved, requests) == Ok(bs) <==> AllAnswered(cfg, used + reserved, requests, bs)
    decreases |requests|
  {
    if requests != [] && bs != [] {
      AssignOneAnswers(cfg, used, reserved, requests[0]);
      var b := bs[0];
      assert used + (reserved + {b.host}) == used + reserved + {b.host};
      AssignExact(cfg, used, reserved + {b.host}, requests[1..], bs[1..]);
      if |bs| == |requests| {
        AllAnsweredUncons(cfg, used + reserved, requests, bs);
      }
      assert bs == [b] + bs[1..];
      AssignLength(cfg, used, reserved, requests);
    } else {
      AssignLength(cfg, used, reserved, requests);
    }
  }

  lemma {:induction false} AssignLength(cfg: Config, used: set<int>, reserved: set<int>, requests: seq<PortRequest>)
    ensures var r := Assign(cfg, used, reserved, requests); r.Ok? ==> |r.value| == |requests|
    decreases |requests|
  {
    if requests != [] {
      match AssignOne(cfg, used, reserved, requests[0])
      case Err(_) =>
      case Ok(b) => AssignLength(cfg, used, reserved + {b.host}, requests[1..]);
    }
  }

  lemma AnsweredHostsDiffer(cfg: Config, taken: set<int>, requests: seq<PortRequest>, bs: seq<PortBinding>)
    requires AllAnswered(cfg, taken, requests, bs)
    ensures forall i, j :: 0 <= i < j < |bs| ==> bs[i].host != bs[j].host
    ensures HostPorts(bs) !! taken
  {
    forall i, j | 0 <= i < j < |bs| ensures bs[i].host != bs[j].host {
      assert bs[..j][i] == bs[i];
      assert bs[i].host in HostPorts(bs[..j]);
    }
  }

  lemma HostOrder()
    ensures StrictWeakOrder(HostLess)
  {
  }

  /**
   A successful call returns the answers to all requests, each answered in its turn, in strictly
   increasing order of host port and clear of every port already in use; and a call fails only when
   no such answers exist.
   */
  lemma PortsExact(cfg: Config, existing: seq<VmMeta>, requests: seq<PortRequest>)
    ensures match Ports(cfg, existing, requests)
      case Ok(out) => exists bs ::
        && AllAnswered(cfg, UsedPorts(existing), requests, bs)
        && multiset(out) == multiset(bs)
        && (forall i, j :: 0 <= i < j < |out| ==> out[i].host < out[j].host)
        && HostPorts(out) !! UsedPorts(existing)
      case Err(_) => forall bs :: !AllAnswered(cfg, UsedPorts(existing), requests, bs)
  {
    var used := UsedPorts(existing);
    assert used + {} == used;
    match Assign(cfg, used, {}, requests)
    case Err(_) =>
      forall bs ensures !AllAnswered(cfg, used, requests, bs) {
        AssignExact(cfg, used, {}, requests, bs);
      }
    case Ok(bs) =>
      AssignExact(cfg, used, {}, requests, bs);
      AnsweredHostsDiffer(cfg, used, requests, bs);
      HostOrder();
      SortSorts(HostLess, bs);
      var out := Sort(HostLess, bs);
      MultisetMembers(bs, out);
      StrictlySorted(bs, out);
      assert HostPorts(out) == HostPorts(bs);
  }

  lemma {:induction false} DistinctMultiplicity(bs: seq<PortBinding>, x: PortBinding)
    requires forall i, j :: 0 <= i < j < |bs| ==> bs[i].host != bs[j].host
    ensures multiset(bs)[x] <= 1
  {
    if bs != [] {
      assert bs == [bs[0]] + bs[1..];
      DistinctMultiplicity(bs[1..], x);
      if x == bs[0] {
        assert x !in bs[1..];
      }
    }
  }

  lemma StrictlySorted(bs: seq<PortBinding>, out: seq<PortBinding>)
    requires multiset(bs) == multiset(out) && Sorted(HostLess, out)
    requires forall i, j :: 0 <= i < j < |bs| ==> bs[i].host != bs[j].host
    ensures forall i, j :: 0 <= i < j < |out| ==> out[i].host < out[j].host
  {
    MultisetMembers(bs, out);
    forall i, j | 0 <= i < j < |out| ensures out[i].host < out[j].host {
      var x, y := out[i], out[j];
      assert x in bs && y in bs && !HostLess(y, x);
      if x == y {
        Counted(out, i, j);
        DistinctMultiplicity(bs, x);
      }
    }
  }

  /** The ports from `lo` up to, not including, `hi`. */
  ghost function PortRange(lo: int, hi: int): (s: set<int>)
    ensures forall q :: q in s <==> lo <= q < hi
    decreases hi - lo
  {
    if lo < hi then {lo} + PortRange(lo + 1, hi) else {}
  }

  /**
   The out-of-ports answer is right for every set of taken ports exactly when port 0 lies outside
   the configured range: inside it, a free port 0 reads as "none".
   */
  lemma ExhaustionExact(cfg: Config)
    ensures (forall taken :: FreePortFrom(cfg.portStart, cfg.portEnd, taken) == 0 <==> RangeFull(cfg, taken))
       <==> !(cfg.portStart <= 0 <= cfg.portEnd)
  {
    if cfg.portStart <= 0 <= cfg.portEnd {
      var below := PortRange(cfg.portStart, 0);
      FreePortIsLowest(cfg, cfg.portStart, below);
      assert LowestFree(cfg, below, 0);
      assert FreePortFrom(cfg.portStart, cfg.portEnd, below) == 0 && !RangeFull(cfg, below);
    } else {
      forall taken
        ensures FreePortFrom(cfg.portStart, cfg.portEnd, taken) == 0 <==> RangeFull(cfg, taken)
      {
        FreePortIsLowest(cfg, cfg.portStart, taken);
      }
    }
  }

  predicate IsPort(n: int) {
    1 <= n <= 65535
  }

  ghost predicate PortsValid(ports: seq<PortBinding>) {
    forall b :: b in ports ==> IsPort(b.host)
  }

  /** Whatever valid ports are in use, the ports handed out are valid too. */
  ghost predicate HandsOutPorts(cfg: Config, existing: seq<VmMeta>, requests: seq<PortRequest>) {
    (forall vm :: vm in existing ==> PortsValid(vm.ports)) && Ports(cfg, existing, requests).Ok? ==>
      PortsValid(Ports(cfg, existing, requests).value)
  }

  /** The configured range is empty, or starts at 0 and so hands out nothing, or consists of ports. */
  predicate RangeSound(cfg: Config) {
    cfg.portStart > cfg.portEnd || cfg.portStart == 0 || (IsPort(cfg.portStart) && IsPort(cfg.portEnd))
  }

  lemma SoundRangeHandsOut(cfg: Config, existing: seq<VmMeta>, requests: seq<PortRequest>)
    requires RangeSound(cfg)
    ensures HandsOutPorts(cfg, existing, requests)
  {
    PortsExact(cfg, existing, requests);
    if Ports(cfg, existing, requests).Ok? && forall vm :: vm in existing ==> PortsValid(vm.ports) {
      var out := Ports(cfg, existing, requests).value;
      var bs :| AllAnswered(cfg, UsedPorts(existing), requests, bs) && multiset(out) == multiset(bs);
      MultisetMembers(bs, out);
      AnsweredPorts(cfg, UsedPorts(existing), requests, bs);
    }
  }

  /** Port 0 is never taken, so a range that starts there has port 0 as its lowest free one. */
  lemma {:induction false} AnsweredPorts(cfg: Config, used: set<int>, requests: seq<PortRequest>, bs: seq<PortBinding>)
    requires RangeSound(cfg) && AllAnswered(cfg, used, requests, bs) && forall q :: q in used ==> IsPort(q)
    ensures PortsValid(bs)
    decreases |bs|
  {
    if bs != [] {
      var n := |bs| - 1;
      assert forall i :: 0 <= i < n ==> bs[..n][..i] == bs[..i];
      AnsweredPorts(cfg, used, requests[..n], bs[..n]);
      assert Answers(cfg, used + HostPorts(bs[..n]), requests[n], bs[n]);
      assert 0 !in used + HostPorts(bs[..n]);
      assert bs == bs[..n] + [bs[n]];
    }
  }

  /** Bindings that take the ports from `lo` up to, not including, `hi`. */
  function Taking(lo: int, hi: int): (ports: seq<PortBinding>)
    ensures forall q :: q in HostPorts(ports) <==> lo <= q < hi
    decreases hi - lo
  {
    if lo < hi then
      var first, rest := PortBinding(1, lo, "tcp"), Taking(lo + 1, hi);
      assert HostPorts([first] + rest) == {lo} + HostPorts(rest) by {
        assert forall b :: b in [first] + rest <==> b == first || b in rest;
      }
      [first] + rest
    else []
  }

  /** A range that is not sound hands out a number that is no port: its first, or the first after 65535. */
  lemma UnsoundRangeHandsOut(cfg: Config)
    requires !RangeSound(cfg)
    ensures exists existing, requests :: !HandsOutPorts(cfg, existing, requests)
  {
    var bad := if IsPort(cfg.portStart) then 65536 else cfg.portStart;
    var vm := VmMeta("", 0, "", Taking(cfg.portStart, bad), map[], map[]);
    var requests := [PortRequest(1, 0, "")];
    assert UsedPorts([vm]) == HostPorts(vm.ports);
    TakenRange(cfg, bad);
    assert PortsValid(vm.ports) by {
      forall b | b in vm.ports ensures IsPort(b.host) { assert b.host in HostPorts(vm.ports); }
    }
    assert !HandsOutPorts(cfg, [vm], requests);
  }

  /** With everything before `bad` taken, one automatic request gets `bad`. */
  lemma TakenRange(cfg: Config, bad: int)
    requires cfg.portStart <= bad <= cfg.portEnd && bad != 0
    ensures Ports(cfg, [VmMeta("", 0, "", Taking(cfg.portStart, bad), map[], map[])], [PortRequest(1, 0, "")]) == Ok([PortBinding(1, bad, "tcp")])
  {
    var vm := VmMeta("", 0, "", Taking(cfg.portStart, bad), map[], map[]);
    var used := UsedPorts([vm]);
    assert used == HostPorts(vm.ports);
    FreePortIsLowest(cfg, cfg.portStart, used);
    assert LowestFree(cfg, used, bad);
    var req, b := PortRequest(1, 0, ""), PortBinding(1, bad, "tcp");
    assert used + {} == used && Protocol("") == "tcp";
    assert AssignOne(cfg, used, {}, req) == Ok(b);
    assert [req][1..] == [] && [b] + [] == [b];
    assert Assign(cfg, used, {}, [req]) == Ok([b]);
    assert Sort(HostLess, [b][1..]) == [];
  }

  /** The ports handed out are always ports exactly when the range is sound; the configuration does not check it. */
  lemma HostPortsExact(cfg: Config)
    ensures (forall existing, requests :: HandsOutPorts(cfg, existing, requests)) <==> RangeSound(cfg)
  {
    if RangeSound(cfg) {
      forall existing, requests ensures HandsOutPorts(cfg, existing, requests) {
        SoundRangeHandsOut(cfg, existing, requests);
      }
    } else {
      UnsoundRangeHandsOut(cfg);
    }
  }

  // ----- both together

  /** Allocate: the address first, then the ports. */
  function Allocation(cfg: Config, existing: seq<VmMeta>, requests: seq<PortRequest>)
    : Result<(string, seq<PortBinding>), AllocError>
    requires WellFormed(cfg.cidr)
  {
    match GuestAddress(cfg.cidr, existing)
    case Err(e) => Err(e)
    case Ok(ip) =>
      match Ports(cfg, existing, requests)
      case Err(e) => Err(e)
      case Ok(ports) => Ok((ip, ports))
  }

  method Allocate(cfg: Config, existing: seq<VmMeta>, requests: seq<PortRequest>)
    returns (r: Result<(string, seq<PortBinding>), AllocError>)
    requires WellFormed(cfg.cidr)
    ensures r == Allocation(cfg, existing, requests)
  {
    var ip := AllocateGuestIp(cfg.cidr, existing);
    if ip.Err? { return Err(ip.error); }
    var ports := AllocatePorts(cfg, existing, requests);
    if ports.Err? { return Err(ports.error); }
    return Ok((ip.value, ports.value));
  }

  /** What an allocation promises the rest of the system. */
  lemma AllocationClear(cfg: Config, existing: seq<VmMeta>, requests: seq<PortRequest>)
    requires WellFormed(cfg.cidr) && Allocation(cfg, existing, requests).Ok?
    ensures var (ip, ports) := Allocation(cfg, existing, requests).value;
      && Usable(cfg.cidr)
      && (exists k: nat :: 2 <= k <= Size(cfg.cidr) - 2 && ip == HostText(cfg.cidr, k))
      && (forall vm :: vm in existing ==> vm.guestIp != ip && HostPorts(vm.ports) !! HostPorts(ports))
  {
    GuestAddressIsLowestFree(cfg.cidr, existing);
    PortsExact(cfg, existing, requests);
    var (ip, ports) := Allocation(cfg, existing, requests).value;
    var k: nat :| 2 <= k <= Size(cfg.cidr) - 2 && ip == HostText(cfg.cidr, k);
    assert ip != "" by { ParseRender(HostAddress(cfg.cidr, k)); }
    forall vm | vm in existing ensures HostPorts(vm.ports) !! HostPorts(ports) {
      assert HostPorts(vm.ports) <= UsedPorts(existing);
    }
  }
}
