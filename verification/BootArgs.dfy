/**
 internal/firecracker/config.go: kernel boot arguments and the gateway derived from a guest address,
 together with the host scripts that derive the same things from text
 (scripts/mergen-net-setup, scripts/mergen-configure-start).
 */
module BootArgs {
  import opened Text
  import opened Ipv4
  import Allocator

  const CONSOLE: string := "console=ttyS0"
  const REBOOT: string := "reboot=k"
  const PANIC: string := "panic=1"
  const PCI: string := "pci=off"
  const DEFAULT_BOOT_ARGS: string := CONSOLE + " " + REBOOT + " " + PANIC + " " + PCI
  const GUEST_MASK: string := "255.255.255.0"
  const GUEST_INTERFACE: string := "eth0"

  // ----- the gateway

  /** Address 1 of the guest's /24, or 2 when the guest itself ends in 1. */
  function Gateway(guest: Addr): Addr {
    guest.(d := if guest.d == 1 then 2 else 1)
  }

  /** The guest and its gateway share the first three bytes and differ in the last. */
  lemma GatewayIsNeighbour(guest: Addr)
    ensures Gateway(guest) != guest
    ensures ToU32(Gateway(guest)) / 256 == ToU32(guest) / 256
  {
    assert ToU32(guest) / 256 == guest.a * 0x1_0000 + guest.b * 0x100 + guest.c;
    assert ToU32(Gateway(guest)) / 256 == guest.a * 0x1_0000 + guest.b * 0x100 + guest.c;
  }

  /** An address the allocator can hand out from the block. */
  ghost predicate Allocatable(p: Cidr, x: Addr)
    requires Allocator.Usable(p)
  {
    exists k: nat :: 2 <= k <= Size(p) - 2 && x == Allocator.HostAddress(p, k)
  }

  lemma LastByte(v: U32)
    ensures FromU32(v).d == v % 256
  {
  }

  /** `m` divides 256: the multiple `m * q` starts a run of `m` numbers inside one run of 256. */
  lemma InsideRun(m: nat, parts: nat, q: nat, k: nat)
    requires m * parts == 256 && k < m && parts > 0
    ensures (m * q + k) % 256 == m * (q % parts) + k
  {
    DivMod(q, parts);
    var d, j := q / parts, q % parts;
    calc {
      m * q;
      m * (parts * d + j);
      m * (parts * d) + m * j;
      (m * parts) * d + m * j;
      256 * d + m * j;
    }
    MulStep(m, j, parts);
    QuotientUnique(m * q + k, 256, d, m * j + k);
  }

  /** In a block of /24 or longer, no guest address ends in 1. */
  lemma SmallBlockAvoidsOne(p: Cidr, k: nat)
    requires Allocator.Usable(p) && p.bits >= 24 && 2 <= k <= Size(p) - 2
    ensures Allocator.HostAddress(p, k).d != 1
  {
    var m, q, parts := Size(p), p.addr / Size(p), Pow2(p.bits - 24);
    assert m * parts == 256 by {
      Pow2Adds(HostBits(p), p.bits - 24);
      Pow2Values();
    }
    HostInBlock(p, k);
    DivMod(p.addr, m);
    InsideRun(m, parts, q, k);
    LastByte(Network(p) + k);
  }

  lemma MulAssociates(a: nat, b: nat, c: nat)
    ensures (a * b) * c == a * (b * c)
  {
  }

  lemma LargeBlockSize(p: Cidr)
    requires Allocator.Usable(p) && p.bits <= 23
    ensures Size(p) >= 512 && Size(p) == 256 * Pow2(HostBits(p) - 8)
  {
    Pow2Values();
    Pow2Grows(9, HostBits(p));
    Pow2Adds(8, HostBits(p) - 8);
  }

  lemma LargeBlockMultiple(p: Cidr)
    requires Allocator.Usable(p) && p.bits <= 23
    ensures Network(p) == 256 * (Pow2(HostBits(p) - 8) * (p.addr / Size(p)))
  {
    LargeBlockSize(p);
    DivMod(p.addr, Size(p));
    MulAssociates(256, Pow2(HostBits(p) - 8), p.addr / Size(p));
  }

  /** In a shorter block, guest 257 ends in 1 and is the gateway of guest 258. */
  lemma LargeBlockHitsOne(p: Cidr)
    requires Allocator.Usable(p) && p.bits <= 23
    ensures 258 <= Size(p) - 2
    ensures Gateway(Allocator.HostAddress(p, 258)) == Allocator.HostAddress(p, 257)
  {
    LargeBlockSize(p);
    LargeBlockMultiple(p);
    var w := Pow2(HostBits(p) - 8) * (p.addr / Size(p));
    HostInBlock(p, 257);
    HostInBlock(p, 258);
    var n := Network(p);
    QuotientUnique(n + 257, 256, w + 1, 1);
    QuotientUnique(n + 258, 256, w + 1, 2);
    SameUpper(n + 257, n + 258);
  }

  lemma SameUpper(u: U32, v: U32)
    requires u / 256 == v / 256 && u % 256 == 1 && v % 256 == 2
    ensures Gateway(FromU32(v)) == FromU32(u)
  {
    assert u / 0x1_0000 == u / 256 / 256 && v / 0x1_0000 == v / 256 / 256;
    assert u / 0x100_0000 == u / 256 / 256 / 256 && v / 0x100_0000 == v / 256 / 256 / 256;
  }

  /** No guest of the block is ever the gateway of a guest of the block exactly when the block is a /24 or longer. */
  lemma GatewaysClearExactly(p: Cidr)
    requires Allocator.Usable(p)
    ensures (forall x, y :: Allocatable(p, x) && Allocatable(p, y) ==> Gateway(x) != y) <==> p.bits >= 24
  {
    if p.bits >= 24 {
      forall x, y | Allocatable(p, x) && Allocatable(p, y) ensures Gateway(x) != y {
        var k: nat :| 2 <= k <= Size(p) - 2 && x == Allocator.HostAddress(p, k);
        var l: nat :| 2 <= l <= Size(p) - 2 && y == Allocator.HostAddress(p, l);
        SmallBlockAvoidsOne(p, k);
        SmallBlockAvoidsOne(p, l);
      }
    } else {
      LargeBlockHitsOne(p);
      assert Allocatable(p, Allocator.HostAddress(p, 258)) && Allocatable(p, Allocator.HostAddress(p, 257));
    }
  }

  // ----- the scripts' view, on text

  /** Four runs of one to three digits between dots: what the scripts' pattern accepts. */
  predicate LooksLikeIpv4(s: string) {
    var f := Split(s, '.');
    |f| == 4 && forall i :: 0 <= i < 4 ==> 1 <= |f[i]| <= 3 && AllDigits(f[i])
  }

  /** derive_host_ip_from_guest in mergen-configure-start */
  function DerivedHostIp(guestIp: string): Option<string> {
    if LooksLikeIpv4(guestIp) then
      var f := Split(guestIp, '.');
      Some(f[0] + "." + f[1] + "." + f[2] + "." + (if f[3] == "1" then "2" else "1"))
    else None
  }

  lemma {:induction false} ShortDecimal(n: nat)
    ensures (n < 10 ==> |Decimal(n)| == 1) && (n < 100 ==> |Decimal(n)| <= 2) && (n < 1000 ==> |Decimal(n)| <= 3)
  {
    if n >= 10 { ShortDecimal(n / 10); }
  }

  lemma RenderedLooks(x: Addr)
    ensures LooksLikeIpv4(Render(x))
    ensures Render(x) == Decimal(x.a) + "." + Decimal(x.b) + "." + Decimal(x.c) + "." + Decimal(x.d)
  {
    RenderText(x);
    RenderFields(x);
    ByteLooks(x.a); ByteLooks(x.b); ByteLooks(x.c); ByteLooks(x.d);
  }

  lemma ByteLooks(n: nat)
    requires n < 256
    ensures 1 <= |Decimal(n)| <= 3 && AllDigits(Decimal(n))
  {
    DecimalReads(n);
    ShortDecimal(n);
  }

  /** The configure script derives, from the text of a guest address, the text of its gateway. */
  lemma ScriptDerivesGateway(x: Addr)
    ensures DerivedHostIp(Render(x)) == Some(Render(Gateway(x)))
  {
    RenderFields(x);
    RenderedLooks(x);
    RenderedLooks(Gateway(x));
    DecimalReads(x.d);
    assert Decimal(1) == "1" && Decimal(2) == "2";
    assert x.d != 1 ==> Decimal(x.d) != "1" by {
      assert DigitsValue("1") == 1 by { DecimalReads(1); }
    }
  }

  // ----- boot arguments

  function IpArg(guest: string, gateway: string, mask: string, iface: string): string {
    "ip=" + guest + "::" + gateway + ":" + mask + "::" + iface + ":off"
  }

  /** buildKernelIPArg */
  function KernelIpArg(guestIp: string): Option<string> {
    match ParseAddr(Trim(guestIp))
    case None => None
    case Some(x) => Some(IpArg(Render(x), Render(Gateway(x)), GUEST_MASK, GUEST_INTERFACE))
  }

  predicate IsIpToken(token: string) {
    "ip=" <= token
  }

  lemma IpTokenLetters(token: string)
    ensures IsIpToken(token) <==> |token| >= 3 && token[0] == 'i' && token[1] == 'p' && token[2] == '='
  {
    assert "ip="[0] == 'i' && "ip="[1] == 'p' && "ip="[2] == '=';
  }

  /** hasKernelArgWithPrefix(bootArgs, "ip=") */
  method HasIpArg(bootArgs: string) returns (found: bool)
    ensures found <==> HasIp(Fields(bootArgs))
  {
    var args := Fields(bootArgs);
    for i := 0 to |args|
      invariant !HasIp(args[..i])
    {
      if IsIpToken(args[i]) { return true; }
    }
    assert args[..|args|] == args;
    return false;
  }

  predicate HasIp(tokens: seq<string>) {
    exists i :: 0 <= i < |tokens| && IsIpToken(tokens[i])
  }

  function Requested(requested: string): string {
    if Trim(requested) == "" then DEFAULT_BOOT_ARGS else Trim(requested)
  }

  /** resolvedBootArgs */
  function Resolved(requested: string, guestIp: string): string {
    var bootArgs := Requested(requested);
    var arg := KernelIpArg(guestIp);
    var extended := if !HasIp(Fields(bootArgs)) && arg.Some? then bootArgs + " " + arg.value else bootArgs;
    Join(Fields(extended), " ")
  }

  method ResolveBootArgs(requested: string, guestIp: string) returns (bootArgs: string)
    ensures bootArgs == Resolved(requested, guestIp)
  {
    bootArgs := Trim(requested);
    if bootArgs == "" { bootArgs := DEFAULT_BOOT_ARGS; }
    var found := HasIpArg(bootArgs);
    if !found {
      var arg := KernelIpArg(guestIp);
      if arg.Some? { bootArgs := bootArgs + " " + arg.value; }
    }
    bootArgs := Join(Fields(bootArgs), " ");
  }

  lemma NoSpaceInDigits(s: string)
    requires AllDigits(s)
    ensures SpaceFree(s)
  {
  }

  lemma RenderSpaceFree(x: Addr)
    ensures SpaceFree(Render(x))
  {
    RenderedLooks(x);
    DecimalReads(x.a); DecimalReads(x.b); DecimalReads(x.c); DecimalReads(x.d);
    NoSpaceInDigits(Decimal(x.a)); NoSpaceInDigits(Decimal(x.b));
    NoSpaceInDigits(Decimal(x.c)); NoSpaceInDigits(Decimal(x.d));
  }

  lemma IpArgIsToken(guest: string, gateway: string)
    requires SpaceFree(guest) && SpaceFree(gateway)
    ensures IsToken(IpArg(guest, gateway, GUEST_MASK, GUEST_INTERFACE))
    ensures IsIpToken(IpArg(guest, gateway, GUEST_MASK, GUEST_INTERFACE))
  {
    var front, back := "ip=" + guest + "::" + gateway, ":" + GUEST_MASK + "::" + GUEST_INTERFACE + ":off";
    assert SpaceFree("ip=" + guest + "::");
    assert SpaceFree(front) && SpaceFree(back);
    assert IpArg(guest, gateway, GUEST_MASK, GUEST_INTERFACE) == front + back;
  }

  lemma KernelIpArgIsToken(guestIp: string)
    requires KernelIpArg(guestIp).Some?
    ensures IsToken(KernelIpArg(guestIp).value) && IsIpToken(KernelIpArg(guestIp).value)
  {
    var x := ParseAddr(Trim(guestIp)).value;
    RenderSpaceFree(x);
    RenderSpaceFree(Gateway(x));
    IpArgIsToken(Render(x), Render(Gateway(x)));
  }

  /**
   The result's tokens are the requested tokens (or the default ones), in order, followed by one ip=
   token exactly when none was requested and the guest address is a valid IPv4 address; they are
   separated by single blanks.
   */
  lemma ResolvedTokens(requested: string, guestIp: string)
    ensures var asked := if Fields(requested) == [] then Fields(DEFAULT_BOOT_ARGS) else Fields(requested);
      && Fields(Resolved(requested, guestIp)) ==
           asked + (if !HasIp(asked) && KernelIpArg(guestIp).Some? then [KernelIpArg(guestIp).value] else [])
      && Resolved(requested, guestIp) == Join(Fields(Resolved(requested, guestIp)), " ")
  {
    var bootArgs, arg := Requested(requested), KernelIpArg(guestIp);
    RequestedTokens(requested);
    var extended := bootArgs;
    if !HasIp(Fields(bootArgs)) && arg.Some? {
      KernelIpArgIsToken(guestIp);
      extended := bootArgs + " " + arg.value;
      OneMoreToken(bootArgs, arg.value);
    }
    FieldsAreTokens(extended);
    FieldsJoin(Fields(extended));
  }

  lemma RequestedTokens(requested: string)
    ensures Fields(Requested(requested)) ==
      if Fields(requested) == [] then Fields(DEFAULT_BOOT_ARGS) else Fields(requested)
  {
    FieldsTrim(requested);
    TrimTrims(requested);
    if Trim(requested) == "" {
      assert Fields(requested) == [];
    } else {
      assert Fields(Trim(requested)) != [];
    }
  }

  lemma OneMoreToken(s: string, token: string)
    requires IsToken(token)
    ensures Fields(s + " " + token) == Fields(s) + [token]
  {
    assert s + " " + token == s + (" " + token);
    FieldsAppend(s, " " + token);
    assert (" " + token)[1..] == token;
    FieldsOfToken(token);
  }

  /** With a valid guest address there is an ip= token in the end, asked for or added. */
  lemma ResolvedHasIp(requested: string, guestIp: string)
    requires KernelIpArg(guestIp).Some?
    ensures HasIp(Fields(Resolved(requested, guestIp)))
  {
    ResolvedTokens(requested, guestIp);
    KernelIpArgIsToken(guestIp);
    var asked := if Fields(requested) == [] then Fields(DEFAULT_BOOT_ARGS) else Fields(requested);
    var tokens := Fields(Resolved(requested, guestIp));
    if HasIp(asked) {
      assert tokens == asked;
    } else {
      assert tokens[|tokens| - 1] == KernelIpArg(guestIp).value;
    }
  }

  lemma ResolvedNotEmpty(requested: string, guestIp: string)
    ensures Fields(Resolved(requested, guestIp)) != []
  {
    ResolvedTokens(requested, guestIp);
    assert !IsSpace(DEFAULT_BOOT_ARGS[0]);
  }

  /** Resolving what was resolved changes nothing. */
  lemma ResolvedIdempotent(requested: string, guestIp: string)
    ensures Resolved(Resolved(requested, guestIp), guestIp) == Resolved(requested, guestIp)
  {
    var once := Resolved(requested, guestIp);
    ResolvedNotEmpty(requested, guestIp);
    if KernelIpArg(guestIp).Some? { ResolvedHasIp(requested, guestIp); }
    ResolvedTokens(requested, guestIp);
    ResolvedTokens(once, guestIp);
    assert Fields(Resolved(once, guestIp)) == Fields(once);
  }

  /**
   augment_boot_source_ip_arg in mergen-configure-start, on the boot arguments.  The script's
   variables are parameters; an empty one is unset.
   */
  function Augmented(bootArgs: string, guestIp: string, hostIp: string, mask: string, iface: string): string {
    if guestIp == "" then bootArgs
    else if HasIp(Words(bootArgs)) then bootArgs
    else
      var host := if hostIp != "" then Some(hostIp) else DerivedHostIp(guestIp);
      if host.None? then bootArgs
      else
        var arg := IpArg(guestIp, host.value, if mask == "" then GUEST_MASK else mask, if iface == "" then GUEST_INTERFACE else iface);
        Join(Fields(if bootArgs == "" then arg else bootArgs + " " + arg), " ")
  }

  /** The lines of the text after its blanks are turned into newlines. */
  function Words(s: string): seq<string> {
    Split(seq(|s|, i requires 0 <= i < |s| => if s[i] == '\n' then ' ' else s[i]), ' ')
  }

  lemma {:induction false} JoinedTokensSplit(tokens: seq<string>)
    requires tokens != [] && forall i :: 0 <= i < |tokens| ==> IsToken(tokens[i])
    ensures Split(Join(tokens, " "), ' ') == tokens
    ensures '\n' !in Join(tokens, " ")
  {
    assert ' ' !in tokens[0] && '\n' !in tokens[0];
    if |tokens| == 1 {
      SplitNone(tokens[0], ' ');
    } else {
      JoinedTokensSplit(tokens[1..]);
      SplitAppend(tokens[0], Join(tokens[1..], " "), ' ');
    }
  }

  /**
   Whatever the script's variables are, it leaves the boot arguments of a VM alone when the VM was
   given a guest address the daemon could use.
   */
  lemma AugmentIsNoop(requested: string, guestIp: string, envGuestIp: string, hostIp: string, mask: string, iface: string)
    requires ParseAddr(Trim(guestIp)).Some?
    ensures Augmented(Resolved(requested, guestIp), envGuestIp, hostIp, mask, iface) == Resolved(requested, guestIp)
  {
    var r := Resolved(requested, guestIp);
    var tokens := Fields(r);
    ResolvedTokens(requested, guestIp);
    FieldsAreTokens(r);
    ResolvedHasIp(requested, guestIp);
    JoinedTokensSplit(tokens);
    assert seq(|r|, i requires 0 <= i < |r| => if r[i] == '\n' then ' ' else r[i]) == r;
    assert Words(r) == tokens;
  }

  /** Every address the allocator hands out, as text, is one the daemon can use. */
  lemma AllocatedIsUsable(p: Cidr, k: nat)
    requires Allocator.Usable(p) && 2 <= k <= Size(p) - 2
    ensures ParseAddr(Trim(Allocator.HostText(p, k))) == Some(Allocator.HostAddress(p, k))
  {
    var x := Allocator.HostAddress(p, k);
    ParseRender(x);
    RenderSpaceFree(x);
    TrimTrims(Render(x));
  }
}
