/**
 A VM's gateway as the host sees it: the variables the daemon writes for the scripts (baseEnv in
 internal/manager/service.go), the tap address of scripts/mergen-net-setup, the host address of
 scripts/mergen-configure-start, and the gateway in the boot arguments.
 */
module HostNetwork {
  import opened Text
  import opened Ipv4
  import opened ControlPlane
  import opened BootArgs
  import EnvFile
  import ResourceSafety

  // ----- the variables

  type Env = map<string, string>

  /** ${name:-}: missing and empty are the same. */
  function Var(env: Env, name: string): string {
    if name in env then env[name] else ""
  }

  /** `own`, with those of the extra variables whose names are in `names` over them; blank names are skipped. */
  function Overlaid(own: Env, extra: Env, names: set<string>): Env {
    own + map k | k in extra && k in names && Trim(k) != "" :: extra[k]
  }

  /** The daemon's own variables, with the request's extra ones over them. */
  function VmEnv(own: Env, extra: Env): Env {
    Overlaid(own, extra, extra.Keys)
  }

  lemma OverlaidNext(own: Env, extra: Env, names: set<string>, key: string)
    requires key in extra && key !in names
    ensures Overlaid(own, extra, names + {key}) ==
      if Trim(key) == "" then Overlaid(own, extra, names) else Overlaid(own, extra, names)[key := extra[key]]
  {
  }

  /** The last loop of baseEnv, which meets the extra variables in whatever order the runtime picks. */
  method AddExtra(own: Env, extra: Env) returns (env: Env)
    ensures env == VmEnv(own, extra)
  {
    env := own;
    var todo := extra.Keys;
    ghost var done: set<string> := {};
    while todo != {}
      invariant todo + done == extra.Keys && todo !! done && env == Overlaid(own, extra, done)
      decreases todo
    {
      var key :| key in todo;
      OverlaidNext(own, extra, done, key);
      todo := todo - {key};
      done := done + {key};
      if Trim(key) == "" { continue; }
      env := env[key := extra[key]];
    }
    assert done == extra.Keys;
  }

  // ----- what the scripts make of them

  function Dotted(a: string, b: string, c: string, d: string): string {
    a + "." + b + "." + c + "." + d
  }

  /** Address 1 of the network in the guest's text: its first three fields, as written. */
  function NetworkFirst(guestIp: string): Option<string> {
    if LooksLikeIpv4(guestIp) then
      var f := Split(guestIp, '.');
      Some(Dotted(f[0], f[1], f[2], "1"))
    else None
  }

  /** mergen-net-setup: the address the tap is given, if any. */
  function TapHostIp(env: Env): Option<string> {
    if Var(env, "MGN_HOST_IP") != "" then Some(Var(env, "MGN_HOST_IP")) else NetworkFirst(Var(env, "MGN_GUEST_IP"))
  }

  /** mergen-configure-start: the host address it would put into an ip= argument. */
  function ConfigureHostIp(env: Env): Option<string> {
    if Var(env, "MGN_HOST_IP") != "" then Some(Var(env, "MGN_HOST_IP")) else DerivedHostIp(Var(env, "MGN_GUEST_IP"))
  }

  /** The boot arguments as they reach the VM: those in vm.json, after mergen-configure-start. */
  function FinalBootArgs(env: Env, requested: string, guestIp: string): string {
    Augmented(Resolved(requested, guestIp),
              Var(env, "MGN_GUEST_IP"), Var(env, "MGN_HOST_IP"), Var(env, "MGN_GUEST_NETMASK"), Var(env, "MGN_GUEST_IFACE"))
  }

  /** ip=client:server:gateway:... */
  function GatewayField(token: string): Option<string> {
    var f := Split(token, ':');
    if |f| > 2 then Some(f[2]) else None
  }

  /** The gateway of the last ip= token, which is the one that takes effect. */
  function LastGateway(tokens: seq<string>): Option<string> {
    if tokens == [] then None
    else if IsIpToken(tokens[|tokens| - 1]) then GatewayField(tokens[|tokens| - 1])
    else LastGateway(tokens[..|tokens| - 1])
  }

  function BootGateway(bootArgs: string): Option<string> {
    LastGateway(Fields(bootArgs))
  }

  // ----- the gateway in the boot arguments

  lemma NoColonInDigits(s: string)
    requires AllDigits(s)
    ensures ':' !in s && '.' !in s
  {
  }

  lemma RenderHasNoColon(x: Addr)
    ensures ':' !in Render(x)
  {
    RenderedLooks(x);
    DecimalReads(x.a); DecimalReads(x.b); DecimalReads(x.c); DecimalReads(x.d);
    NoColonInDigits(Decimal(x.a)); NoColonInDigits(Decimal(x.b));
    NoColonInDigits(Decimal(x.c)); NoColonInDigits(Decimal(x.d));
  }

  /** Seven fields with colons between them. */
  function Seven(a: string, b: string, c: string, d: string, e: string, f: string, g: string): string {
    a + [':'] + (b + [':'] + (c + [':'] + (d + [':'] + (e + [':'] + (f + [':'] + g)))))
  }

  lemma SevenFields(a: string, b: string, c: string, d: string, e: string, f: string, g: string)
    requires ':' !in a && ':' !in b && ':' !in c && ':' !in d && ':' !in e && ':' !in f && ':' !in g
    ensures Split(Seven(a, b, c, d, e, f, g), ':') == [a, b, c, d, e, f, g]
  {
    SplitNone(g, ':');
    FieldFirst(f, g, [g]);
    FieldFirst(e, f + [':'] + g, [f, g]);
    FieldFirst(d, e + [':'] + (f + [':'] + g), [e, f, g]);
    FieldFirst(c, d + [':'] + (e + [':'] + (f + [':'] + g)), [d, e, f, g]);
    FieldFirst(b, c + [':'] + (d + [':'] + (e + [':'] + (f + [':'] + g))), [c, d, e, f, g]);
    FieldFirst(a, b + [':'] + (c + [':'] + (d + [':'] + (e + [':'] + (f + [':'] + g)))), [b, c, d, e, f, g]);
  }

  lemma FieldFirst(a: string, text: string, fields: seq<string>)
    requires ':' !in a && Split(text, ':') == fields
    ensures Split(a + [':'] + text, ':') == [a] + fields
  {
    SplitAppend(a, text, ':');
  }

  lemma IpArgParts(guest: string, gateway: string, mask: string, iface: string)
    ensures IpArg(guest, gateway, mask, iface) == Seven("ip=" + guest, "", gateway, mask, "", iface, "off")
  {
    var tail := mask + [':'] + ("" + [':'] + (iface + [':'] + "off"));
    assert "::" == [':'] + [':'] && ":off" == [':'] + "off";
    assert mask + "::" + iface + ":off" == tail;
    assert IpArg(guest, gateway, mask, iface) == "ip=" + guest + "::" + gateway + ":" + tail;
  }

  /** The argument, field by field. */
  lemma IpArgFields(guest: string, gateway: string)
    requires ':' !in guest && ':' !in gateway
    ensures Split(IpArg(guest, gateway, GUEST_MASK, GUEST_INTERFACE), ':') ==
      ["ip=" + guest, "", gateway, "255.255.255.0", "", "eth0", "off"]
  {
    IpArgParts(guest, gateway, GUEST_MASK, GUEST_INTERFACE);
    SevenFields("ip=" + guest, "", gateway, GUEST_MASK, "", GUEST_INTERFACE, "off");
  }

  /** With a valid guest address the argument reads back as that address and its gateway. */
  lemma KernelIpArgFields(guestIp: string)
    requires ParseAddr(Trim(guestIp)).Some?
    ensures var x := ParseAddr(Trim(guestIp)).value;
      && KernelIpArg(guestIp).Some?
      && Split(KernelIpArg(guestIp).value, ':') == ["ip=" + Render(x), "", Render(Gateway(x)), "255.255.255.0", "", "eth0", "off"]
  {
    var x := ParseAddr(Trim(guestIp)).value;
    RenderHasNoColon(x);
    RenderHasNoColon(Gateway(x));
    IpArgFields(Render(x), Render(Gateway(x)));
  }

  lemma KernelIpArgGateway(guestIp: string)
    requires ParseAddr(Trim(guestIp)).Some?
    ensures KernelIpArg(guestIp).Some?
    ensures GatewayField(KernelIpArg(guestIp).value) == Some(Render(Gateway(ParseAddr(Trim(guestIp)).value)))
  {
    KernelIpArgFields(guestIp);
  }

  /**
   When the request brings no ip= token, the boot arguments end in one that reads back, field by field,
   as the guest's own address, its gateway, and the mask and interface in plain text.
   */
  lemma LastTokenFields(requested: string, guestIp: string)
    requires ParseAddr(Trim(guestIp)).Some? && !HasIp(Fields(requested))
    ensures var tokens, x := Fields(Resolved(requested, guestIp)), ParseAddr(Trim(guestIp)).value;
      && tokens != []
      && Split(tokens[|tokens| - 1], ':') == ["ip=" + Render(x), "", Render(Gateway(x)), "255.255.255.0", "", "eth0", "off"]
  {
    ResolvedTokens(requested, guestIp);
    DefaultHasNoIp();
    KernelIpArgFields(guestIp);
  }

  /** With nothing requested and no guest address, the arguments are the four default tokens. */
  lemma DefaultTokens()
    ensures Fields(Resolved("", "")) == ["console=ttyS0", "reboot=k", "panic=1", "pci=off"]
  {
    ResolvedTokens("", "");
    DefaultsAreTokens();
    FourTokens(CONSOLE, REBOOT, PANIC, PCI);
    NoAddressInBlank();
  }

  lemma NoAddressInBlank()
    ensures ParseAddr(Trim("")) == None
  {
    assert Trim("") == "";
    assert Split("", '.') == [""];
  }

  /**
   Whatever the scripts' variables are, the gateway a VM boots with is the one the request's own ip=
   token names, if it brings one, and the one derived from the guest address otherwise.
   */
  lemma BootGatewayIs(env: Env, requested: string, guestIp: string)
    requires ParseAddr(Trim(guestIp)).Some?
    ensures BootGateway(FinalBootArgs(env, requested, guestIp)) ==
      if HasIp(Fields(requested)) then BootGateway(requested)
      else Some(Render(Gateway(ParseAddr(Trim(guestIp)).value)))
  {
    var x, arg := ParseAddr(Trim(guestIp)).value, KernelIpArg(guestIp).value;
    AugmentIsNoop(requested, guestIp, Var(env, "MGN_GUEST_IP"), Var(env, "MGN_HOST_IP"), Var(env, "MGN_GUEST_NETMASK"), Var(env, "MGN_GUEST_IFACE"));
    ResolvedTokens(requested, guestIp);
    DefaultHasNoIp();
    KernelIpArgIsToken(guestIp);
    var tokens := Fields(Resolved(requested, guestIp));
    if HasIp(Fields(requested)) {
      assert tokens == Fields(requested);
      return;
    }
    assert tokens[|tokens| - 1] == arg;
    KernelIpArgGateway(guestIp);
  }

  lemma DefaultHasNoIp()
    ensures !HasIp(Fields(DEFAULT_BOOT_ARGS))
  {
    DefaultsAreTokens();
    FourTokens(CONSOLE, REBOOT, PANIC, PCI);
  }

  lemma DefaultsAreTokens()
    ensures IsToken(CONSOLE) && IsToken(REBOOT) && IsToken(PANIC) && IsToken(PCI)
    ensures !IsIpToken(CONSOLE) && !IsIpToken(REBOOT) && !IsIpToken(PANIC) && !IsIpToken(PCI)
  {
    assert CONSOLE[0] == 'c' && REBOOT[0] == 'r' && PANIC[0] == 'p' && PCI[0] == 'p' && "ip="[0] == 'i';
  }

  lemma FourTokens(a: string, b: string, c: string, d: string)
    requires IsToken(a) && IsToken(b) && IsToken(c) && IsToken(d)
    ensures Fields(a + " " + b + " " + c + " " + d) == [a, b, c, d]
  {
    FieldsOfToken(a);
    OneMoreToken(a, b);
    OneMoreToken(a + " " + b, c);
    OneMoreToken(a + " " + b + " " + c, d);
  }

  // ----- the tap

  /** The text has the form of an address and its first three fields are the guest's, in plain decimal. */
  predicate NamesNetwork(text: string, guest: Addr) {
    LooksLikeIpv4(text) && Split(text, '.')[..3] == [Decimal(guest.a), Decimal(guest.b), Decimal(guest.c)]
  }

  lemma DottedFields(a: string, b: string, c: string, d: string)
    requires AllDigits(a) && AllDigits(b) && AllDigits(c) && AllDigits(d)
    ensures Split(Dotted(a, b, c, d), '.') == [a, b, c, d]
  {
    NoColonInDigits(a); NoColonInDigits(b); NoColonInDigits(c); NoColonInDigits(d);
    FourParts(a, b, c, d);
    assert Dotted(a, b, c, d) == a + ['.'] + (b + ['.'] + (c + ['.'] + d));
  }

  lemma FourParts(a: string, b: string, c: string, d: string)
    requires '.' !in a && '.' !in b && '.' !in c && '.' !in d
    ensures Split(a + ['.'] + (b + ['.'] + (c + ['.'] + d)), '.') == [a, b, c, d]
  {
    SplitNone(d, '.');
    SplitAppend(c, d, '.');
    SplitAppend(b, c + ['.'] + d, '.');
    SplitAppend(a, b + ['.'] + (c + ['.'] + d), '.');
  }

  /** A network's fields with `last` behind them are the gateway of `x` exactly when the fields are those of `x` and `last` is right. */
  lemma DottedIsGateway(text: string, last: string, x: Addr)
    requires LooksLikeIpv4(text) && AllDigits(last)
    ensures var f := Split(text, '.');
      Dotted(f[0], f[1], f[2], last) == Render(Gateway(x)) <==> NamesNetwork(text, x) && last == Decimal(Gateway(x).d)
  {
    var f, g := Split(text, '.'), Gateway(x);
    DottedFields(f[0], f[1], f[2], last);
    RenderFields(g);
    RenderedLooks(g);
    assert f[..3] == [f[0], f[1], f[2]];
  }

  lemma LastDigits(x: Addr)
    ensures Decimal(Gateway(x).d) == (if x.d == 1 then "2" else "1") && AllDigits("1") && AllDigits("2")
  {
    assert Decimal(1) == "1" && Decimal(2) == "2";
  }

  /** The host address may be set by hand, and then has to be the gateway; else it follows from the guest's text. */
  predicate TapGuard(env: Env, guest: Addr) {
    if Var(env, "MGN_HOST_IP") != "" then Var(env, "MGN_HOST_IP") == Render(Gateway(guest))
    else NamesNetwork(Var(env, "MGN_GUEST_IP"), guest) && guest.d != 1
  }

  lemma TapIsGateway(env: Env, x: Addr)
    ensures TapHostIp(env) == Some(Render(Gateway(x))) <==> TapGuard(env, x)
  {
    LastDigits(x);
    var text := Var(env, "MGN_GUEST_IP");
    if Var(env, "MGN_HOST_IP") == "" && LooksLikeIpv4(text) { DottedIsGateway(text, "1", x); }
  }

  /**
   For all variables: the address net-setup gives the tap is the gateway the VM boots with exactly
   when MGN_HOST_IP, if set, is that gateway, and otherwise MGN_GUEST_IP names the guest's network and
   the guest does not end in 1.
   */
  lemma TapIsGatewayExactly(env: Env, requested: string, guestIp: string)
    requires ParseAddr(Trim(guestIp)).Some? && !HasIp(Fields(requested))
    ensures TapHostIp(env).Some? && TapHostIp(env) == BootGateway(FinalBootArgs(env, requested, guestIp)) <==>
      TapGuard(env, ParseAddr(Trim(guestIp)).value)
  {
    BootGatewayIs(env, requested, guestIp);
    TapIsGateway(env, ParseAddr(Trim(guestIp)).value);
  }

  /** Setting MGN_HOST_IP moves the tap and leaves the boot arguments as they are. */
  lemma HostIpMovesOnlyTap(env: Env, hostIp: string, requested: string, guestIp: string)
    requires ParseAddr(Trim(guestIp)).Some? && hostIp != ""
    ensures var moved := env["MGN_HOST_IP" := hostIp];
      && TapHostIp(moved) == Some(hostIp)
      && FinalBootArgs(moved, requested, guestIp) == FinalBootArgs(env, requested, guestIp) == Resolved(requested, guestIp)
  {
    var moved := env["MGN_HOST_IP" := hostIp];
    AugmentIsNoop(requested, guestIp, Var(env, "MGN_GUEST_IP"), Var(env, "MGN_HOST_IP"), Var(env, "MGN_GUEST_NETMASK"), Var(env, "MGN_GUEST_IFACE"));
    AugmentIsNoop(requested, guestIp, Var(moved, "MGN_GUEST_IP"), Var(moved, "MGN_HOST_IP"), Var(moved, "MGN_GUEST_NETMASK"), Var(moved, "MGN_GUEST_IFACE"));
  }

  // ----- all three

  /** As `TapGuard`, for both scripts: the last field of the guest's text counts as well. */
  predicate AgreeGuard(env: Env, guest: Addr) {
    if Var(env, "MGN_HOST_IP") != "" then Var(env, "MGN_HOST_IP") == Render(Gateway(guest))
    else NamesNetwork(Var(env, "MGN_GUEST_IP"), guest) && Split(Var(env, "MGN_GUEST_IP"), '.')[3] != "1"
  }

  lemma ConfigureIsGateway(env: Env, x: Addr)
    requires x.d != 1
    ensures ConfigureHostIp(env) == Some(Render(Gateway(x))) <==> AgreeGuard(env, x)
  {
    LastDigits(x);
    var text := Var(env, "MGN_GUEST_IP");
    if Var(env, "MGN_HOST_IP") == "" && LooksLikeIpv4(text) {
      DottedIsGateway(text, if Split(text, '.')[3] == "1" then "2" else "1", x);
    }
  }

  /**
   For every address handed out from a block of /24 or longer: boot argument, tap and configure
   script agree on the gateway exactly when MGN_HOST_IP, if set, is it, and otherwise MGN_GUEST_IP
   names the guest's network and does not end in 1.
   */
  lemma GatewaysAgree(p: Cidr, x: Addr, env: Env, requested: string)
    requires Allocator.Usable(p) && p.bits >= 24 && Allocatable(p, x) && !HasIp(Fields(requested))
    ensures BootGateway(FinalBootArgs(env, requested, Render(x))).Some?
    ensures TapHostIp(env) == ConfigureHostIp(env) == BootGateway(FinalBootArgs(env, requested, Render(x))) <==> AgreeGuard(env, x)
  {
    var k: nat :| 2 <= k <= Size(p) - 2 && x == Allocator.HostAddress(p, k);
    SmallBlockAvoidsOne(p, k);
    Allocator.UsableSize(p);
    AllocatedIsUsable(p, k);
    BootGatewayIs(env, requested, Render(x));
    TapIsGateway(env, x);
    ConfigureIsGateway(env, x);
  }

  // ----- from the request to the tap

  /** What the daemon itself writes for a VM, as far as it matters here. */
  predicate OwnEnv(own: Env, guestIp: string) {
    "MGN_GUEST_IP" in own && own["MGN_GUEST_IP"] == guestIp && "MGN_HOST_IP" !in own
  }

  /** The same condition in terms of the request's extra variables. */
  predicate ExtraGuard(extra: Env, guest: Addr) {
    if Var(extra, "MGN_HOST_IP") != "" then Var(extra, "MGN_HOST_IP") == Render(Gateway(guest))
    else guest.d != 1 && ("MGN_GUEST_IP" in extra ==> NamesNetwork(extra["MGN_GUEST_IP"], guest))
  }

  lemma ExtraVars(own: Env, extra: Env, guestIp: string)
    requires OwnEnv(own, guestIp)
    ensures Var(VmEnv(own, extra), "MGN_HOST_IP") == Var(extra, "MGN_HOST_IP")
    ensures Var(VmEnv(own, extra), "MGN_GUEST_IP") == if "MGN_GUEST_IP" in extra then extra["MGN_GUEST_IP"] else guestIp
  {
    TrimTrims("MGN_HOST_IP");
    TrimTrims("MGN_GUEST_IP");
  }

  lemma GuardsEqual(own: Env, extra: Env, x: Addr)
    requires OwnEnv(own, Render(x))
    ensures TapGuard(VmEnv(own, extra), x) <==> ExtraGuard(extra, x)
  {
    ExtraVars(own, extra, Render(x));
    RenderFields(x);
    RenderedLooks(x);
  }

  /**
   Through the file: the variables net-setup sources are the ones the daemon wrote, and the tap gets
   the gateway the VM boots with exactly under a condition on the request's extra variables.
   */
  lemma TapOfVmExactly(own: Env, extra: Env, x: Addr, requested: string)
    requires OwnEnv(own, Render(x)) && EnvFile.Shellable(VmEnv(own, extra)) && !HasIp(Fields(requested))
    ensures var env := VmEnv(own, extra);
      && EnvFile.Sourced(EnvFile.EnvText(env)) == Some(env)
      && (TapHostIp(env) == BootGateway(FinalBootArgs(env, requested, Render(x))) <==> ExtraGuard(extra, x))
  {
    var env := VmEnv(own, extra);
    EnvFile.EnvTextSourcesBack(env);
    GuardsEqual(own, extra, x);
    ParseRender(x);
    RenderSpaceFree(x);
    TrimTrims(Render(x));
    TapIsGatewayExactly(env, requested, Render(x));
    BootGatewayIs(env, requested, Render(x));
  }

  // ----- over all runs

  /**
   In every run: a stored VM boots, unless asked otherwise, with its own guest address as the client
   field of its ip= argument, and its gateway in the third field.
   */
  lemma StoredGuestBootsAsItself(cfg: Config, actions: seq<Action>, i: Id, requested: string)
    requires Allocator.Usable(cfg.alloc.cidr) && !HasIp(Fields(requested))
    requires i in Run(cfg, Init(), actions).metas
    ensures var guestIp := Run(cfg, Init(), actions).metas[i].guestIp;
      var tokens := Fields(Resolved(requested, guestIp));
      && tokens != []
      && exists x: Addr :: guestIp == Render(x)
           && Split(tokens[|tokens| - 1], ':') == ["ip=" + guestIp, "", Render(Gateway(x)), "255.255.255.0", "", "eth0", "off"]
  {
    ResourceSafety.AllocRun(cfg, Init(), actions);
    var x := StoredAddress(cfg, Run(cfg, Init(), actions), i);
    LastTokenFields(requested, Run(cfg, Init(), actions).metas[i].guestIp);
  }

  /**
   In every run, with a block of /24 or longer, the gateway in the ip= argument rendered for a stored
   VM is the guest address of no stored VM.
   */
  lemma NoStoredGuestIsGateway(cfg: Config, actions: seq<Action>, i: Id, j: Id)
    requires Allocator.Usable(cfg.alloc.cidr) && cfg.alloc.cidr.bits >= 24
    requires i in Run(cfg, Init(), actions).metas && j in Run(cfg, Init(), actions).metas
    ensures var s := Run(cfg, Init(), actions);
      && KernelIpArg(s.metas[i].guestIp).Some?
      && GatewayField(KernelIpArg(s.metas[i].guestIp).value).Some?
      && GatewayField(KernelIpArg(s.metas[i].guestIp).value).value != s.metas[j].guestIp
  {
    var s, p := Run(cfg, Init(), actions), cfg.alloc.cidr;
    ResourceSafety.AllocRun(cfg, Init(), actions);
    var x := StoredAddress(cfg, s, i);
    var y := StoredAddress(cfg, s, j);
    GatewaysClearExactly(p);
    KernelIpArgGateway(s.metas[i].guestIp);
    RenderInjective(Gateway(x), y);
  }

  lemma StoredAddress(cfg: Config, s: State, id: Id) returns (x: Addr)
    requires Allocator.Usable(cfg.alloc.cidr) && ResourceSafety.AllocInv(cfg, s) && id in s.metas
    ensures Allocatable(cfg.alloc.cidr, x) && s.metas[id].guestIp == Render(x) && ParseAddr(Trim(s.metas[id].guestIp)) == Some(x)
  {
    var p := cfg.alloc.cidr;
    var k: nat :| 2 <= k <= Size(p) - 2 && s.metas[id].guestIp == Allocator.HostText(p, k);
    x := Allocator.HostAddress(p, k);
    AllocatedIsUsable(p, k);
  }
}
