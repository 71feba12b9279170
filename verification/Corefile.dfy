/**
 The Corefile generator: three servers built from the default plugins of the file's first server
 and from templates for users and shared entrances.  The plugin lists are slices that may share
 one backing array, and every run starts from what the previous one wrote.
 */
module Corefile {
  import opened Wrappers
  import opened SubnetAllocator
  import opened GoSlices

  datatype Setting = Setting(name: string, args: seq<string>)

  datatype Plugin = Plugin(name: string, args: seq<string>, settings: seq<Setting>)

  datatype Server = Server(domPorts: seq<string>, plugins: seq<Plugin>)

  datatype User = User(name: string, zone: string, index: string, ingress: Result<string, string>)

  datatype Address = Address(kind: string, ip: string)

  datatype KubeNode = KubeNode(controlPlane: bool, addresses: seq<Address>)

  datatype Entrance = Entrance(domain: string, pattern: string, ip: string)

  /** Everything one run reads from the cluster and the environment. */
  datatype Snapshot = Snapshot(
    users: Result<seq<User>, string>,
    nodes: Result<seq<KubeNode>, string>,
    maxUsers: Option<nat>,
    entrances: Result<seq<Entrance>, string>,
    adguardIp: string)
  {
    predicate Valid() {
      maxUsers.Some? ==> 1 <= maxUsers.value <= BLOCK
    }
  }

  // ---- Default plugins ----

  predicate IsDefault(p: Plugin) {
    p.name in ["errors", "health", "ready", "kubernetes", "prometheus",
               "forward", "cache", "loop", "reload", "loadbalance"]
  }

  function Defaults(plugins: seq<Plugin>): seq<Plugin> {
    if plugins == [] then []
    else (if IsDefault(plugins[0]) then [plugins[0]] else []) + Defaults(plugins[1..])
  }

  lemma {:induction false} DefaultsAppend(a: seq<Plugin>, b: seq<Plugin>)
    ensures Defaults(a + b) == Defaults(a) + Defaults(b)
  {
    if a == [] {
      assert a + b == b;
    } else {
      assert (a + b)[1..] == a[1..] + b;
      DefaultsAppend(a[1..], b);
    }
  }

  lemma {:induction false} DefaultsOfDefaults(plugins: seq<Plugin>)
    ensures Defaults(Defaults(plugins)) == Defaults(plugins)
  {
    if plugins != [] {
      var first := if IsDefault(plugins[0]) then [plugins[0]] else [];
      DefaultsAppend(first, Defaults(plugins[1..]));
      DefaultsOfDefaults(plugins[1..]);
      assert first != [] ==> first[1..] == [];
    }
  }

  lemma {:induction false} NoDefaults(plugins: seq<Plugin>)
    requires forall p :: p in plugins ==> p.name == "template" || p.name == "view"
    ensures Defaults(plugins) == []
  {
    if plugins != [] {
      assert plugins[0] in plugins;
      NoDefaults(plugins[1..]);
    }
  }

  method DefaultPlugins(plugins: seq<Plugin>) returns (s: Slice<Plugin>)
    ensures s.Valid() && fresh(s.backing) && s.Read() == Defaults(plugins)
  {
    s := Nil();
    for k := 0 to |plugins|
      invariant s.Valid() && fresh(s.backing) && s.Read() == Defaults(plugins[..k])
    {
      assert plugins[..k + 1] == plugins[..k] + [plugins[k]];
      DefaultsAppend(plugins[..k], [plugins[k]]);
      if IsDefault(plugins[k]) {
        s := Append(s, [plugins[k]]);
      }
    }
    assert plugins[..|plugins|] == plugins;
  }

  // ---- The master's address ----

  const INTERNAL := "InternalIP"

  function InternalIp(addresses: seq<Address>): (r: Option<string>)
    ensures r.None? <==> forall a :: a in addresses ==> a.kind != INTERNAL
    ensures r.Some? ==> Address(INTERNAL, r.value) in addresses
  {
    if addresses == [] then None
    else if addresses[0].kind == INTERNAL then Some(addresses[0].ip)
    else InternalIp(addresses[1..])
  }

  /** The last control-plane node with an internal address decides. */
  function MasterIp(nodes: seq<KubeNode>): string {
    if nodes == [] then ""
    else
      var last := nodes[|nodes| - 1];
      if last.controlPlane && InternalIp(last.addresses).Some? then InternalIp(last.addresses).value
      else MasterIp(nodes[..|nodes| - 1])
  }

  method FindMasterIp(nodes: seq<KubeNode>) returns (ip: string)
    ensures ip == MasterIp(nodes)
  {
    ip := "";
    for i := 0 to |nodes|
      invariant ip == MasterIp(nodes[..i])
    {
      assert nodes[..i + 1][..i] == nodes[..i];
      if nodes[i].controlPlane {
        var addresses := nodes[i].addresses;
        for k := 0 to |addresses|
          invariant ip == MasterIp(nodes[..i])
          invariant InternalIp(addresses) == InternalIp(addresses[k..])
        {
          if addresses[k].kind == INTERNAL {
            ip := addresses[k].ip;
            break;
          }
        }
      }
    }
    assert nodes[..|nodes|] == nodes;
  }

  // ---- User templates ----

  function AnswerSetting(ip: string): Setting {
    Setting("answer", ["\"{{ .Name }} 60 IN A " + ip + "\""])
  }

  function TemplateA(zone: string, ip: string): Plugin {
    Plugin("template", ["IN", "A", zone],
           [Setting("match", ["\"\\w*\\.?(" + zone + "\\.)$\""]), AnswerSetting(ip), Setting("fallthrough", [])])
  }

  function TemplateAny(zone: string): Plugin {
    Plugin("template", ["IN", "ANY", zone], [Setting("rcode", ["NOERROR"])])
  }

  function UserTemplates(zone: string, ip: string): seq<Plugin> {
    [TemplateA(zone, ip), TemplateAny(zone)]
  }

  method AddUserTemplates(zone: string, ip: string, plugins: Slice<Plugin>) returns (r: Slice<Plugin>)
    requires plugins.Valid()
    modifies plugins.backing
    ensures r.Valid() && r.Read() == old(plugins.Read()) + UserTemplates(zone, ip)
    ensures r.backing == plugins.backing || fresh(r.backing)
  {
    r := Append(plugins, [TemplateA(zone, ip)]);
    r := Append(r, [TemplateAny(zone)]);
  }

  function Dotted(ip: seq<int>): string
    requires IsAddress(ip)
  {
    Decimal(ip[0]) + "." + (Decimal(ip[1]) + "." + (Decimal(ip[2]) + "." + Decimal(ip[3])))
  }

  /** What a run makes of one user: an error ends the run, a user without a zone or an address is
      left out, any other is listed with both addresses. */
  datatype Verdict = Fails(error: string) | LeftOut | Listed(localIp: string, ingressIp: string)

  ghost function Judge(u: User, maxUsers: Option<nat>): Verdict
    requires maxUsers.Some? ==> 1 <= maxUsers.value <= BLOCK
  {
    if u.zone == "" then LeftOut
    else
      match LocalIp(u.index, maxUsers)
      case Failure(e) => Fails(e)
      case Success(None) => LeftOut
      case Success(Some(ip)) =>
        match u.ingress
        case Failure(e) => Fails(e)
        case Success(ingress) =>
          LocalIpIsAddress(u.index, maxUsers);
          if ingress == "" then LeftOut else Listed(Dotted(ip), ingress)
  }

  lemma LocalIpIsAddress(index: string, maxUsers: Option<nat>)
    requires maxUsers.Some? ==> 1 <= maxUsers.value <= BLOCK
    ensures LocalIp(index, maxUsers).Success? && LocalIp(index, maxUsers).value.Some?
            ==> IsAddress(LocalIp(index, maxUsers).value.value)
  {
  }

  /** The four template lists. */
  datatype Lists = Lists(incluster: seq<Plugin>, vpn: seq<Plugin>, local: seq<Plugin>, localDomain: seq<Plugin>)

  function Joined(a: Lists, b: Lists): Lists {
    Lists(a.incluster + b.incluster, a.vpn + b.vpn, a.local + b.local, a.localDomain + b.localDomain)
  }

  const NO_LISTS := Lists([], [], [], [])

  /** What one user adds: nothing under the local names while no master address is known. */
  ghost function ListsOf(u: User, v: Verdict, masterIp: string): Lists {
    if !v.Listed? then NO_LISTS
    else
      Lists(UserTemplates(u.zone, v.ingressIp),
            UserTemplates(u.zone, v.localIp),
            if masterIp == "" then [] else UserTemplates(u.zone, masterIp),
            if masterIp == "" then [] else UserTemplates(u.name + ".olares.local", masterIp))
  }

  /** The lists of a run over the users, or the error of the first user that has one. */
  ghost function AllLists(users: seq<User>, maxUsers: Option<nat>, masterIp: string): Result<Lists, string>
    requires maxUsers.Some? ==> 1 <= maxUsers.value <= BLOCK
  {
    if users == [] then Success(NO_LISTS)
    else
      var before := AllLists(users[..|users| - 1], maxUsers, masterIp);
      var v := Judge(users[|users| - 1], maxUsers);
      if before.Failure? then before
      else if v.Fails? then Failure(v.error)
      else Success(Joined(before.value, ListsOf(users[|users| - 1], v, masterIp)))
  }

  lemma {:induction false} EarlyError(users: seq<User>, k: nat, maxUsers: Option<nat>, masterIp: string)
    requires maxUsers.Some? ==> 1 <= maxUsers.value <= BLOCK
    requires k <= |users| && AllLists(users[..k], maxUsers, masterIp).Failure?
    ensures AllLists(users, maxUsers, masterIp) == AllLists(users[..k], maxUsers, masterIp)
  {
    if k == |users| {
      assert users[..k] == users;
    } else {
      var front := users[..|users| - 1];
      assert front[..k] == users[..k];
      EarlyError(front, k, maxUsers, masterIp);
    }
  }

  /** The four lists while they grow: four slices over four arrays. */
  datatype Growing = Growing(incluster: Slice<Plugin>, vpn: Slice<Plugin>,
                             local: Slice<Plugin>, localDomain: Slice<Plugin>)
  {
    ghost function Arrays(): set<array<Plugin>> {
      {incluster.backing, vpn.backing, local.backing, localDomain.backing}
    }

    ghost predicate Valid() {
      && incluster.Valid() && vpn.Valid() && local.Valid() && localDomain.Valid()
      && incluster.backing != vpn.backing && incluster.backing != local.backing
      && incluster.backing != localDomain.backing && vpn.backing != local.backing
      && vpn.backing != localDomain.backing && local.backing != localDomain.backing
    }

    ghost function Read(): Lists
      requires Valid()
      reads Arrays()
    {
      Lists(incluster.Read(), vpn.Read(), local.Read(), localDomain.Read())
    }
  }

  /** The body of the user loop. */
  method AddUser(u: User, maxUsers: Option<nat>, masterIp: string, lists: Growing)
    returns (error: Option<string>, r: Growing)
    requires maxUsers.Some? ==> 1 <= maxUsers.value <= BLOCK
    requires lists.Valid()
    modifies lists.Arrays()
    ensures error == match Judge(u, maxUsers) case Fails(e) => Some(e) case _ => None
    ensures r.Valid() && forall a :: a in r.Arrays() ==> a in lists.Arrays() || fresh(a)
    ensures error.None? ==> r.Read() == Joined(old(lists.Read()), ListsOf(u, Judge(u, maxUsers), masterIp))
  {
    hide LocalIp, UserTemplates, Dotted;
    error, r := None, lists;
    if u.zone == "" {
      return;
    }
    LocalIpIsAddress(u.index, maxUsers);
    var localIp := GetUserLocalIp(u.index, maxUsers);
    if localIp.Failure? {
      return Some(localIp.error), r;
    }
    if localIp.value.None? {
      return;
    }
    if u.ingress.Failure? {
      return Some(u.ingress.error), r;
    }
    if u.ingress.value == "" {
      return;
    }
    var vpn := AddUserTemplates(u.zone, Dotted(localIp.value.value), r.vpn);
    r := r.(vpn := vpn);
    var incluster := AddUserTemplates(u.zone, u.ingress.value, r.incluster);
    r := r.(incluster := incluster);
    if masterIp == "" {
      return;
    }
    var local := AddUserTemplates(u.zone, masterIp, r.local);
    r := r.(local := local);
    var localDomain := AddUserTemplates(u.name + ".olares.local", masterIp, r.localDomain);
    r := r.(localDomain := localDomain);
  }

  method NoneYet() returns (r: Growing)
    ensures r.Valid() && fresh(r.Arrays()) && r.Read() == NO_LISTS
  {
    var vpn := Nil();
    var incluster := Nil();
    var local := Nil();
    var localDomain := Nil();
    r := Growing(incluster, vpn, local, localDomain);
  }

  method AddUsers(users: seq<User>, maxUsers: Option<nat>, masterIp: string)
    returns (error: Option<string>, r: Growing)
    requires maxUsers.Some? ==> 1 <= maxUsers.value <= BLOCK
    ensures r.Valid() && fresh(r.Arrays())
    ensures AllLists(users, maxUsers, masterIp) ==
            match error case Some(e) => Failure(e) case None => Success(r.Read())
  {
    hide Judge, ListsOf, Joined;
    error := None;
    r := NoneYet();
    for k := 0 to |users|
      invariant r.Valid() && fresh(r.Arrays())
      invariant error.None? && AllLists(users[..k], maxUsers, masterIp) == Success(r.Read())
    {
      assert users[..k + 1][..k] == users[..k];
      error, r := AddUser(users[k], maxUsers, masterIp, r);
      if error.Some? {
        EarlyError(users, k + 1, maxUsers, masterIp);
        return;
      }
    }
    assert users[..|users|] == users;
  }

  // ---- Shared entrances ----

  function EntranceTemplate(e: Entrance): Plugin {
    Plugin("template", ["IN", "A", e.domain],
           [Setting("match", [e.pattern]), AnswerSetting(e.ip), Setting("fallthrough", [])])
  }

  function EntranceTemplates(entrances: seq<Entrance>): seq<Plugin> {
    seq(|entrances|, k requires 0 <= k < |entrances| => EntranceTemplate(entrances[k]))
  }

  method AddEntrances(entrances: seq<Entrance>, plugins: Slice<Plugin>) returns (r: Slice<Plugin>)
    requires plugins.Valid()
    modifies plugins.backing
    ensures r.Valid() && r.Read() == old(plugins.Read()) + EntranceTemplates(entrances)
    ensures r.backing == plugins.backing || fresh(r.backing)
  {
    r := plugins;
    ghost var all, start := EntranceTemplates(entrances), plugins.Read();
    for k := 0 to |entrances|
      invariant r.Valid() && r.Read() == start + all[..k]
      invariant r.backing == plugins.backing || fresh(r.backing)
    {
      assert all[..k + 1] == all[..k] + [EntranceTemplate(entrances[k])];
      r := Append(r, [EntranceTemplate(entrances[k])]);
    }
    assert all[..|entrances|] == all;
  }

  // ---- The three servers ----

  function InclusterView(adguardIp: string): Plugin {
    var expr := "incidr(client_ip(), '10.233.0.0/16')";
    Plugin("view", ["incluster"],
           [Setting("expr", [if adguardIp == "" then expr
                             else "( " + expr + " && client_ip() != '" + adguardIp + "' )"])])
  }

  function VpnView(masterIp: string): Plugin {
    Plugin("view", ["vpn"],
           [Setting("expr", ["incidr(client_ip(), '100.64.0.0/16') || client_ip() == '" + masterIp + "'"])])
  }

  /** `append([view], append(defaults, templates...)...)`: the inner append may write behind the
      default list, the outer one copies the result to an array of its own. */
  method Nested(view: Plugin, defaults: Slice<Plugin>, templates: seq<Plugin>) returns (r: Slice<Plugin>)
    requires defaults.Valid()
    modifies defaults.backing
    ensures r.Valid() && fresh(r.backing) && r.Read() == [view] + old(defaults.Read()) + templates
    ensures defaults.Read() == old(defaults.Read())
  {
    var literal := Literal([view]);
    var inner := Append(defaults, templates);
    ghost var plugins := inner.Read();
    r := Append(literal, inner.Read());
    assert [view] + plugins == [view] + old(defaults.Read()) + templates;
  }

  /** The three nested appends.  For every length and capacity of the five slices, and although the
      third server's list and the spare part of the default list can be the same memory, each list
      reads as intended once all three exist. */
  method BuildServers(inclusterView: Plugin, vpnView: Plugin, defaults: Slice<Plugin>, lists: Growing)
    returns (incluster: Slice<Plugin>, vpn: Slice<Plugin>, other: Slice<Plugin>)
    requires defaults.Valid() && lists.Valid() && defaults.backing !in lists.Arrays()
    modifies defaults.backing, lists.local.backing
    ensures incluster.Valid() && vpn.Valid() && other.Valid()
    ensures incluster.Read() == [inclusterView] + old(defaults.Read()) + old(lists.incluster.Read())
    ensures vpn.Read() == [vpnView] + old(defaults.Read()) + old(lists.vpn.Read())
    ensures other.Read() == old(defaults.Read()) + old(lists.local.Read()) + old(lists.localDomain.Read())
  {
    incluster := Nested(inclusterView, defaults, lists.incluster.Read());
    vpn := Nested(vpnView, defaults, lists.vpn.Read());
    var local := Append(lists.local, lists.localDomain.Read());
    ghost var d, l := defaults.Read(), local.Read();
    other := Append(defaults, local.Read());
    assert d + l == old(defaults.Read()) + old(lists.local.Read()) + old(lists.localDomain.Read());
  }

  /** The servers a successful run writes. */
  ghost function Servers(first: Server, lists: Lists, entrances: seq<Entrance>, masterIp: string, adguardIp: string)
    : seq<Server>
  {
    var d := Defaults(first.plugins);
    [Server(first.domPorts, [InclusterView(adguardIp)] + d + (lists.incluster + EntranceTemplates(entrances))),
     Server(first.domPorts, [VpnView(masterIp)] + d + lists.vpn),
     Server(first.domPorts, d + lists.local + lists.localDomain)]
  }

  /** One regeneration of a parsed file: nothing to write if it has no server, an error as soon as
      something cannot be read, else three servers. */
  ghost function Regenerated(servers: seq<Server>, snap: Snapshot): Result<Option<seq<Server>>, string>
    requires snap.Valid()
  {
    if |servers| < 1 then Success(None)
    else if snap.users.Failure? then Failure(snap.users.error)
    else if snap.nodes.Failure? then Failure(snap.nodes.error)
    else
      var masterIp := MasterIp(snap.nodes.value);
      var lists := AllLists(snap.users.value, snap.maxUsers, masterIp);
      if lists.Failure? then Failure(lists.error)
      else if snap.entrances.Failure? then Failure(snap.entrances.error)
      else Success(Some(Servers(servers[0], lists.value, snap.entrances.value, masterIp, snap.adguardIp)))
  }

  method RegenerateServers(servers: seq<Server>, snap: Snapshot) returns (r: Result<Option<seq<Server>>, string>)
    requires snap.Valid()
    ensures r == Regenerated(servers, snap)
  {
    hide Defaults, MasterIp, AllLists;
    if |servers| < 1 {
      return Success(None);
    }
    var first := servers[0];
    var defaults := DefaultPlugins(first.plugins);
    if snap.users.Failure? {
      return Failure(snap.users.error);
    }
    if snap.nodes.Failure? {
      return Failure(snap.nodes.error);
    }
    var masterIp := FindMasterIp(snap.nodes.value);
    var error, lists := AddUsers(snap.users.value, snap.maxUsers, masterIp);
    if error.Some? {
      return Failure(error.value);
    }
    if snap.entrances.Failure? {
      return Failure(snap.entrances.error);
    }
    var withEntrances := AddEntrances(snap.entrances.value, lists.incluster);
    lists := lists.(incluster := withEntrances);
    var incluster, vpn, other := BuildServers(InclusterView(snap.adguardIp), VpnView(masterIp), defaults, lists);
    r := Success(Some([Server(first.domPorts, incluster.Read()),
                       Server(first.domPorts, vpn.Read()),
                       Server(first.domPorts, other.Read())]));
  }
}
