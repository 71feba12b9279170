/**
 What the three servers of a regenerated Corefile answer, and to whom, in terms of the users, nodes
 and entrances the run saw; and when a user makes a run fail.
 */
module CorefileAnswers {
  import opened Wrappers
  import opened SubnetAllocator
  import opened Corefile

  // ---- What is kept of the old file ----

  /** The ten plugins that are kept, each as often as it is there. */
  lemma {:induction false} KeptPlugins(plugins: seq<Plugin>, p: Plugin)
    ensures multiset(Defaults(plugins))[p] ==
            if p.name in {"errors", "health", "ready", "kubernetes", "prometheus",
                          "forward", "cache", "loop", "reload", "loadbalance"}
            then multiset(plugins)[p] else 0
  {
    if plugins != [] {
      KeptPlugins(plugins[1..], p);
      assert plugins == [plugins[0]] + plugins[1..];
    }
  }

  lemma NoTemplateIsKept(plugins: seq<Plugin>)
    ensures forall p :: p in Defaults(plugins) ==> p.name != "template" && p.name != "view"
  {
    forall p | p in Defaults(plugins) ensures p.name != "template" && p.name != "view" {
      KeptPlugins(plugins, p);
      assert p in multiset(Defaults(plugins));
    }
  }

  // ---- The master's address ----

  /** `ip` is the first internal address of a node. */
  ghost predicate FirstInternal(addresses: seq<Address>, ip: string) {
    exists a :: 0 <= a < |addresses| && addresses[a] == Address("InternalIP", ip)
           && forall b :: 0 <= b < a ==> addresses[b].kind != "InternalIP"
  }

  predicate NoInternal(addresses: seq<Address>) {
    forall a :: 0 <= a < |addresses| ==> addresses[a].kind != "InternalIP"
  }

  /** `ip` is the first internal address of the last control-plane node that has one, or empty if none
      has. */
  ghost predicate Master(nodes: seq<KubeNode>, ip: string) {
    || (ip == "" && forall k :: 0 <= k < |nodes| && nodes[k].controlPlane ==> NoInternal(nodes[k].addresses))
    || exists k :: 0 <= k < |nodes| && nodes[k].controlPlane && FirstInternal(nodes[k].addresses, ip)
              && forall m :: k < m < |nodes| && nodes[m].controlPlane ==> NoInternal(nodes[m].addresses)
  }

  lemma {:induction false} InternalIpMeans(addresses: seq<Address>)
    ensures InternalIp(addresses).None? ==> NoInternal(addresses)
    ensures InternalIp(addresses).Some? ==>
              FirstInternal(addresses, InternalIp(addresses).value) && !NoInternal(addresses)
  {
    if addresses != [] && addresses[0].kind != "InternalIP" {
      InternalIpMeans(addresses[1..]);
      if InternalIp(addresses).Some? {
        var ip := InternalIp(addresses).value;
        var a :| 0 <= a < |addresses[1..]| && addresses[1..][a] == Address("InternalIP", ip)
                 && forall b :: 0 <= b < a ==> addresses[1..][b].kind != "InternalIP";
        assert addresses[a + 1] == Address("InternalIP", ip);
        forall b | 0 <= b < a + 1 ensures addresses[b].kind != "InternalIP" {
          if b > 0 {
            assert addresses[b] == addresses[1..][b - 1];
          }
        }
      } else {
        assert forall b :: 1 <= b < |addresses| ==> addresses[b] == addresses[1..][b - 1];
      }
    }
  }

  lemma {:induction false} MasterIpMeans(nodes: seq<KubeNode>)
    ensures Master(nodes, MasterIp(nodes))
  {
    if nodes != [] {
      var last, front := nodes[|nodes| - 1], nodes[..|nodes| - 1];
      InternalIpMeans(last.addresses);
      if !(last.controlPlane && InternalIp(last.addresses).Some?) {
        MasterIpMeans(front);
        MasterOfMore(front, last, MasterIp(front));
        assert nodes == front + [last];
      }
    }
  }

  lemma MasterOfMore(front: seq<KubeNode>, last: KubeNode, ip: string)
    requires Master(front, ip) && (last.controlPlane ==> NoInternal(last.addresses))
    ensures Master(front + [last], ip)
  {
    var nodes := front + [last];
    if k :| 0 <= k < |front| && front[k].controlPlane && FirstInternal(front[k].addresses, ip)
            && forall m :: k < m < |front| && front[m].controlPlane ==> NoInternal(front[m].addresses)
    {
      assert nodes[k] == front[k];
    }
  }

  /** There is only one such address. */
  lemma MasterIsOne(nodes: seq<KubeNode>, ip: string, ip': string)
    requires Master(nodes, ip) && Master(nodes, ip')
    ensures ip == ip'
  {
  }

  // ---- What one user adds ----

  /** The address as text. */
  ghost predicate Reads(text: string, ip: seq<int>) {
    IsAddress(ip) && text == Decimal(ip[0]) + "." + Decimal(ip[1]) + "." + Decimal(ip[2]) + "." + Decimal(ip[3])
  }

  /** The user takes part: it has a zone, its index is the number of a subnet, whose address for
      users reads `local`, and its ingress is at `ingress`. */
  ghost predicate TakesPart(u: User, maxUsers: Option<nat>, local: string, ingress: string)
    requires maxUsers.Some? ==> 1 <= maxUsers.value <= BLOCK
  {
    && u.zone != "" && u.ingress == Success(ingress) && ingress != "" && maxUsers.Some?
    && exists i: nat ::
         i < Count(maxUsers.value) && Decimal(i) == u.index && Reads(local, FirstUsable(maxUsers.value, i))
  }

  lemma DottedReads(text: string, ip: seq<int>)
    requires IsAddress(ip)
    ensures Reads(text, ip) <==> text == Dotted(ip)
  {
    hide Decimal;
    var a, b, c, d := Decimal(ip[0]), Decimal(ip[1]), Decimal(ip[2]), Decimal(ip[3]);
    assert a + "." + b + "." + c + "." + d == a + "." + (b + "." + (c + "." + d));
  }

  lemma JudgeMeans(u: User, maxUsers: Option<nat>, local: string, ingress: string)
    requires maxUsers.Some? ==> 1 <= maxUsers.value <= BLOCK
    ensures Judge(u, maxUsers) == Listed(local, ingress) <==> TakesPart(u, maxUsers, local, ingress)
  {
    hide Dotted, Reads, Decimal;
    LocalIpMeans(u.index, maxUsers);
    LocalIpIsAddress(u.index, maxUsers);
    if maxUsers.Some? {
      var n := maxUsers.value;
      forall i: nat | i < Count(n) ensures Reads(local, FirstUsable(n, i)) <==> local == Dotted(FirstUsable(n, i)) {
        DottedReads(local, FirstUsable(n, i));
      }
      if KeyBelow(u.index, Count(n)) {
        var i: nat :| i < Count(n) && Decimal(i) == u.index;
        assert LocalIp(u.index, maxUsers) == Success(Some(FirstUsable(n, i)));
      }
    }
  }

  // ---- The templates of a zone ----

  /** The template that answers A queries for the zone with `ip`. */
  ghost predicate Answers(p: Plugin, zone: string, ip: string) {
    p == Plugin("template", ["IN", "A", zone],
                [Setting("match", ["\"\\w*\\.?(" + zone + "\\.)$\""]),
                 Setting("answer", ["\"{{ .Name }} 60 IN A " + ip + "\""]),
                 Setting("fallthrough", [])])
  }

  /** The template that answers all other queries for the zone with nothing. */
  ghost predicate AnswersNothing(p: Plugin, zone: string) {
    p == Plugin("template", ["IN", "ANY", zone], [Setting("rcode", ["NOERROR"])])
  }

  /** The template that answers A queries for a shared entrance. */
  ghost predicate AnswersEntrance(p: Plugin, e: Entrance) {
    p == Plugin("template", ["IN", "A", e.domain],
                [Setting("match", [e.pattern]), Setting("answer", ["\"{{ .Name }} 60 IN A " + e.ip + "\""]),
                 Setting("fallthrough", [])])
  }

  ghost predicate Serves(p: Plugin, zone: string, ip: string) {
    Answers(p, zone, ip) || AnswersNothing(p, zone)
  }

  lemma UserTemplatesMean(zone: string, ip: string, p: Plugin)
    ensures p in UserTemplates(zone, ip) <==> Serves(p, zone, ip)
  {
  }

  lemma EntranceTemplatesMean(entrances: seq<Entrance>, p: Plugin)
    ensures p in EntranceTemplates(entrances) <==> exists e :: e in entrances && AnswersEntrance(p, e)
  {
    if p in EntranceTemplates(entrances) {
      var k :| 0 <= k < |entrances| && EntranceTemplates(entrances)[k] == p;
      assert AnswersEntrance(p, entrances[k]);
    }
    if e :| e in entrances && AnswersEntrance(p, e) {
      var k :| 0 <= k < |entrances| && entrances[k] == e;
      assert EntranceTemplates(entrances)[k] == p;
    }
  }

  /** What the in-cluster server has for a user: its ingress address. */
  ghost predicate ServesIncluster(p: Plugin, u: User, maxUsers: Option<nat>)
    requires maxUsers.Some? ==> 1 <= maxUsers.value <= BLOCK
  {
    exists local, ingress :: TakesPart(u, maxUsers, local, ingress) && Serves(p, u.zone, ingress)
  }

  /** What the VPN server has for a user: its address in the subnet. */
  ghost predicate ServesVpn(p: Plugin, u: User, maxUsers: Option<nat>)
    requires maxUsers.Some? ==> 1 <= maxUsers.value <= BLOCK
  {
    exists local, ingress :: TakesPart(u, maxUsers, local, ingress) && Serves(p, u.zone, local)
  }

  /** What the third server has for a user, for its zone and for its local name: the master's address,
      if there is one. */
  ghost predicate ServesLocally(p: Plugin, u: User, maxUsers: Option<nat>, masterIp: string)
    requires maxUsers.Some? ==> 1 <= maxUsers.value <= BLOCK
  {
    && masterIp != ""
    && (exists local, ingress :: TakesPart(u, maxUsers, local, ingress))
    && (Serves(p, u.zone, masterIp) || Serves(p, u.name + ".olares.local", masterIp))
  }

  lemma ListsOfMean(u: User, maxUsers: Option<nat>, masterIp: string, p: Plugin)
    requires maxUsers.Some? ==> 1 <= maxUsers.value <= BLOCK
    ensures var lists := ListsOf(u, Judge(u, maxUsers), masterIp);
            && (p in lists.incluster <==> ServesIncluster(p, u, maxUsers))
            && (p in lists.vpn <==> ServesVpn(p, u, maxUsers))
            && (p in lists.local + lists.localDomain <==> ServesLocally(p, u, maxUsers, masterIp))
  {
    hide Judge, TakesPart, UserTemplates, Serves;
    forall local, ingress
      ensures Judge(u, maxUsers) == Listed(local, ingress) <==> TakesPart(u, maxUsers, local, ingress)
    {
      JudgeMeans(u, maxUsers, local, ingress);
    }
    forall zone, ip ensures p in UserTemplates(zone, ip) <==> Serves(p, zone, ip) {
      UserTemplatesMean(zone, ip, p);
    }
    if Judge(u, maxUsers).Listed? {
      var v := Judge(u, maxUsers);
      assert TakesPart(u, maxUsers, v.localIp, v.ingressIp);
    }
  }

  lemma {:induction false} AllListsMean(users: seq<User>, maxUsers: Option<nat>, masterIp: string, p: Plugin)
    requires maxUsers.Some? ==> 1 <= maxUsers.value <= BLOCK
    requires AllLists(users, maxUsers, masterIp).Success?
    ensures var lists := AllLists(users, maxUsers, masterIp).value;
            && (p in lists.incluster <==> exists u :: u in users && ServesIncluster(p, u, maxUsers))
            && (p in lists.vpn <==> exists u :: u in users && ServesVpn(p, u, maxUsers))
            && (p in lists.local + lists.localDomain <==>
                exists u :: u in users && ServesLocally(p, u, maxUsers, masterIp))
  {
    hide Judge, ListsOf, ServesIncluster, ServesVpn, ServesLocally;
    if users != [] {
      var last, front := users[|users| - 1], users[..|users| - 1];
      AllListsMean(front, maxUsers, masterIp, p);
      ListsOfMean(last, maxUsers, masterIp, p);
      assert users == front + [last];
    }
  }

  // ---- The servers ----

  /** Who a server is for: the expression of its view. */
  ghost predicate View(p: Plugin, name: string, expression: string) {
    p == Plugin("view", [name], [Setting("expr", [expression])])
  }

  /** The answers of the three servers that a run writes.  In the cluster a user's zone is answered
      with its ingress address and a shared entrance with its own; on the VPN a user's zone with its
      address in the subnets; for everybody else its zone and its local name with the master's
      address, if there is one.  No server has any other template. */
  lemma ServersAnswer(servers: seq<Server>, snap: Snapshot, masterIp: string, p: Plugin)
    requires snap.Valid() && Regenerated(servers, snap).Success? && Regenerated(servers, snap).value.Some?
    requires Master(snap.nodes.value, masterIp) && p.name == "template"
    ensures var out := Regenerated(servers, snap).value.value;
            && |out| == 3
            && (p in out[0].plugins <==>
                || (exists u :: u in snap.users.value && ServesIncluster(p, u, snap.maxUsers))
                || (exists e :: e in snap.entrances.value && AnswersEntrance(p, e)))
            && (p in out[1].plugins <==> exists u :: u in snap.users.value && ServesVpn(p, u, snap.maxUsers))
            && (p in out[2].plugins <==>
                exists u :: u in snap.users.value && ServesLocally(p, u, snap.maxUsers, masterIp))
  {
    hide AllLists, Defaults, ServesIncluster, ServesVpn, ServesLocally, AnswersEntrance, MasterIp, EntranceTemplates;
    MasterIpMeans(snap.nodes.value);
    MasterIsOne(snap.nodes.value, masterIp, MasterIp(snap.nodes.value));
    AllListsMean(snap.users.value, snap.maxUsers, masterIp, p);
    EntranceTemplatesMean(snap.entrances.value, p);
    NoTemplateIsKept(servers[0].plugins);
  }

  /** The rest of the three servers: the ports of the old first server; for the first two a view that
      says whom they are for, by the client's address; the kept plugins in their old order; and the
      templates behind them. */
  lemma ServersLayout(servers: seq<Server>, snap: Snapshot, masterIp: string)
    returns (t0: seq<Plugin>, t1: seq<Plugin>, t2: seq<Plugin>)
    requires snap.Valid() && Regenerated(servers, snap).Success? && Regenerated(servers, snap).value.Some?
    requires Master(snap.nodes.value, masterIp)
    ensures var out, kept := Regenerated(servers, snap).value.value, Defaults(servers[0].plugins);
            && |out| == 3 && (forall k :: 0 <= k < 3 ==> out[k].domPorts == servers[0].domPorts)
            && out[0].plugins != [] && out[1].plugins != []
            && View(out[0].plugins[0], "incluster",
                    if snap.adguardIp == "" then "incidr(client_ip(), '10.233.0.0/16')"
                    else "( " + "incidr(client_ip(), '10.233.0.0/16')" + " && client_ip() != '" + snap.adguardIp
                         + "' )")
            && View(out[1].plugins[0], "vpn",
                    "incidr(client_ip(), '100.64.0.0/16') || client_ip() == '" + masterIp + "'")
            && out[0].plugins[1..] == kept + t0 && out[1].plugins[1..] == kept + t1 && out[2].plugins == kept + t2
    ensures forall p :: p in t0 + t1 + t2 ==> p.name == "template"
  {
    hide AllLists, Defaults, MasterIp, EntranceTemplates, ServesIncluster, ServesVpn, ServesLocally;
    MasterIpMeans(snap.nodes.value);
    MasterIsOne(snap.nodes.value, masterIp, MasterIp(snap.nodes.value));
    var lists := AllLists(snap.users.value, snap.maxUsers, masterIp).value;
    var kept := Defaults(servers[0].plugins);
    t0, t1 := lists.incluster + EntranceTemplates(snap.entrances.value), lists.vpn;
    t2 := lists.local + lists.localDomain;
    assert kept + lists.local + lists.localDomain == kept + t2;
    assert ([InclusterView(snap.adguardIp)] + kept + t0)[1..] == kept + t0;
    assert ([VpnView(masterIp)] + kept + t1)[1..] == kept + t1;
    forall p | p in t0 + t1 + t2 ensures p.name == "template" {
      AllListsMean(snap.users.value, snap.maxUsers, masterIp, p);
      EntranceTemplatesMean(snap.entrances.value, p);
      ServedByTemplates(snap.maxUsers, masterIp, p);
    }
  }

  lemma ServedByTemplates(maxUsers: Option<nat>, masterIp: string, p: Plugin)
    requires maxUsers.Some? ==> 1 <= maxUsers.value <= BLOCK
    ensures forall u ::
              (ServesIncluster(p, u, maxUsers) || ServesVpn(p, u, maxUsers) || ServesLocally(p, u, maxUsers, masterIp))
              ==> p.name == "template"
    ensures forall e :: AnswersEntrance(p, e) ==> p.name == "template"
  {
    hide TakesPart;
  }

  // ---- When a user makes the run fail ----

  /** A user with a zone and an index makes the run fail if the maximum does not parse, if the index
      is not the number of a subnet, or if its ingress cannot be looked up. */
  ghost predicate Stops(u: User, maxUsers: Option<nat>)
    requires maxUsers.Some? ==> 1 <= maxUsers.value <= BLOCK
  {
    && u.zone != "" && u.index != ""
    && (maxUsers.None? || u.ingress.Failure? || !exists i: nat :: i < Count(maxUsers.value) && Decimal(i) == u.index)
  }

  lemma StopsMeans(u: User, maxUsers: Option<nat>)
    requires maxUsers.Some? ==> 1 <= maxUsers.value <= BLOCK
    ensures Judge(u, maxUsers).Fails? <==> Stops(u, maxUsers)
  {
    hide Decimal, Dotted;
    LocalIpMeans(u.index, maxUsers);
  }

  lemma {:induction false} AllListsFail(users: seq<User>, maxUsers: Option<nat>, masterIp: string)
    requires maxUsers.Some? ==> 1 <= maxUsers.value <= BLOCK
    ensures AllLists(users, maxUsers, masterIp).Failure? <==> exists u :: u in users && Stops(u, maxUsers)
  {
    hide Judge, ListsOf, Stops;
    if users != [] {
      var last, front := users[|users| - 1], users[..|users| - 1];
      AllListsFail(front, maxUsers, masterIp);
      StopsMeans(last, maxUsers);
      assert users == front + [last];
    }
  }

  /** A run on a file with a server fails exactly if the users, the nodes or the entrances cannot be
      read, or one of the users stops it.  In particular an index that is no subnet's number does not
      just leave its user out: nothing at all is written. */
  lemma RunFailsExactlyWhen(servers: seq<Server>, snap: Snapshot)
    requires snap.Valid() && servers != []
    ensures Regenerated(servers, snap).Failure? <==>
            snap.users.Failure? || snap.nodes.Failure? || snap.entrances.Failure?
            || exists u :: u in snap.users.value && Stops(u, snap.maxUsers)
    ensures Regenerated(servers, snap).Success? ==> Regenerated(servers, snap).value.Some?
  {
    hide AllLists, MasterIp, Servers, Stops;
    if snap.users.Success? && snap.nodes.Success? {
      AllListsFail(snap.users.value, snap.maxUsers, MasterIp(snap.nodes.value));
    }
  }
}
