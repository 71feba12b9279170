/**
 Taking databases and roles away again: the DELETE handler and its in-place retry.
 */
module PgRemoval {
  import opened Wrappers
  import opened Calls
  import opened PgState
  import opened PgProvisioning
  import opened PgTarget
  import opened PgServer

  /** Every database belongs to a role of its node. */
  ghost predicate OwnersExist(c: Cluster) {
    forall i, db :: 0 <= i < |c| && db in c[i].databases ==> c[i].databases[db].owner in c[i].roles
  }

  // ---- Delete ----

  /** What a delete removes from node `i`: the entries it names there and all the user owns. */
  ghost function Doomed(req: PgRequest, i: nat, nd: Node): set<string> {
    Owned(nd, req.user) + RequestedNames(req, i, |req.databases|)
  }

  ghost function ClearedNode(req: PgRequest, i: nat, nd: Node): Node {
    Node(nd.roles - {req.user}, nd.databases - Doomed(req, i, nd))
  }

  ghost function Cleared(req: PgRequest, c: Cluster): (c': Cluster)
    ensures |c'| == |c|
  {
    seq(|c|, i requires 0 <= i < |c| => ClearedNode(req, i, c[i]))
  }

  /** What a delete leaves: on every node all roles but the user's, and the databases that are neither
      the user's nor asked for there, unchanged. */
  lemma ClearedMeans(req: PgRequest, c: Cluster, i: nat, name: string)
    requires i < |c|
    ensures HasDatabase(Cleared(req, c), i, name) <==>
            HasDatabase(c, i, name) && c[i].databases[name].owner != req.user
            && !exists j: nat :: AsksFor(req, i, j, name)
    ensures HasDatabase(Cleared(req, c), i, name) ==> Cleared(req, c)[i].databases[name] == c[i].databases[name]
    ensures HasRole(Cleared(req, c), i, name) <==> HasRole(c, i, name) && name != req.user
    ensures HasRole(Cleared(req, c), i, name) ==> Cleared(req, c)[i].roles[name] == c[i].roles[name]
  {
    AskedNames(req, i, name);
  }

  /** `nd'` is `nd` with some doomed databases gone, and perhaps the role. */
  ghost predicate PartlyClearedNode(req: PgRequest, i: nat, nd: Node, nd': Node) {
    && (nd'.roles == nd.roles || nd'.roles == nd.roles - {req.user})
    && nd'.databases.Keys <= nd.databases.Keys <= nd'.databases.Keys + Doomed(req, i, nd)
    && (forall db :: db in nd'.databases ==> nd'.databases[db] == nd.databases[db])
  }

  ghost predicate PartlyCleared(req: PgRequest, c: Cluster, c': Cluster) {
    |c'| == |c| && forall i :: 0 <= i < |c| ==> PartlyClearedNode(req, i, c[i], c'[i])
  }

  lemma PartlyClearedNodeAbsorbed(req: PgRequest, i: nat, nd: Node, nd': Node)
    requires PartlyClearedNode(req, i, nd, nd')
    ensures ClearedNode(req, i, nd') == ClearedNode(req, i, nd)
  {
    var a, b := nd'.databases - Doomed(req, i, nd'), nd.databases - Doomed(req, i, nd);
    assert a.Keys == b.Keys;
    assert a == b;
  }

  /** Retry equivalence of delete: a delete cut off anywhere and run again ends where an
      undisturbed one ends. */
  lemma DeleteAbsorbed(req: PgRequest, c: Cluster, c': Cluster)
    requires PartlyCleared(req, c, c')
    ensures Cleared(req, c') == Cleared(req, c)
  {
    forall i | 0 <= i < |c| ensures Cleared(req, c')[i] == Cleared(req, c)[i] {
      PartlyClearedNodeAbsorbed(req, i, c[i], c'[i]);
    }
  }

  lemma PartlyClearedChain(req: PgRequest, c: Cluster, c1: Cluster, c2: Cluster)
    requires PartlyCleared(req, c, c1) && PartlyCleared(req, c1, c2)
    ensures PartlyCleared(req, c, c2)
  {
    forall i | 0 <= i < |c| ensures PartlyClearedNode(req, i, c[i], c2[i]) {
      var nd, nd1, nd2 := c[i], c1[i], c2[i];
      assert PartlyClearedNode(req, i, nd, nd1) && PartlyClearedNode(req, i, nd1, nd2);
      assert Owned(nd1, req.user) <= Owned(nd, req.user);
      assert nd.roles - {req.user} - {req.user} == nd.roles - {req.user};
    }
  }

  lemma DropKeepsPartlyCleared(req: PgRequest, c: Cluster, i: nat, db: string)
    requires i < |c| && db in Doomed(req, i, c[i])
    ensures PartlyCleared(req, c, WithoutDatabase(c, i, db))
  {
  }

  /** A node the delete has finished with. */
  ghost predicate NodeCleared(req: PgRequest, i: nat, nd: Node) {
    req.user !in nd.roles && nd.databases.Keys !! Doomed(req, i, nd)
  }

  lemma ClearedWhenAllNodesAre(req: PgRequest, c: Cluster, c': Cluster)
    requires PartlyCleared(req, c, c') && forall i :: 0 <= i < |c'| ==> NodeCleared(req, i, c'[i])
    ensures c' == Cleared(req, c)
  {
    forall i | 0 <= i < |c| ensures c'[i] == ClearedNode(req, i, c[i]) {
      assert NodeCleared(req, i, c'[i]) && PartlyClearedNode(req, i, c[i], c'[i]);
      PartlyClearedNodeAbsorbed(req, i, c[i], c'[i]);
      assert c'[i].databases - Doomed(req, i, c'[i]) == c'[i].databases;
      assert c'[i].roles - {req.user} == c'[i].roles;
    }
  }

  /** Only node `i` may differ. */
  ghost predicate OnlyNode(i: nat, c: Cluster, c': Cluster) {
    |c'| == |c| && forall k :: 0 <= k < |c| && k != i ==> c'[k] == c[k]
  }

  lemma DropIsPartial(req: PgRequest, c: Cluster, i: nat, db: string)
    requires i < |c|
    requires db in RequestedNames(req, i, |req.databases|) || db in Owned(c[i], req.user) || db !in c[i].databases
    ensures PartlyCleared(req, c, WithoutDatabase(c, i, db))
  {
    if db in c[i].databases {
      DropKeepsPartlyCleared(req, c, i, db);
    } else {
      assert c[i].databases - {db} == c[i].databases;
    }
  }

  lemma NothingClearedYet(req: PgRequest, c: Cluster)
    ensures PartlyCleared(req, c, c)
  {
  }

  lemma StillOwned(req: PgRequest, c: Cluster, c': Cluster, i: nat, db: string)
    requires i < |c| && PartlyCleared(req, c, c') && db in Owned(c[i], req.user)
    ensures |c'| == |c| && (db in Owned(c'[i], req.user) || db !in c'[i].databases)
  {
    assert PartlyClearedNode(req, i, c[i], c'[i]);
  }

  /** Drops a list of doomed databases from one node. */
  method DropAll(server: Server, req: PgRequest, i: nat, dbs: seq<string>) returns (ok: bool)
    requires i < |server.cluster|
    requires forall db :: db in dbs ==>
               db in RequestedNames(req, i, |req.databases|) || db in Owned(server.cluster[i], req.user)
    modifies server
    ensures OnlyNode(i, old(server.cluster), server.cluster)
    ensures server.cluster[i].roles == old(server.cluster)[i].roles
    ensures PartlyCleared(req, old(server.cluster), server.cluster)
    ensures server.refused == old(server.refused)
    ensures old(server.clock) <= server.clock <= old(server.clock) + |dbs|
    ensures !ok ==> Failing(server.faults, old(server.clock), server.clock)
    ensures ok ==> server.clock == old(server.clock) + |dbs|
    ensures ok ==> server.cluster[i].databases == old(server.cluster)[i].databases - Elements(dbs)
  {
    hide PartlyCleared, RequestedNames;
    ghost var c := server.cluster;
    NothingClearedYet(req, c);
    var k := 0;
    while k < |dbs|
      modifies server
      invariant 0 <= k <= |dbs|
      invariant OnlyNode(i, c, server.cluster)
      invariant server.cluster[i].roles == c[i].roles
      invariant PartlyCleared(req, c, server.cluster)
      invariant server.refused == old(server.refused) && server.clock == old(server.clock) + k
      invariant server.cluster[i].databases == c[i].databases - Elements(dbs[..k])
    {
      ghost var c1 := server.cluster;
      var db := dbs[k];
      ok := server.DropDatabase(i, db);
      assert db in dbs;
      if db in Owned(c[i], req.user) {
        StillOwned(req, c, c1, i, db);
      }
      DropIsPartial(req, c1, i, db);
      NothingClearedYet(req, c1);
      PartlyClearedChain(req, c, c1, server.cluster);
      if !ok {
        assert Fails(server.faults(server.clock - 1));
        return;
      }
      assert dbs[..k + 1] == dbs[..k] + [db];
      assert Elements(dbs[..k + 1]) == Elements(dbs[..k]) + {db};
      k := k + 1;
    }
    assert dbs[..k] == dbs;
    ok := true;
  }

  function Elements(dbs: seq<string>): set<string> {
    set db | db in dbs
  }

  /** How many entries of the request apply to node `i`. */
  function Entries(req: PgRequest, i: nat, k: nat): nat
    requires k <= |req.databases|
  {
    if k == 0 then 0 else Entries(req, i, k - 1) + if Applies(req, i, k - 1) then 1 else 0
  }

  /** The entries of the request that a delete drops by name on node `i`. */
  method NamesOn(req: PgRequest, i: nat) returns (dbs: seq<string>)
    ensures forall db :: db in dbs <==> db in RequestedNames(req, i, |req.databases|)
    ensures |dbs| == Entries(req, i, |req.databases|)
  {
    dbs := [];
    var k := 0;
    while k < |req.databases|
      invariant 0 <= k <= |req.databases| && |dbs| == Entries(req, i, k)
      invariant forall db :: db in dbs <==> db in RequestedNames(req, i, k)
    {
      NamesStep(req, i, k + 1);
      if req.databases[k].distributed || i == 0 {
        dbs := dbs + [RealName(req.appNamespace, req.databases[k].name)];
      }
      k := k + 1;
    }
  }

  /** What the user would still own on a node after a delete that listed with this outcome. */
  ghost function Missed(req: PgRequest, i: nat, nd: Node, listing: Outcome): set<string> {
    var rest := Owned(nd, req.user) - RequestedNames(req, i, |req.databases|);
    rest - Read(listing, rest)
  }

  lemma NothingMissed(req: PgRequest, i: nat, nd: Node, listing: Outcome)
    requires !listing.CutShort?
    ensures Missed(req, i, nd, listing) == {}
  {
  }

  /** Drops what the request names on the node, then whatever else the listing shows. */
  method DropDoomed(server: Server, req: PgRequest, i: nat) returns (ok: bool)
    requires i < |server.cluster|
    modifies server
    ensures OnlyNode(i, old(server.cluster), server.cluster)
    ensures server.cluster[i].roles == old(server.cluster)[i].roles
    ensures PartlyCleared(req, old(server.cluster), server.cluster)
    ensures server.refused == old(server.refused) && server.clock >= old(server.clock)
    ensures !ok ==> Failing(server.faults, old(server.clock), server.clock)
    ensures ok ==> server.clock > old(server.clock) + Entries(req, i, |req.databases|)
    ensures ok ==> server.cluster[i].databases.Keys !! RequestedNames(req, i, |req.databases|)
    ensures ok ==> Owned(server.cluster[i], req.user) ==
                   Missed(req, i, old(server.cluster)[i],
                          server.faults(old(server.clock) + Entries(req, i, |req.databases|)))
  {
    hide PartlyCleared, RequestedNames, Entries;
    ghost var c := server.cluster;
    var names := NamesOn(req, i);
    ok := DropAll(server, req, i, names);
    ghost var c1 := server.cluster;
    if !ok {
      return;
    }

    ghost var listing := server.faults(server.clock);
    assert Elements(names) == RequestedNames(req, i, |req.databases|);
    LeftOwned(c[i], c1[i], Elements(names), req.user);
    var owned;
    ok, owned := server.ListDatabaseByOwner(i, req.user);
    if !ok {
      assert Fails(server.faults(server.clock - 1));
      return;
    }
    assert Elements(owned) == Read(listing, Owned(c1[i], req.user));
    ok := DropAll(server, req, i, owned);
    PartlyClearedChain(req, c, c1, server.cluster);
    if ok {
      LeftOwned(c1[i], server.cluster[i], Elements(owned), req.user);
    }
  }

  lemma LeftOwned(nd: Node, nd': Node, gone: set<string>, user: string)
    requires nd'.databases == nd.databases - gone
    ensures Owned(nd', user) == Owned(nd, user) - gone
  {
  }

  /** One round of the delete loop.  The role is dropped last.  The server refuses to drop it exactly
      if the request arrives and the listing had been cut short before a database that the user still
      owns; then the delete reports a failure. */
  method DeleteOnNode(server: Server, req: PgRequest, i: nat) returns (ok: bool, ghost asked: bool)
    requires i < |server.cluster|
    modifies server
    ensures OnlyNode(i, old(server.cluster), server.cluster)
    ensures PartlyCleared(req, old(server.cluster), server.cluster)
    ensures server.clock > old(server.clock)
    ensures asked ==> server.clock > ListingAt(req, i, old(server.clock))
    ensures !asked ==> !ok && Failing(server.faults, old(server.clock), server.clock)
    ensures var missed := Missed(req, i, old(server.cluster)[i], server.faults(ListingAt(req, i, old(server.clock))));
            && server.refused == (old(server.refused)
                                  || (asked && missed != {} && server.faults(server.clock - 1) != RequestLost))
            && (asked ==> (ok <==> missed == {} && !Fails(server.faults(server.clock - 1))))
    ensures ok ==> NodeCleared(req, i, server.cluster[i])
    ensures OwnersExist(old(server.cluster)) ==> OwnersExist(server.cluster)
  {
    hide PartlyCleared, RequestedNames, Entries, Missed, OwnersExist;
    ghost var c := server.cluster;
    asked := false;
    NothingClearedYet(req, c);
    ok := server.Call(Connect(i, MAINTENANCE_DB));
    if !ok {
      assert Fails(server.faults(server.clock - 1));
      return;
    }
    ok := DropDoomed(server, req, i);
    ghost var c2 := server.cluster;
    FewerDatabasesKeepOwners(req, c, i, c2);
    if !ok {
      return;
    }
    asked := true;
    ok := server.DropRole(i, req.user);
    if server.cluster != c2 {
      UnusedRoleGoes(req, c2, i, server.cluster);
      PartlyClearedChain(req, c, c2, server.cluster);
    }
  }

  /** When a delete that begins on node `i` at this time lists the databases there. */
  function ListingAt(req: PgRequest, i: nat, from: nat): nat {
    from + 1 + Entries(req, i, |req.databases|)
  }

  lemma FewerDatabasesKeepOwners(req: PgRequest, c: Cluster, i: nat, c': Cluster)
    requires i < |c| && OnlyNode(i, c, c') && c'[i].roles == c[i].roles && PartlyCleared(req, c, c')
    ensures OwnersExist(c) ==> OwnersExist(c')
  {
    assert PartlyClearedNode(req, i, c[i], c'[i]);
  }

  lemma UnusedRoleGoes(req: PgRequest, c: Cluster, i: nat, c': Cluster)
    requires i < |c| && c' == WithoutRole(c, i, req.user) && Owned(c[i], req.user) == {}
    ensures PartlyCleared(req, c, c')
    ensures OwnersExist(c) ==> OwnersExist(c')
  {
    forall db | db in c[i].databases ensures c[i].databases[db].owner != req.user {
      assert db !in Owned(c[i], req.user);
    }
  }

  /** The DELETE handler.  Wherever it stops, deleting again ends where an undisturbed delete of
      the first state ends; when it succeeds that is where the cluster is.  `listings` are the times
      at which it listed databases on the nodes it came to.  On each node it leaves behind, the list
      missed nothing; a server refuses exactly if on the node where it stops the drop of the role
      arrives although the list had missed a database of the user. */
  method DeletePGAll(server: Server, req: PgRequest) returns (ok: bool, ghost listings: seq<nat>, ghost asked: bool)
    modifies server
    ensures PartlyCleared(req, old(server.cluster), server.cluster)
    ensures Cleared(req, server.cluster) == Cleared(req, old(server.cluster))
    ensures server.clock > old(server.clock)
    ensures ok ==> server.cluster == Cleared(req, old(server.cluster)) && |listings| == |server.cluster|
    ensures |listings| <= |old(server.cluster)| && (asked && !ok ==> |listings| > 0)
    ensures listings != [] ==> listings[0] == ListingAt(req, 0, old(server.clock) + 1)
    ensures forall i :: 0 <= i < |listings| ==> old(server.clock) < listings[i] < server.clock
    ensures forall i :: 0 <= i < |listings| && (ok || i < |listings| - 1) ==>
              Missed(req, i, old(server.cluster)[i], server.faults(listings[i])) == {}
    ensures !ok && !asked ==> Failing(server.faults, old(server.clock), server.clock)
    ensures var last := |listings| - 1;
            var missed := if asked && !ok
                          then Missed(req, last, old(server.cluster)[last], server.faults(listings[last])) else {};
            && server.refused == (old(server.refused)
                                  || (missed != {} && server.faults(server.clock - 1) != RequestLost))
            && (asked && !ok ==> missed != {} || Fails(server.faults(server.clock - 1)))
    ensures OwnersExist(old(server.cluster)) ==> OwnersExist(server.cluster)
  {
    hide PartlyCleared, Missed, OwnersExist, NodeCleared, Entries;
    ghost var c := server.cluster;
    listings, asked := [], false;
    NothingClearedYet(req, c);
    ok := server.Call(FindCluster);
    if !ok {
      assert Fails(server.faults(server.clock - 1));
      DeleteAbsorbed(req, c, server.cluster);
      return;
    }
    var index := 0;
    while index < |server.cluster|
      modifies server
      invariant |server.cluster| == |c| && 0 <= index <= |c| && |listings| == index
      invariant PartlyCleared(req, c, server.cluster)
      invariant forall i :: 0 <= i < index ==> NodeCleared(req, i, server.cluster[i])
      invariant forall i :: index <= i < |c| ==> server.cluster[i] == c[i]
      invariant index == 0 ==> server.clock == old(server.clock) + 1
      invariant index > 0 ==> listings[0] == ListingAt(req, 0, old(server.clock) + 1)
      invariant forall i :: 0 <= i < index ==> old(server.clock) < listings[i] < server.clock
      invariant forall i :: 0 <= i < index ==> Missed(req, i, c[i], server.faults(listings[i])) == {}
      invariant server.refused == old(server.refused) && server.clock > old(server.clock)
      invariant OwnersExist(c) ==> OwnersExist(server.cluster)
    {
      ghost var c1, at := server.cluster, ListingAt(req, index, server.clock);
      ok, asked := DeleteOnNode(server, req, index);
      PartlyClearedChain(req, c, c1, server.cluster);
      if asked {
        listings := listings + [at];
      }
      if !ok {
        DeleteAbsorbed(req, c, server.cluster);
        return;
      }
      index := index + 1;
    }
    ClearedWhenAllNodesAre(req, c, server.cluster);
    DeleteAbsorbed(req, c, server.cluster);
    ok := true;
  }

  /** The queue worker's treatment of DELETE: retry on the spot until the handler succeeds.  If the
      failures end at some point, so does the loop, and the cluster is as one delete would leave it,
      whatever was refused on the way; without listings cut short nothing is. */
  method ProcessDelete(server: Server, req: PgRequest, ghost horizon: nat)
    requires forall t: nat :: t >= horizon ==> server.faults(t) == Answered
    modifies server
    ensures server.cluster == Cleared(req, old(server.cluster))
    ensures (forall t :: !server.faults(t).CutShort?) ==> server.refused == old(server.refused)
  {
    hide Cleared, Missed, PartlyCleared, OwnersExist, Entries;
    ghost var listings, asked;
    var ok;
    ok, listings, asked := DeletePGAll(server, req);
    UnrefusedDelete(req, old(server.cluster), server.faults, listings, ok, asked);
    while !ok
      modifies server
      invariant Cleared(req, server.cluster) == Cleared(req, old(server.cluster))
      invariant (forall t :: !server.faults(t).CutShort?) ==> server.refused == old(server.refused)
      invariant ok ==> server.cluster == Cleared(req, old(server.cluster))
      decreases if server.clock < horizon then horizon - server.clock else 0, !ok
    {
      ghost var c := server.cluster;
      ok, listings, asked := DeletePGAll(server, req);
      UnrefusedDelete(req, c, server.faults, listings, ok, asked);
    }
  }

  lemma UnrefusedDelete(req: PgRequest, c: Cluster, f: Faults, listings: seq<nat>, ok: bool, asked: bool)
    requires asked && !ok ==> 0 < |listings| <= |c|
    ensures asked && !ok && !f(listings[|listings| - 1]).CutShort? ==>
              Missed(req, |listings| - 1, c[|listings| - 1], f(listings[|listings| - 1])) == {}
  {
    if asked && !ok && !f(listings[|listings| - 1]).CutShort? {
      NothingMissed(req, |listings| - 1, c[|listings| - 1], f(listings[|listings| - 1]));
    }
  }

  /** A delete that is refused: the user owns a database the request does not name, and the listing
      breaks off before it.  The role is dropped too early, the server refuses, and everything is
      still there; the retry clears it. */
  method DeleteCanBeRefused() returns (server: Server, first: bool, refusedThen: bool)
    ensures !first && refusedThen
    ensures server.cluster == [Node(map[], map[])]
  {
    var nd := Node(map["u" := Role("p", None, false)], map["ns_old" := Database("u", {}, None, {})]);
    var req := PgRequest("ns", "u", "p", []);
    server := new Server([nd], t => if t == 2 then CutShort({}) else Answered);
    ghost var listings, asked;
    first, listings, asked := DeletePGAll(server, req);
    assert Owned(nd, "u") == {"ns_old"};
    assert Missed(req, 0, nd, CutShort({})) == {"ns_old"};
    assert ListingAt(req, 0, 1) == 2;
    refusedThen := server.refused;
    ProcessDelete(server, req, 3);
    assert Cleared(req, [nd])[0] == Node(map[], map[]);
  }
}
