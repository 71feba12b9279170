/**
 The prune that ends an UPDATE, which lists the user's databases on the master only, and the UPDATE
 itself over any number of failed attempts.
 */
module PgPrune {
  import opened Wrappers
  import opened Calls
  import opened PgState
  import opened PgProvisioning
  import opened PgTarget
  import opened PgServer
  import opened PgRemoval

  function AllNames(req: PgRequest): set<string> {
    set j: nat | j < |req.databases| :: NameOf(req, j)
  }

  /** The databases on the master that the user owns and no longer asks for. */
  function Stale(req: PgRequest, c: Cluster): set<string>
    requires |c| > 0
  {
    Owned(c[0], req.user) - AllNames(req)
  }

  /** The stale databases that a listing with this outcome shows. */
  function Found(req: PgRequest, c: Cluster, listing: Outcome): (found: set<string>)
    requires |c| > 0
    ensures found <= Stale(req, c) && (!listing.CutShort? ==> found == Stale(req, c))
  {
    Read(listing, Owned(c[0], req.user)) - AllNames(req)
  }

  ghost function WithoutEverywhere(c: Cluster, gone: set<string>): (c': Cluster)
    ensures |c'| == |c|
  {
    seq(|c|, i requires 0 <= i < |c| => c[i].(databases := c[i].databases - gone))
  }

  /** What a prune is for. */
  ghost function Pruned(req: PgRequest, c: Cluster): (c': Cluster)
    requires |c| > 0
    ensures |c'| == |c|
  {
    WithoutEverywhere(c, Stale(req, c))
  }

  /** A prune is exact, on the master and everywhere, exactly when its listing showed every stale
      database. */
  lemma ExactWhenAllFound(req: PgRequest, c: Cluster, found: set<string>)
    requires |c| > 0 && found <= Stale(req, c)
    ensures WithoutEverywhere(c, found)[0] == Pruned(req, c)[0] <==> found == Stale(req, c)
    ensures WithoutEverywhere(c, found) == Pruned(req, c) <==> found == Stale(req, c)
  {
    if db :| db in Stale(req, c) && db !in found {
      assert db in WithoutEverywhere(c, found)[0].databases;
      assert db !in Pruned(req, c)[0].databases;
    } else {
      assert found == Stale(req, c);
    }
  }

  /** `c'` is `c` with some stale databases gone: the master first, then the workers in order. */
  ghost predicate PartlyPruned(req: PgRequest, c: Cluster, c': Cluster) {
    && |c| == |c'| > 0
    && (forall i :: 0 <= i < |c| ==> StaleGone(Stale(req, c), c[i], c'[i]))
    && (forall i, db :: 0 < i < |c| && db in c[i].databases && db !in c'[i].databases ==>
          db !in c'[i - 1].databases)
  }

  /** `nd'` is `nd` without some of `stale`. */
  ghost predicate StaleGone(stale: set<string>, nd: Node, nd': Node) {
    && nd'.roles == nd.roles
    && nd'.databases.Keys <= nd.databases.Keys <= nd'.databases.Keys + stale
    && (forall db :: db in nd'.databases ==> nd'.databases[db] == nd.databases[db])
  }

  lemma NothingPrunedYet(req: PgRequest, c: Cluster)
    requires |c| > 0
    ensures PartlyPruned(req, c, c)
  {
  }

  lemma PartlyPrunedChain(req: PgRequest, c: Cluster, c1: Cluster, c2: Cluster)
    requires PartlyPruned(req, c, c1) && PartlyPruned(req, c1, c2)
    ensures PartlyPruned(req, c, c2)
  {
    StaleAfterCut(req, c, c1);
    forall i | 0 <= i < |c| ensures StaleGone(Stale(req, c), c[i], c2[i]) {
      assert StaleGone(Stale(req, c), c[i], c1[i]) && StaleGone(Stale(req, c1), c1[i], c2[i]);
    }
    forall i, db | 0 < i < |c| && db in c[i].databases && db !in c2[i].databases ensures db !in c2[i - 1].databases {
      assert StaleGone(Stale(req, c1), c1[i - 1], c2[i - 1]);
      if db !in c1[i].databases {
        assert db !in c1[i - 1].databases;
      }
    }
  }

  /** Databases the master has already lost in a prune that was cut off. */
  ghost function Lost(req: PgRequest, c: Cluster, c': Cluster): set<string>
    requires |c| == |c'| > 0
  {
    set db | db in Stale(req, c) && db !in c'[0].databases
  }

  lemma StaleAfterCut(req: PgRequest, c: Cluster, c': Cluster)
    requires PartlyPruned(req, c, c')
    ensures Stale(req, c') == Stale(req, c) - Lost(req, c, c')
  {
    assert StaleGone(Stale(req, c), c[0], c'[0]);
  }

  /** A prune that is cut off and run again reaches the result of an undisturbed one exactly when
      no node still holds a database that the master had already dropped: the second prune lists
      the master only.  On the master itself the two always agree. */
  lemma PruneRetry(req: PgRequest, c: Cluster, c': Cluster)
    requires PartlyPruned(req, c, c')
    ensures Pruned(req, c')[0] == Pruned(req, c)[0]
    ensures Pruned(req, c') == Pruned(req, c) <==>
            forall i :: 0 <= i < |c'| ==> c'[i].databases.Keys !! Lost(req, c, c')
  {
    StaleAfterCut(req, c, c');
    forall i | 0 <= i < |c|
      ensures Pruned(req, c')[i] == Pruned(req, c)[i] <==> c'[i].databases.Keys !! Lost(req, c, c')
    {
      PruneRetryOnNode(Stale(req, c), Lost(req, c, c'), c[i], c'[i]);
    }
    assert c'[0].databases.Keys !! Lost(req, c, c');
  }

  lemma PruneRetryOnNode(stale: set<string>, lost: set<string>, nd: Node, nd': Node)
    requires StaleGone(stale, nd, nd') && lost <= stale
    ensures nd'.(databases := nd'.databases - (stale - lost)) == nd.(databases := nd.databases - stale)
            <==> nd'.databases.Keys !! lost
  {
    var a, b := nd'.databases - (stale - lost), nd.databases - stale;
    if nd'.databases.Keys !! lost {
      assert a.Keys == b.Keys;
      assert a == b;
    } else {
      var db :| db in nd'.databases && db in lost;
      assert db in a && db !in b;
    }
  }

  /** Exact prune: what goes, from every node, are the databases that the user owns on the master and
      that no entry of the request asks for; everything else stays as it is. */
  lemma PruneIsExact(req: PgRequest, c: Cluster, i: nat, name: string)
    requires i < |c|
    ensures HasDatabase(Pruned(req, c), i, name) <==>
            HasDatabase(c, i, name)
            && (HasDatabase(c, 0, name) && c[0].databases[name].owner == req.user ==>
                  exists j: nat :: AsksFor(req, 0, j, name))
    ensures HasDatabase(Pruned(req, c), i, name) ==> Pruned(req, c)[i].databases[name] == c[i].databases[name]
    ensures Pruned(req, c)[i].roles == c[i].roles
  {
    AllNamesMean(req, name);
  }

  lemma AllNamesMean(req: PgRequest, name: string)
    ensures name in AllNames(req) <==> exists j: nat :: AsksFor(req, 0, j, name)
  {
    forall j: nat | j < |req.databases| ensures AsksFor(req, 0, j, name) <==> NameOf(req, j) == name {
      AsksForMeans(req, 0, j, name);
    }
  }

  // ---- The loop over stale databases and nodes ----

  /** The first `k` stale databases dropped everywhere and the next one on the first `m` nodes. */
  ghost predicate PrunedSoFar(req: PgRequest, c: Cluster, stale: seq<string>, k: nat, m: nat, c': Cluster)
    requires k <= |stale|
  {
    && |c'| == |c| > 0
    && forall i :: 0 <= i < |c| ==> c'[i] == c[i].(databases := c[i].databases - Gone(stale, k, i < m))
  }

  function Gone(stale: seq<string>, k: nat, next: bool): set<string>
    requires k <= |stale|
  {
    (set j | 0 <= j < k :: stale[j]) + if next && k < |stale| then {stale[k]} else {}
  }

  lemma SoFarIsPartly(req: PgRequest, c: Cluster, stale: seq<string>, k: nat, m: nat, c': Cluster)
    requires k <= |stale| && PrunedSoFar(req, c, stale, k, m, c')
    requires forall db :: db in stale ==> db in Stale(req, c)
    ensures PartlyPruned(req, c, c')
  {
    forall i, db | 0 < i < |c| && db in c[i].databases && db !in c'[i].databases
      ensures db !in c'[i - 1].databases
    {
      assert db in Gone(stale, k, i < m);
      assert db in Gone(stale, k, i - 1 < m);
    }
  }

  /** The listed databases that the request does not name, in order. */
  method StaleAmong(req: PgRequest, dbs: seq<string>) returns (stale: seq<string>)
    requires forall i, j :: 0 <= i < j < |dbs| ==> dbs[i] != dbs[j]
    ensures forall db :: db in stale <==> db in dbs && db !in AllNames(req)
    ensures forall i, j :: 0 <= i < j < |stale| ==> stale[i] != stale[j]
  {
    stale := [];
    var k := 0;
    while k < |dbs|
      invariant 0 <= k <= |dbs|
      invariant forall db :: db in stale <==> db in dbs[..k] && db !in AllNames(req)
      invariant forall i, j :: 0 <= i < j < |stale| ==> stale[i] != stale[j]
    {
      var found := false;
      var j := 0;
      while j < |req.databases|
        invariant 0 <= j <= |req.databases|
        invariant found <==> exists x: nat :: x < j && NameOf(req, x) == dbs[k]
      {
        if RealName(req.appNamespace, req.databases[j].name) == dbs[k] {
          found := true;
          assert NameOf(req, j) == dbs[k];
        }
        j := j + 1;
      }
      assert dbs[..k + 1] == dbs[..k] + [dbs[k]];
      assert dbs[k] !in dbs[..k];
      if !found {
        stale := stale + [dbs[k]];
      }
      k := k + 1;
    }
    assert dbs[..k] == dbs;
  }

  /** The drops that have taken effect after `calls` calls, two a drop, the last of which failed. */
  function Drops(calls: nat, last: Outcome): nat
    requires calls > 0
  {
    (calls - 1) / 2 + if calls % 2 == 0 && last == AnswerLost then 1 else 0
  }

  lemma DropsAfter(rounds: nat, calls: nat, last: Outcome)
    requires calls > 0
    ensures Drops(2 * rounds + calls, last) == rounds + Drops(calls, last)
  {
  }

  /** Drops one database on all nodes in order, up to the first call that fails. */
  method DropRound(server: Server, req: PgRequest, stale: seq<string>, round: nat, ghost c: Cluster)
    returns (ok: bool, ghost m: nat)
    requires round < |stale| && PrunedSoFar(req, c, stale, round, 0, server.cluster)
    modifies server
    ensures m <= |c| && PrunedSoFar(req, c, stale, round, m, server.cluster)
    ensures server.clock >= old(server.clock) && server.refused == old(server.refused)
    ensures ok ==> m == |c| && server.clock == old(server.clock) + 2 * |c|
    ensures !ok ==> server.clock > old(server.clock) && Fails(server.faults(server.clock - 1))
    ensures !Failing(server.faults, old(server.clock), if ok then server.clock else server.clock - 1)
    ensures !ok ==> m == Drops(server.clock - old(server.clock), server.faults(server.clock - 1))
  {
    ok, m := true, 0;
    var index := 0;
    while index < |server.cluster|
      modifies server
      invariant 0 <= index <= |c| == |server.cluster| && m == index && ok
      invariant PrunedSoFar(req, c, stale, round, m, server.cluster)
      invariant server.refused == old(server.refused) && server.clock == old(server.clock) + 2 * m
      invariant !Failing(server.faults, old(server.clock), server.clock)
    {
      ghost var c1 := server.cluster;
      ok := server.Call(Connect(index, MAINTENANCE_DB));
      if !ok {
        return;
      }
      ok := server.DropDatabase(index, stale[round]);
      if server.faults(server.clock - 1) != RequestLost {
        NextGone(req, c, stale, round, index, c1, server.cluster);
        m := m + 1;
      }
      if !ok {
        return;
      }
      index := index + 1;
    }
  }

  /** Drops the listed databases in turn, each on all nodes in order, up to the first call that
      fails: by then `k` of them are gone everywhere and the next one from `m` nodes. */
  method DropEverywhere(server: Server, req: PgRequest, stale: seq<string>)
    returns (ok: bool, ghost k: nat, ghost m: nat)
    requires |server.cluster| > 0
    modifies server
    ensures k <= |stale| && m <= |old(server.cluster)|
    ensures PrunedSoFar(req, old(server.cluster), stale, k, m, server.cluster)
    ensures server.clock >= old(server.clock) && server.refused == old(server.refused)
    ensures ok ==> k == |stale| && m == 0
    ensures ok ==> server.clock == old(server.clock) + 2 * (|stale| * |old(server.cluster)|)
    ensures !ok ==> server.clock > old(server.clock) && Fails(server.faults(server.clock - 1))
    ensures !Failing(server.faults, old(server.clock), if ok then server.clock else server.clock - 1)
    ensures !ok ==> k * |old(server.cluster)| + m ==
                    Drops(server.clock - old(server.clock), server.faults(server.clock - 1))
  {
    hide PrunedSoFar, Drops, Fails;
    ghost var c := server.cluster;
    ok, m, k := true, 0, 0;
    NothingGone(req, c, stale);
    var round := 0;
    while round < |stale|
      modifies server
      invariant 0 <= round <= |stale| && k == round && m == 0 && ok
      invariant PrunedSoFar(req, c, stale, k, 0, server.cluster)
      invariant server.refused == old(server.refused)
      invariant server.clock == old(server.clock) + 2 * (k * |c|)
      invariant !Failing(server.faults, old(server.clock), server.clock)
    {
      ghost var from := server.clock;
      ok, m := DropRound(server, req, stale, round, c);
      if !ok {
        DropsAfter(k * |c|, server.clock - from, server.faults(server.clock - 1));
        return;
      }
      assert (k + 1) * |c| == k * |c| + |c|;
      RoundDone(req, c, stale, k, server.cluster);
      round, k, m := round + 1, k + 1, 0;
    }
  }

  lemma NothingGone(req: PgRequest, c: Cluster, stale: seq<string>)
    requires |c| > 0
    ensures PrunedSoFar(req, c, stale, 0, 0, c)
  {
    forall i | 0 <= i < |c| ensures c[i].databases - Gone(stale, 0, false) == c[i].databases {
    }
  }

  lemma NextGone(req: PgRequest, c: Cluster, stale: seq<string>, k: nat, i: nat, c1: Cluster, c2: Cluster)
    requires k < |stale| && i < |c| && PrunedSoFar(req, c, stale, k, i, c1)
    requires c2 == WithoutDatabase(c1, i, stale[k])
    ensures PrunedSoFar(req, c, stale, k, i + 1, c2)
  {
    assert c[i].databases - Gone(stale, k, false) - {stale[k]} == c[i].databases - Gone(stale, k, true);
  }

  lemma RoundDone(req: PgRequest, c: Cluster, stale: seq<string>, k: nat, c': Cluster)
    requires k < |stale| && PrunedSoFar(req, c, stale, k, |c|, c')
    ensures PrunedSoFar(req, c, stale, k + 1, 0, c')
  {
    assert Gone(stale, k, true) == Gone(stale, k + 1, false);
  }

  lemma PrunedInFull(req: PgRequest, c: Cluster, stale: seq<string>, c': Cluster)
    requires |c| > 0 && PrunedSoFar(req, c, stale, |stale|, 0, c')
    ensures c' == WithoutEverywhere(c, Elements(stale))
  {
    assert Gone(stale, |stale|, false) == Elements(stale);
    assert Gone(stale, |stale|, true) == Elements(stale);
  }

  /** The three calls before the drops; the third lists the databases. */
  const LISTING := 2

  /** Finds the stale databases. */
  method ListStale(server: Server, req: PgRequest) returns (ok: bool, stale: seq<string>)
    requires |server.cluster| > 0
    modifies server
    ensures server.cluster == old(server.cluster) && server.refused == old(server.refused)
    ensures old(server.clock) < server.clock <= old(server.clock) + 1 + LISTING
    ensures ok ==> server.clock == old(server.clock) + 1 + LISTING
    ensures !ok ==> Fails(server.faults(server.clock - 1))
    ensures !Failing(server.faults, old(server.clock), if ok then server.clock else server.clock - 1)
    ensures ok ==> Lists(stale, Found(req, server.cluster, server.faults(old(server.clock) + LISTING)))
  {
    stale := [];
    ok := server.Call(FindCluster);
    if !ok {
      return;
    }
    ok := server.Call(Connect(0, MAINTENANCE_DB));
    if !ok {
      return;
    }
    var dbs;
    ok, dbs := server.ListDatabaseByOwner(0, req.user);
    if ok {
      stale := StaleAmong(req, dbs);
    }
  }

  /** The prune.  Success leaves every node without the stale databases its listing showed, so the
      master is as it should be exactly if it showed them all, which it did unless it was cut short;
      a failure leaves a prune cut off after `k` databases and `m` nodes of the next. */
  method DeleteDatabaseIfNotExists(server: Server, req: PgRequest)
    returns (ok: bool, ghost stale: seq<string>, ghost k: nat, ghost m: nat)
    requires |server.cluster| > 0
    modifies server
    ensures PartlyPruned(req, old(server.cluster), server.cluster)
    ensures ok ==> server.clock > old(server.clock) + LISTING
    ensures ok ==> server.cluster == WithoutEverywhere(old(server.cluster),
                     Found(req, old(server.cluster), server.faults(old(server.clock) + LISTING)))
    ensures ok ==> (server.cluster[0] == Pruned(req, old(server.cluster))[0]
                    <==> Found(req, old(server.cluster), server.faults(old(server.clock) + LISTING))
                         == Stale(req, old(server.cluster)))
    ensures !ok ==> server.clock > old(server.clock) && Fails(server.faults(server.clock - 1))
    ensures !Failing(server.faults, old(server.clock), if ok then server.clock else server.clock - 1)
    ensures k <= |stale| && m <= |old(server.cluster)|
    ensures PrunedSoFar(req, old(server.cluster), stale, k, m, server.cluster)
    ensures ok || server.clock > old(server.clock) + 1 + LISTING ==>
              Lists(stale, Found(req, old(server.cluster), server.faults(old(server.clock) + LISTING)))
    ensures ok ==> server.clock == old(server.clock) + 1 + LISTING + 2 * (|stale| * |old(server.cluster)|)
    ensures !ok && server.clock > old(server.clock) + 1 + LISTING ==>
              k * |old(server.cluster)| + m ==
              Drops(server.clock - (old(server.clock) + 1 + LISTING), server.faults(server.clock - 1))
    ensures server.refused == old(server.refused)
    ensures OwnersExist(old(server.cluster)) ==> OwnersExist(server.cluster)
  {
    hide PrunedSoFar, PartlyPruned, Drops, Found, OwnersExist, WithoutEverywhere, Elements, Stale, Fails, Lists;
    ghost var c, listing := server.cluster, server.faults(server.clock + LISTING);
    stale, k, m := [], 0, 0;
    NothingGone(req, c, stale);
    NothingPrunedYet(req, c);
    var listed;
    ok, listed := ListStale(server, req);
    if !ok {
      return;
    }
    stale := listed;
    ListedIsFound(req, c, listing, stale);
    ok, k, m := DropEverywhere(server, req, listed);
    SoFarIsPartly(req, c, stale, k, m, server.cluster);
    PartlyPrunedKeepsOwners(req, c, server.cluster);
    if ok {
      PrunedInFull(req, c, stale, server.cluster);
      ExactWhenAllFound(req, c, Found(req, c, listing));
    }
  }

  lemma ListedIsFound(req: PgRequest, c: Cluster, listing: Outcome, stale: seq<string>)
    requires |c| > 0 && Lists(stale, Found(req, c, listing))
    ensures Elements(stale) == Found(req, c, listing)
    ensures forall db :: db in stale ==> db in Stale(req, c)
  {
  }

  lemma PartlyPrunedKeepsOwners(req: PgRequest, c: Cluster, c': Cluster)
    requires PartlyPruned(req, c, c')
    ensures OwnersExist(c) ==> OwnersExist(c')
  {
    forall i | 0 <= i < |c| ensures StaleGone(Stale(req, c), c[i], c'[i]) {
    }
  }

  /** A prune that reports success and is not exact: the listing breaks off before the stale database,
      so there is nothing to drop. */
  method PruneCanMissADatabase() returns (server: Server, ok: bool)
    ensures ok
    ensures var nd := Node(map["u" := Role("p", None, false)], map["ns_old" := Database("u", {}, None, {})]);
            server.cluster == [nd] != Pruned(PgRequest("ns", "u", "p", []), [nd])
  {
    var nd := Node(map["u" := Role("p", None, false)], map["ns_old" := Database("u", {}, None, {})]);
    var req := PgRequest("ns", "u", "p", []);
    server := new Server([nd], t => if t == LISTING then CutShort({}) else Answered);
    ghost var stale, k, m;
    ok, stale, k, m := DeleteDatabaseIfNotExists(server, req);
    assert Stale(req, [nd]) == {"ns_old"} by {
      assert AllNames(req) == {};
      assert Owned(nd, "u") == {"ns_old"};
    }
    assert Found(req, [nd], CutShort({})) == {};
    ExactWhenAllFound(req, [nd], {});
    assert nd.databases - {} == nd.databases;
  }

  /** A prune that loses one call and is run again: the database is dropped from the master, the
      connection to the worker fails, and the second prune finds nothing stale.  The worker keeps its
      copy for good. */
  method PruneCanLeaveAWorkerCopy() returns (server: Server, first: bool, second: bool)
    ensures !first && second
    ensures var nd := Node(map["u" := Role("p", None, false)], map["ns_old" := Database("u", {}, None, {})]);
            && server.cluster == [nd.(databases := map[]), nd]
            && Pruned(PgRequest("ns", "u", "p", []), [nd, nd])[1].databases == map[]
  {
    var nd := Node(map["u" := Role("p", None, false)], map["ns_old" := Database("u", {}, None, {})]);
    var req := PgRequest("ns", "u", "p", []);
    ghost var c, cut := [nd, nd], [nd.(databases := map[]), nd];
    assert AllNames(req) == {};
    assert Owned(nd, "u") == {"ns_old"};
    server := new Server([nd, nd], t => if t == 5 then RequestLost else Answered);
    ghost var stale, k, m;
    first, stale, k, m := DeleteDatabaseIfNotExists(server, req);
    assert Found(req, c, Answered) == {"ns_old"};
    assert Fails(server.faults(5)) && forall t: nat :: t != 5 ==> !Fails(server.faults(t));
    if first || server.clock > 3 {
      OnlyOne(stale, "ns_old");
    }
    assert server.clock == 6 && Drops(3, RequestLost) == 1;
    assert k == 0 && m == 1;
    OneDropped(req, nd, server.cluster);
    assert Found(req, cut, Answered) == {};
    second, stale, k, m := DeleteDatabaseIfNotExists(server, req);
    assert nd.databases - {} == nd.databases && cut[0].databases - {} == cut[0].databases;
    assert Pruned(req, c)[1].databases == nd.databases - {"ns_old"} == map[];
  }

  function Nth(dbs: seq<string>, k: nat): string {
    if k < |dbs| then dbs[k] else ""
  }

  lemma OnlyOne(dbs: seq<string>, db: string)
    requires Lists(dbs, {db})
    ensures dbs == [db]
  {
    assert db in dbs;
    forall k | 0 <= k < |dbs| ensures dbs[k] == db {
      assert dbs[k] in dbs;
    }
    assert Nth(dbs, 0) == db && |dbs| >= 2 ==> Nth(dbs, 1) == db;
  }

  lemma OneDropped(req: PgRequest, nd: Node, c: Cluster)
    requires PrunedSoFar(req, [nd, nd], ["ns_old"], 0, 1, c) && nd.databases.Keys == {"ns_old"}
    ensures c == [nd.(databases := map[]), nd]
  {
    assert nd.databases - {"ns_old"} == map[] && nd.databases - {} == nd.databases;
    assert Gone(["ns_old"], 0, true) == {"ns_old"} && Gone(["ns_old"], 0, false) == {};
  }

  // ---- Update: provision, then prune ----

  lemma {:induction false} StepKeepsOwners(ops: seq<Op>, f: Faults, w: World)
    requires OwnersExist(w.cluster)
    ensures OwnersExist(IssueStep(ops, f, w).world.cluster)
  {
    hide Issue;
    if ops != [] {
      StepKeepsOwners(ops[1..], f, Issue(ops[0], f, w).world);
    }
  }

  lemma {:induction false} RunKeepsOwners(plan: Plan, f: Faults, w: World)
    requires OwnersExist(w.cluster)
    ensures OwnersExist(Run(plan, f, w).world.cluster)
  {
    if plan != [] {
      StepKeepsOwners(plan[0], f, w);
      RunKeepsOwners(plan[1..], f, IssueStep(plan[0], f, w).world);
    }
  }

  /** One node at the target of a request over `n` nodes. */
  ghost function NodeAim(req: PgRequest, i: nat, n: nat, nd: Node): Node {
    if i == 0 then WithWorkers(req, n, 0, TargetNode(req, i, nd)) else TargetNode(req, i, nd)
  }

  lemma AimAt(req: PgRequest, c: Cluster, i: nat)
    requires i < |c|
    ensures |Target(req, |c|, c)| == |c| && Target(req, |c|, c)[i] == NodeAim(req, i, |c|, c[i])
  {
    hide WithWorkers, TargetNode;
  }

  /** A target stays a target when stale databases go: none of them is requested. */
  lemma TargetWithoutStale(req: PgRequest, t: Cluster, t': Cluster)
    requires |t| > 0 && Target(req, |t|, t) == t && PartlyPruned(req, t, t')
    ensures Target(req, |t'|, t') == t'
  {
    hide PartlyPruned, Target, NodeAim, StaleGone;
    GoneOnNode(req, t, t', 0);
    AimAt(req, t', 0);
    forall i | 0 <= i < |t| ensures Target(req, |t'|, t')[i] == t'[i] {
      GoneOnNode(req, t, t', i);
      AimAt(req, t, i);
      AimAt(req, t', i);
      NodeWithoutStale(req, i, t[i], t'[i], Stale(req, t), |t|);
    }
    assert Target(req, |t'|, t') == t';
  }

  lemma GoneOnNode(req: PgRequest, t: Cluster, t': Cluster, i: nat)
    requires PartlyPruned(req, t, t') && i < |t|
    ensures |t'| == |t| && StaleGone(Stale(req, t), t[i], t'[i])
  {
  }

  lemma NodeWithoutStale(req: PgRequest, i: nat, nd: Node, nd': Node, stale: set<string>, n: nat)
    requires StaleGone(stale, nd, nd') && stale !! AllNames(req)
    requires NodeAim(req, i, n, nd) == nd
    ensures NodeAim(req, i, n, nd') == nd'
  {
    hide TargetDatabase, WorkersBelow, DistributedName;
    var result' := NodeAim(req, i, n, nd');
    forall name | name in RequestedNames(req, i, |req.databases|) ensures name in nd'.databases {
      assert name in TargetNode(req, i, nd).databases && name in AllNames(req);
    }
    assert result'.databases.Keys == nd'.databases.Keys;
    forall name | name in nd'.databases ensures result'.databases[name] == nd'.databases[name] {
      SameTarget(req, i, name, nd, nd');
    }
    assert result'.databases == nd'.databases;
  }

  lemma SameTarget(req: PgRequest, i: nat, name: string, nd: Node, nd': Node)
    requires name in nd.databases && name in nd'.databases && nd'.databases[name] == nd.databases[name]
    ensures TargetDatabase(req, i, |req.databases|, name, nd') == TargetDatabase(req, i, |req.databases|, name, nd)
  {
  }

  /** Where a request aims, and where an UPDATE aims. */
  ghost function Aim(req: PgRequest, c: Cluster): (t: Cluster)
    ensures |t| == |c|
  {
    Target(req, |c|, c)
  }

  /** The provisioning half of an UPDATE that begins in this world. */
  function Provisioned(req: PgRequest, f: Faults, w: World): Attempt {
    Run(CreatePlan(req, |w.cluster|), f, w)
  }

  /** What the listing of an UPDATE that begins in this world meets. */
  function ListingOf(req: PgRequest, f: Faults, w: World): Outcome {
    f(Provisioned(req, f, w).world.clock + LISTING)
  }

  /** What an UPDATE that begins in this world leaves if it succeeds. */
  ghost function Updated(req: PgRequest, f: Faults, w: World): Cluster
    requires |w.cluster| > 0
  {
    WithoutEverywhere(Aim(req, w.cluster), Found(req, Aim(req, w.cluster), ListingOf(req, f, w)))
  }

  /** The UPDATE handler.  If provisioning fails nothing is pruned.  Success leaves the target without
      the stale databases the listing showed; without a listing cut short the user's databases on the
      master are then exactly the requested ones that are not somebody else's.  It fails only because
      a call does or a query misled it, and then still aims at the same target, but for stale databases
      that have gone. */
  method UpdatePGRequest(server: Server, req: PgRequest) returns (ok: bool)
    requires |server.cluster| > 0 && req.user != ""
    modifies server
    ensures server.clock > old(server.clock)
    ensures !Provisioned(req, server.faults, old(server.Now())).ok ==>
              !ok && server.Now() == Provisioned(req, server.faults, old(server.Now())).world
    ensures Provisioned(req, server.faults, old(server.Now())).ok ==>
              PartlyPruned(req, Aim(req, old(server.cluster)), server.cluster)
    ensures PartlyPruned(req, Aim(req, old(server.cluster)), Aim(req, server.cluster))
    ensures ok ==> server.cluster == Updated(req, server.faults, old(server.Now()))
    ensures ok ==> Provisioned(req, server.faults, old(server.Now())).world.clock + LISTING < server.clock
    ensures ok && !ListingOf(req, server.faults, old(server.Now())).CutShort? ==>
              forall db :: db in Owned(server.cluster[0], req.user) <==>
                (exists j: nat :: AsksFor(req, 0, j, db))
                && (db in old(server.cluster)[0].databases ==>
                      old(server.cluster)[0].databases[db].owner == req.user)
    ensures !ok ==> Failing(server.faults, old(server.clock), server.clock)
                    || MisledInRun(CreatePlan(req, |old(server.cluster)|), server.faults, old(server.Now()))
    ensures !ok ==> Disturbed(server.faults, old(server.clock), server.clock)
    ensures server.refused ==
            (old(server.refused)
             || MisledInRun(CreatePlan(req, |old(server.cluster)|), server.faults, old(server.Now())))
    ensures OwnersExist(old(server.cluster)) ==> OwnersExist(server.cluster)
  {
    hide Target, PartlyPruned, Found, WithoutEverywhere, OwnersExist, CreatePlan, PrunedSoFar, Run, Fails;
    ghost var c, w := server.cluster, server.Now();
    ok := CreateOrUpdatePGRequest(server, req, |server.cluster|);
    RunKeepsSize(CreatePlan(req, |c|), server.faults, w);
    if OwnersExist(c) {
      RunKeepsOwners(CreatePlan(req, |c|), server.faults, w);
    }
    NothingPrunedYet(req, Aim(req, c));
    if ok {
      ghost var t, middle := server.cluster, server.clock;
      ghost var stale, k, m;
      ok, stale, k, m := DeleteDatabaseIfNotExists(server, req);
      TargetWithoutStale(req, t, server.cluster);
      if ok {
        UpdateLeavesTheRequested(req, c);
      } else {
        LastCallFailed(server.faults, w.clock, server.clock);
      }
    }
  }

  lemma LastCallFailed(f: Faults, from: nat, to: nat)
    requires from < to && Fails(f(to - 1))
    ensures Failing(f, from, to) && Disturbed(f, from, to)
  {
  }

  lemma UpdateLeavesTheRequested(req: PgRequest, c: Cluster)
    requires |c| > 0
    ensures forall db :: db in Owned(Pruned(req, Target(req, |c|, c))[0], req.user) <==>
              (exists j: nat :: AsksFor(req, 0, j, db))
              && (db in c[0].databases ==> c[0].databases[db].owner == req.user)
  {
    hide Pruned, Target, AsksFor;
    var t := Target(req, |c|, c);
    forall db ensures db in Owned(Pruned(req, t)[0], req.user) <==>
                      (exists j: nat :: AsksFor(req, 0, j, db))
                      && (db in c[0].databases ==> c[0].databases[db].owner == req.user)
    {
      PruneIsExact(req, t, 0, db);
      TargetNames(req, |c|, c, 0, db);
    }
  }

  /** An UPDATE requeued until it succeeds, `tries` times at most; `starts` are the worlds in which
      its attempts began.  However often it was cut off, and wherever, the attempt that succeeds leaves
      on the master what one undisturbed UPDATE of the first state leaves, exactly if its listing showed
      every stale database that was left; and then every node is as one undisturbed UPDATE leaves it,
      exactly if no node held a copy of a database that an earlier attempt had dropped from the master.
      Every attempt that fails was disturbed, so once the failures end (at `horizon`) one succeeds. */
  method ProcessUpdate(server: Server, req: PgRequest, tries: nat, ghost horizon: nat)
    returns (ok: bool, ghost starts: seq<World>)
    requires |server.cluster| > 0 && req.user != ""
    modifies server
    ensures |starts| <= tries && (!ok ==> |starts| == tries) && (tries > 0 ==> starts != [])
    ensures starts != [] ==> starts[0] == old(server.Now())
    ensures forall k :: 0 <= k < |starts| ==>
              && |starts[k].cluster| == |old(server.cluster)|
              && PartlyPruned(req, Aim(req, old(server.cluster)), Aim(req, starts[k].cluster))
              && (k > 0 ==> Disturbed(server.faults, starts[k - 1].clock, starts[k].clock))
    ensures !ok && tries > 0 ==> Disturbed(server.faults, starts[tries - 1].clock, server.clock)
    ensures PartlyPruned(req, Aim(req, old(server.cluster)), Aim(req, server.cluster))
    ensures ok ==> starts != [] && server.cluster == Updated(req, server.faults, starts[|starts| - 1])
                   && Provisioned(req, server.faults, starts[|starts| - 1]).world.clock + LISTING < server.clock
    ensures ok ==>
              var last := starts[|starts| - 1];
              var complete := Found(req, Aim(req, last.cluster), ListingOf(req, server.faults, last))
                              == Stale(req, Aim(req, last.cluster));
              && |server.cluster| > 0
              && (server.cluster[0] == Pruned(req, Aim(req, old(server.cluster)))[0] <==> complete)
              && (complete ==>
                    (server.cluster == Pruned(req, Aim(req, old(server.cluster)))
                     <==> forall i :: 0 <= i < |last.cluster| ==>
                            Aim(req, last.cluster)[i].databases.Keys
                            !! Lost(req, Aim(req, old(server.cluster)), Aim(req, last.cluster))))
    ensures ok && !ListingOf(req, server.faults, starts[|starts| - 1]).CutShort? ==>
              |server.cluster| > 0 && server.cluster[0] == Pruned(req, Aim(req, old(server.cluster)))[0]
    ensures Quiet(server.faults, horizon) && tries > 0 && old(server.clock) + tries > horizon ==> ok
  {
    hide Target, Found, WithoutEverywhere, OwnersExist, CreatePlan, Owned, PartlyPruned, Run;
    ghost var c := server.cluster;
    NothingPrunedYet(req, Aim(req, c));
    starts, ok := [], false;
    var k := 0;
    while k < tries && !ok
      modifies server
      invariant |server.cluster| == |c| && |starts| == k <= tries
      invariant PartlyPruned(req, Aim(req, c), Aim(req, server.cluster))
      invariant if k == 0 then server.Now() == old(server.Now()) && !ok else starts[0] == old(server.Now())
      invariant forall j :: 0 <= j < k ==>
                  && |starts[j].cluster| == |c|
                  && PartlyPruned(req, Aim(req, c), Aim(req, starts[j].cluster))
                  && (j > 0 ==> Disturbed(server.faults, starts[j - 1].clock, starts[j].clock))
      invariant server.clock >= old(server.clock) + k
      invariant k > 0 ==> starts[k - 1].clock >= old(server.clock) + k - 1
      invariant !ok && k > 0 ==> Disturbed(server.faults, starts[k - 1].clock, server.clock)
      invariant ok ==>
                  k > 0 && server.cluster == Updated(req, server.faults, starts[k - 1])
                  && Provisioned(req, server.faults, starts[k - 1]).world.clock + LISTING < server.clock
      decreases tries - k
    {
      ghost var start := server.Now();
      ok := UpdatePGRequest(server, req);
      SameSize(req, Aim(req, start.cluster), Aim(req, server.cluster));
      PartlyPrunedChain(req, Aim(req, c), Aim(req, start.cluster), Aim(req, server.cluster));
      starts := starts + [start];
      k := k + 1;
    }
    if ok {
      ghost var last := starts[k - 1];
      SameSize(req, Aim(req, c), Aim(req, last.cluster));
      ExactWhenAllFound(req, Aim(req, last.cluster),
                        Found(req, Aim(req, last.cluster), ListingOf(req, server.faults, last)));
      PruneRetry(req, Aim(req, c), Aim(req, last.cluster));
    }
  }

  lemma SameSize(req: PgRequest, c: Cluster, c': Cluster)
    requires PartlyPruned(req, c, c')
    ensures |c'| == |c| > 0
  {
  }
}
