/**
 The generator over its own output: each run parses the text the last effective run wrote.  The
 parser and printer belong to a library, of which only this is used: what it reads back has the
 ports and the default plugins of the first server that was written.
 */
module CorefileHistory {
  import opened Wrappers
  import opened SubnetAllocator
  import opened Corefile

  type Parse = string -> Option<seq<Server>>

  type Show = seq<Server> -> string

  /** One start of the generator: what it saw and whether its text reached the cluster, whatever it
      then reported. */
  datatype Trial = Trial(snapshot: Snapshot, stored: bool)

  /** Reading back keeps what the generator looks at. */
  ghost predicate ReadsBack(written: seq<Server>, parsed: seq<Server>) {
    && |written| >= 1 && |parsed| >= 1
    && parsed[0].domPorts == written[0].domPorts
    && Defaults(parsed[0].plugins) == Defaults(written[0].plugins)
  }

  /** The text a regeneration of `text` would write, if it writes one. */
  ghost function NewText(parse: Parse, show: Show, text: string, snap: Snapshot): Option<string>
    requires snap.Valid()
  {
    match parse(text)
    case None => None
    case Some(servers) =>
      match Regenerated(servers, snap)
      case Failure(_) => None
      case Success(None) => None
      case Success(Some(next)) => Some(show(next))
  }

  /** The library reads back, in that sense, whatever the generator writes. */
  ghost predicate LibraryReadsBack(parse: Parse, show: Show) {
    forall text: string, snap: Snapshot | snap.Valid() && NewText(parse, show, text, snap).Some? ::
      var written := Regenerated(parse(text).value, snap).value.value;
      parse(show(written)).Some? && ReadsBack(written, parse(show(written)).value)
  }

  /** The text held by the cluster after a sequence of runs. */
  ghost function After(parse: Parse, show: Show, text: string, trials: seq<Trial>): string
    requires forall t :: t in trials ==> t.snapshot.Valid()
  {
    if trials == [] then text
    else
      var last := trials[|trials| - 1];
      var before := After(parse, show, text, trials[..|trials| - 1]);
      var next := NewText(parse, show, before, last.snapshot);
      if last.stored && next.Some? then next.value else before
  }

  /** What the last run that took effect would have written if it had started from the original
      text, or that text if no run took effect. */
  ghost function LastText(parse: Parse, show: Show, text: string, trials: seq<Trial>): string
    requires forall t :: t in trials ==> t.snapshot.Valid()
  {
    if trials == [] then text
    else
      var last := trials[|trials| - 1];
      var once := NewText(parse, show, text, last.snapshot);
      if last.stored && once.Some? then once.value
      else LastText(parse, show, text, trials[..|trials| - 1])
  }

  lemma {:induction false} LastTextSource(parse: Parse, show: Show, text: string, trials: seq<Trial>)
    requires forall t :: t in trials ==> t.snapshot.Valid()
    requires LastText(parse, show, text, trials) != text
    ensures exists t :: t in trials
                        && NewText(parse, show, text, t.snapshot) == Some(LastText(parse, show, text, trials))
  {
    hide NewText;
    var before, last := trials[..|trials| - 1], trials[|trials| - 1];
    assert last in trials;
    if LastText(parse, show, text, trials) == LastText(parse, show, text, before) {
      LastTextSource(parse, show, text, before);
    }
  }

  // ---- What a regeneration depends on ----

  /** Only the ports and default plugins of the first server matter. */
  lemma DependsOnDefaults(a: seq<Server>, b: seq<Server>, snap: Snapshot)
    requires snap.Valid() && ReadsBack(a, b)
    ensures Regenerated(a, snap) == Regenerated(b, snap)
  {
  }

  lemma UserTemplatesAreTemplates(u: User, v: Verdict, masterIp: string)
    ensures AreTemplates(ListsOf(u, v, masterIp).incluster)
  {
  }

  ghost predicate AreTemplates(plugins: seq<Plugin>) {
    forall p :: p in plugins ==> p.name == "template"
  }

  lemma {:induction false} ListsAreTemplates(users: seq<User>, maxUsers: Option<nat>, masterIp: string)
    requires maxUsers.Some? ==> 1 <= maxUsers.value <= BLOCK
    ensures var r := AllLists(users, maxUsers, masterIp); r.Success? ==> AreTemplates(r.value.incluster)
  {
    if users != [] {
      var last := users[|users| - 1];
      ListsAreTemplates(users[..|users| - 1], maxUsers, masterIp);
      UserTemplatesAreTemplates(last, Judge(last, maxUsers), masterIp);
    }
  }

  /** A run leaves the ports and default plugins of the first server as they were. */
  lemma KeepsDefaults(servers: seq<Server>, snap: Snapshot)
    requires snap.Valid() && Regenerated(servers, snap).Success? && Regenerated(servers, snap).value.Some?
    ensures ReadsBack(servers, Regenerated(servers, snap).value.value)
  {
    hide AllLists, Defaults, UserTemplates;
    var masterIp := MasterIp(snap.nodes.value);
    var lists := AllLists(snap.users.value, snap.maxUsers, masterIp).value;
    var view := [InclusterView(snap.adguardIp)];
    var d := Defaults(servers[0].plugins);
    var templates := lists.incluster + EntranceTemplates(snap.entrances.value);
    ListsAreTemplates(snap.users.value, snap.maxUsers, masterIp);
    NoDefaults(view);
    NoDefaults(templates);
    DefaultsOfDefaults(servers[0].plugins);
    DefaultsAppend(view, d);
    DefaultsAppend(view + d, templates);
    assert [] + d + [] == d;
  }

  /** After any effective run, regenerating from any snapshot gives what regenerating the original
      text from it would have given. */
  lemma OneRunForgotten(parse: Parse, show: Show, text: string, s: Snapshot, t: Snapshot)
    requires LibraryReadsBack(parse, show) && s.Valid() && t.Valid()
    requires NewText(parse, show, text, s).Some?
    ensures NewText(parse, show, NewText(parse, show, text, s).value, t) == NewText(parse, show, text, t)
  {
    hide Regenerated;
    var servers := parse(text).value;
    var written := Regenerated(servers, s).value.value;
    var reread := parse(show(written)).value;
    KeepsDefaults(servers, s);
    DependsOnDefaults(servers, written, t);
    DependsOnDefaults(written, reread, t);
  }

  /** Idempotence: the same snapshot again writes the same text. */
  lemma RegenerationIsIdempotent(parse: Parse, show: Show, text: string, snap: Snapshot)
    requires LibraryReadsBack(parse, show) && snap.Valid() && NewText(parse, show, text, snap).Some?
    ensures var once := NewText(parse, show, text, snap).value;
            NewText(parse, show, once, snap) == Some(once)
  {
    OneRunForgotten(parse, show, text, snap, snap);
  }

  /** History independence: after any runs, successful or not, the cluster holds what one run from
      the original text and the last effective snapshot would have written. */
  lemma {:induction false} HistoryIndependent(parse: Parse, show: Show, text: string, trials: seq<Trial>)
    requires LibraryReadsBack(parse, show) && forall t :: t in trials ==> t.snapshot.Valid()
    ensures After(parse, show, text, trials) == LastText(parse, show, text, trials)
  {
    hide NewText, LibraryReadsBack;
    if trials != [] {
      var before, last := trials[..|trials| - 1], trials[|trials| - 1];
      assert last in trials;
      HistoryIndependent(parse, show, text, before);
      if LastText(parse, show, text, before) != text {
        LastTextSource(parse, show, text, before);
        var t :| t in before && NewText(parse, show, text, t.snapshot) == Some(LastText(parse, show, text, before));
        OneRunForgotten(parse, show, text, t.snapshot, last.snapshot);
      }
    }
  }

  // ---- Answers ----

  predicate HasNoDot(s: string) {
    forall k :: 0 <= k < |s| ==> s[k] != '.'
  }

  lemma {:induction false} DecimalHasNoDot(n: nat)
    ensures HasNoDot(Decimal(n))
  {
    if n >= 10 {
      DecimalHasNoDot(n / 10);
    }
  }

  lemma DotSplits(a: string, b: string, a': string, b': string)
    requires HasNoDot(a) && HasNoDot(a') && a + "." + b == a' + "." + b'
    ensures a == a' && b == b'
  {
    var s := a + "." + b;
    assert s[|a|] == '.' && s[|a'|] == '.';
    assert forall k :: 0 <= k < |a| ==> s[k] == a[k];
    assert forall k :: 0 <= k < |a'| ==> s[k] == a'[k];
    assert |a| == |a'|;
    assert a == s[..|a|] == a';
    assert b == s[|a| + 1..] == b';
  }

  lemma DottedInjective(x: seq<int>, y: seq<int>)
    requires IsAddress(x) && IsAddress(y) && Dotted(x) == Dotted(y)
    ensures x == y
  {
    hide Decimal;
    forall j | 0 <= j < 4 ensures HasNoDot(Decimal(x[j])) && HasNoDot(Decimal(y[j])) {
      DecimalHasNoDot(x[j]);
      DecimalHasNoDot(y[j]);
    }
    var x2, y2 := Decimal(x[2]) + "." + Decimal(x[3]), Decimal(y[2]) + "." + Decimal(y[3]);
    DotSplits(Decimal(x[0]), Decimal(x[1]) + "." + x2, Decimal(y[0]), Decimal(y[1]) + "." + y2);
    DotSplits(Decimal(x[1]), x2, Decimal(y[1]), y2);
    DotSplits(Decimal(x[2]), Decimal(x[3]), Decimal(y[2]), Decimal(y[3]));
    forall j | 0 <= j < 4 ensures x[j] == y[j] {
      DecimalInjective(x[j], y[j]);
    }
  }

  /** Users with different index annotations are never answered with the same local address. */
  lemma LocalAnswersAreDistinct(u: User, v: User, maxUsers: Option<nat>)
    requires maxUsers.Some? ==> 1 <= maxUsers.value <= BLOCK
    requires Judge(u, maxUsers).Listed? && Judge(v, maxUsers).Listed?
    requires Judge(u, maxUsers).localIp == Judge(v, maxUsers).localIp
    ensures u.index == v.index
  {
    var n := maxUsers.value;
    LocalIpIsAddress(u.index, maxUsers);
    LocalIpIsAddress(v.index, maxUsers);
    var i: nat :| i < Count(n) && Decimal(i) == u.index
                  && LocalIp(u.index, maxUsers) == Success(Some(FirstUsable(n, i)));
    var j: nat :| j < Count(n) && Decimal(j) == v.index
                  && LocalIp(v.index, maxUsers) == Success(Some(FirstUsable(n, j)));
    DottedInjective(FirstUsable(n, i), FirstUsable(n, j));
    AddressesAreDistinct(n, i, j);
  }
}
