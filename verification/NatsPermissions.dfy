/**
 Permissions of a NATS user: what the request's own subjects allow, what other requests export to
 its application, and a fixed list of defaults.  The program groups all exports by application in
 an index; the permissions are proved to be those a plain scan over the requests gives.
 */
module NatsPermissions {
  const NATS := "nats"
  const ALLOW := "allow"

  const DEFAULT_PUB := [
    "$JS.API.INFO", "$JS.API.STREAM.NAMES", "$JS.API.CONSUMER.CREATE.>", "_INBOX.>", "$JS.ACK.>",
    "$SYS.ACCOUNT.*.CONNECT", "$SYS.ACCOUNT.*.DISCONNECT", "$JS.FC.>", "$SYS._INBOX_.>",
    "$SYS.SERVER.*.CLIENT.AUTH.ERR", "$SYS.REQ.SERVER.PING.>"]
  const DEFAULT_SUB := [
    "$JS.API.STREAM.NAMES", "$JS.API.CONSUMER.CREATE.>", "_INBOX.>", "$SYS.ACCOUNT.*.CONNECT",
    "$SYS.ACCOUNT.*.DISCONNECT", "$JS.FC.>", "$SYS._INBOX_.>", "$SYS.SERVER.*.CLIENT.AUTH.ERR",
    "$SYS.REQ.SERVER.PING.>"]

  /** The defaults for subscribing, and the two more for publishing. */
  lemma DefaultsSpelled(x: string)
    ensures x in DEFAULT_SUB <==>
            x in {"$JS.API.STREAM.NAMES", "$JS.API.CONSUMER.CREATE.>", "_INBOX.>", "$SYS.ACCOUNT.*.CONNECT",
                  "$SYS.ACCOUNT.*.DISCONNECT", "$JS.FC.>", "$SYS._INBOX_.>", "$SYS.SERVER.*.CLIENT.AUTH.ERR",
                  "$SYS.REQ.SERVER.PING.>"}
    ensures x in DEFAULT_PUB <==> x in DEFAULT_SUB || x == "$JS.API.INFO" || x == "$JS.ACK.>"
  {
  }

  datatype Permission = Permission(app: string, pub: string, sub: string)

  datatype Subject = Subject(name: string, permission: Permission, exports: seq<Permission>)

  datatype RefSubject = RefSubject(name: string, perm: seq<string>)

  datatype Ref = Ref(app: string, appNamespace: string, subjects: seq<RefSubject>)

  datatype Request = Request(middleware: string, namespace: string, appNamespace: string, app: string,
                             subjects: seq<Subject>, refs: seq<Ref>)

  // ---- Names ----

  function RealSubjectName(subject: string, appNamespace: string): string {
    appNamespace + "." + subject
  }

  const USER_SPACE := "user-space"
  const USER_SYSTEM := "user-system"

  function RefNamespace(refNamespace: string, owner: string): string {
    if USER_SPACE <= refNamespace then USER_SPACE + "-" + owner
    else if USER_SYSTEM <= refNamespace then USER_SYSTEM + "-" + owner
    else refNamespace
  }

  function RealRefName(refNamespace: string, subject: string, owner: string): string {
    RefNamespace(refNamespace, owner) + "." + subject
  }

  /** What a reference to a subject resolves to: for a user's space or system namespace, whoever's it
      is, to the subject in the owner's own one; otherwise to the subject in the namespace given. */
  ghost predicate Resolves(refNamespace: string, subject: string, owner: string, x: string) {
    x == if "user-space" <= refNamespace then "user-space-" + owner + "." + subject
         else if "user-system" <= refNamespace then "user-system-" + owner + "." + subject
         else refNamespace + "." + subject
  }

  lemma RealRefNameResolves(refNamespace: string, subject: string, owner: string, x: string)
    ensures Resolves(refNamespace, subject, owner, x) <==> x == RealRefName(refNamespace, subject, owner)
  {
    assert "user-space" + "-" == "user-space-";
    assert "user-system" + "-" == "user-system-";
  }

  predicate NoDash(s: string) {
    forall k :: 0 <= k < |s| ==> s[k] != '-'
  }

  /** The owner in a namespace's name: what follows the last dash, or the whole name. */
  ghost predicate OwnerIs(ns: string, owner: string) {
    NoDash(owner) && (ns == owner || exists space :: ns == space + "-" + owner)
  }

  /** The last segment of a namespace. */
  function OwnerOf(ns: string): (owner: string)
    ensures NoDash(owner)
    ensures ns == owner || exists space :: ns == space + "-" + owner
  {
    if ns == "" then ""
    else if ns[|ns| - 1] == '-' then
      assert ns == ns[..|ns| - 1] + "-" + "";
      ""
    else
      var owner := OwnerOf(ns[..|ns| - 1]);
      assert ns == ns[..|ns| - 1] + [ns[|ns| - 1]];
      assert ns != owner + [ns[|ns| - 1]] ==> exists space :: ns == space + "-" + (owner + [ns[|ns| - 1]]) by {
        if ns[..|ns| - 1] != owner {
          var space :| ns[..|ns| - 1] == space + "-" + owner;
          assert ns == space + "-" + (owner + [ns[|ns| - 1]]);
        }
      }
      owner + [ns[|ns| - 1]]
  }

  /** For a dash-free owner, the owner is read back from the namespaces made for it; so a reference
      into the user spaces, whoever's it names, always ends up in the requesting owner's. */
  lemma {:induction false} OwnerReadsBack(space: string, owner: string)
    requires NoDash(owner)
    ensures OwnerOf(space + "-" + owner) == owner
  {
    var ns := space + "-" + owner;
    if owner == "" {
      assert ns[|ns| - 1] == '-';
    } else {
      var shorter := owner[..|owner| - 1];
      assert ns[..|ns| - 1] == space + "-" + shorter;
      assert ns[|ns| - 1] == owner[|owner| - 1];
      OwnerReadsBack(space, shorter);
    }
  }

  lemma OwnerIsOne(ns: string, owner: string)
    ensures OwnerIs(ns, owner) <==> owner == OwnerOf(ns)
  {
    if OwnerIs(ns, owner) && ns != owner {
      var space :| ns == space + "-" + owner;
      OwnerReadsBack(space, owner);
    } else if OwnerIs(ns, owner) {
      NoDashIsOwner(ns);
    }
  }

  lemma {:induction false} NoDashIsOwner(ns: string)
    requires NoDash(ns)
    ensures OwnerOf(ns) == ns
  {
    if ns != "" {
      NoDashIsOwner(ns[..|ns| - 1]);
      assert ns == ns[..|ns| - 1] + [ns[|ns| - 1]];
    }
  }

  lemma RefStaysWithItsOwner(refNamespace: string, owner: string)
    requires NoDash(owner) && (USER_SPACE <= refNamespace || USER_SYSTEM <= refNamespace)
    ensures OwnerOf(RefNamespace(refNamespace, owner)) == owner
    ensures RefNamespace(RefNamespace(refNamespace, owner), owner) == RefNamespace(refNamespace, owner)
  {
    OwnerReadsBack(USER_SPACE, owner);
    OwnerReadsBack(USER_SYSTEM, owner);
    var ns := RefNamespace(refNamespace, owner);
    if USER_SPACE <= refNamespace {
      assert ns[..|USER_SPACE|] == USER_SPACE;
    } else {
      assert ns[..|USER_SYSTEM|] == USER_SYSTEM;
      assert ns[5] == 's' && ns[6] == 'y';
    }
  }

  // ---- Exports ----

  datatype Side = Pub | Sub

  /** One export: `app` may use `subject` on the sides that say "allow". */
  datatype Offer = Offer(app: string, subject: string, pub: string, sub: string) {
    predicate Allows(side: Side) {
      match side
      case Pub => pub == ALLOW
      case Sub => sub == ALLOW
    }
  }

  function ExportOffers(name: string, exports: seq<Permission>): seq<Offer> {
    seq(|exports|, k requires 0 <= k < |exports| => Offer(exports[k].app, name, exports[k].pub, exports[k].sub))
  }

  function SubjectOffers(appNamespace: string, subjects: seq<Subject>): seq<Offer> {
    if subjects == [] then []
    else
      var last := subjects[|subjects| - 1];
      SubjectOffers(appNamespace, subjects[..|subjects| - 1])
      + ExportOffers(RealSubjectName(last.name, appNamespace), last.exports)
  }

  /** Every export of every NATS request, in the order of the scan. */
  function Offers(requests: seq<Request>): seq<Offer> {
    if requests == [] then []
    else
      var last := requests[|requests| - 1];
      Offers(requests[..|requests| - 1])
      + (if last.middleware == NATS then SubjectOffers(last.appNamespace, last.subjects) else [])
  }

  /** The offers to one application, in order. */
  function To(offers: seq<Offer>, app: string): seq<Offer> {
    if offers == [] then []
    else
      var last := offers[|offers| - 1];
      To(offers[..|offers| - 1], app) + (if last.app == app then [last] else [])
  }

  /** The index holds the offers grouped by application, and nothing for one without offers. */
  ghost predicate Grouped(index: map<string, seq<Offer>>, offers: seq<Offer>) {
    forall app :: (app in index <==> To(offers, app) != []) && (app in index ==> index[app] == To(offers, app))
  }

  function Add(index: map<string, seq<Offer>>, offer: Offer): map<string, seq<Offer>> {
    index[offer.app := (if offer.app in index then index[offer.app] else []) + [offer]]
  }

  lemma GroupedAdd(index: map<string, seq<Offer>>, offers: seq<Offer>, offer: Offer)
    requires Grouped(index, offers)
    ensures Grouped(Add(index, offer), offers + [offer])
  {
    var all := offers + [offer];
    assert all[..|all| - 1] == offers && all[|all| - 1] == offer;
    forall app ensures To(all, app) == To(offers, app) + (if offer.app == app then [offer] else []) {
    }
  }

  method IndexExports(index: map<string, seq<Offer>>, ghost before: seq<Offer>, name: string, exports: seq<Permission>)
    returns (r: map<string, seq<Offer>>)
    requires Grouped(index, before)
    ensures Grouped(r, before + ExportOffers(name, exports))
  {
    hide Grouped, Add;
    ghost var offers := ExportOffers(name, exports);
    r := index;
    assert before + offers[..0] == before;
    for k := 0 to |exports|
      invariant Grouped(r, before + offers[..k])
    {
      var e := exports[k];
      assert before + offers[..k + 1] == before + offers[..k] + [offers[k]];
      GroupedAdd(r, before + offers[..k], offers[k]);
      r := Add(r, Offer(e.app, name, e.pub, e.sub));
    }
    assert offers[..|exports|] == offers;
  }

  method IndexSubjects(index: map<string, seq<Offer>>, ghost before: seq<Offer>, request: Request)
    returns (r: map<string, seq<Offer>>)
    requires Grouped(index, before)
    ensures Grouped(r, before + SubjectOffers(request.appNamespace, request.subjects))
  {
    hide Grouped, ExportOffers;
    var ns, subjects := request.appNamespace, request.subjects;
    r := index;
    assert before + SubjectOffers(ns, subjects[..0]) == before;
    for k := 0 to |subjects|
      invariant Grouped(r, before + SubjectOffers(ns, subjects[..k]))
    {
      var s := subjects[k];
      var name := RealSubjectName(s.name, ns);
      ghost var done := before + SubjectOffers(ns, subjects[..k]);
      assert subjects[..k + 1][..k] == subjects[..k];
      assert before + SubjectOffers(ns, subjects[..k + 1]) == done + ExportOffers(name, s.exports);
      r := IndexExports(r, done, name, s.exports);
    }
    assert subjects[..|subjects|] == subjects;
  }

  method IndexRequests(requests: seq<Request>) returns (index: map<string, seq<Offer>>)
    ensures Grouped(index, Offers(requests))
  {
    hide SubjectOffers;
    index := map[];
    for k := 0 to |requests|
      invariant Grouped(index, Offers(requests[..k]))
    {
      assert requests[..k + 1][..k] == requests[..k];
      assert Offers(requests[..k]) + [] == Offers(requests[..k]);
      if requests[k].middleware == NATS {
        index := IndexSubjects(index, Offers(requests[..k]), requests[k]);
      }
    }
    assert requests[..|requests|] == requests;
  }

  // ---- The scan ----

  /** Some NATS request exports this real subject to the application, allowing this side. */
  ghost predicate Exported(requests: seq<Request>, app: string, subject: string, side: Side) {
    exists q, s, e :: Exports(requests, q, s, e, app, subject) && (if side == Pub then e.pub else e.sub) == "allow"
  }

  ghost predicate Exports(requests: seq<Request>, q: Request, s: Subject, e: Permission, app: string, subject: string) {
    && q in requests && q.middleware == "nats" && s in q.subjects && e in s.exports
    && e.app == app && q.appNamespace + "." + s.name == subject
  }

  ghost predicate HasAnyExport(requests: seq<Request>, app: string) {
    exists q, s, e, subject :: Exports(requests, q, s, e, app, subject)
  }

  lemma {:induction false} ToMembers(offers: seq<Offer>, app: string, o: Offer)
    ensures o in To(offers, app) <==> o in offers && o.app == app
  {
    if offers != [] {
      assert offers == offers[..|offers| - 1] + [offers[|offers| - 1]];
      ToMembers(offers[..|offers| - 1], app, o);
    }
  }

  ghost predicate SubjectOffersIt(s: Subject, appNamespace: string, o: Offer) {
    o.subject == RealSubjectName(s.name, appNamespace) && Permission(o.app, o.pub, o.sub) in s.exports
  }

  lemma ExportOfferMembers(name: string, exports: seq<Permission>, o: Offer)
    ensures o in ExportOffers(name, exports) <==> o.subject == name && Permission(o.app, o.pub, o.sub) in exports
  {
    if o.subject == name && Permission(o.app, o.pub, o.sub) in exports {
      var k :| 0 <= k < |exports| && exports[k] == Permission(o.app, o.pub, o.sub);
      assert ExportOffers(name, exports)[k] == o;
    }
  }

  lemma {:induction false} SubjectOfferMembers(ns: string, subjects: seq<Subject>, o: Offer)
    ensures o in SubjectOffers(ns, subjects) <==> exists s :: s in subjects && SubjectOffersIt(s, ns, o)
  {
    hide ExportOffers;
    if subjects != [] {
      var front, last := subjects[..|subjects| - 1], subjects[|subjects| - 1];
      assert subjects == front + [last];
      ExportOfferMembers(RealSubjectName(last.name, ns), last.exports, o);
      SubjectOfferMembers(ns, front, o);
      assert SubjectOffersIt(last, ns, o) <==> o in ExportOffers(RealSubjectName(last.name, ns), last.exports);
      assert forall s :: s in subjects <==> s in front || s == last;
    }
  }

  ghost predicate RequestOffersIt(q: Request, o: Offer) {
    q.middleware == NATS && exists s :: s in q.subjects && SubjectOffersIt(s, q.appNamespace, o)
  }

  lemma {:induction false} OfferMembers(requests: seq<Request>, o: Offer)
    ensures o in Offers(requests) <==> exists q :: q in requests && RequestOffersIt(q, o)
  {
    hide SubjectOffers, SubjectOffersIt;
    if requests != [] {
      var front, last := requests[..|requests| - 1], requests[|requests| - 1];
      assert requests == front + [last];
      SubjectOfferMembers(last.appNamespace, last.subjects, o);
      OfferMembers(front, o);
      assert RequestOffersIt(last, o)
        <==> last.middleware == NATS && o in SubjectOffers(last.appNamespace, last.subjects);
      assert forall q :: q in requests <==> q in front || q == last;
    }
  }

  /** An offer to the application in the scan is an export found in the requests. */
  lemma OfferIsExport(requests: seq<Request>, app: string, o: Offer)
    ensures o in To(Offers(requests), app) <==>
            exists q, s :: Exports(requests, q, s, Permission(app, o.pub, o.sub), app, o.subject) && o.app == app
  {
    ToMembers(Offers(requests), app, o);
    OfferMembers(requests, o);
    if o in To(Offers(requests), app) {
      var q :| q in requests && RequestOffersIt(q, o);
      var s :| s in q.subjects && SubjectOffersIt(s, q.appNamespace, o);
      assert Exports(requests, q, s, Permission(app, o.pub, o.sub), app, o.subject);
    }
    if q, s :| Exports(requests, q, s, Permission(app, o.pub, o.sub), app, o.subject) && o.app == app {
      assert SubjectOffersIt(s, q.appNamespace, o);
      assert RequestOffersIt(q, o);
    }
  }

  lemma OfferFound(requests: seq<Request>, app: string, subject: string, side: Side)
    ensures (exists o :: o in To(Offers(requests), app) && o.subject == subject && o.Allows(side))
            <==> Exported(requests, app, subject, side)
  {
    hide Offers, To;
    if o :| o in To(Offers(requests), app) && o.subject == subject && o.Allows(side) {
      OfferIsExport(requests, app, o);
      var q, s :| Exports(requests, q, s, Permission(app, o.pub, o.sub), app, o.subject);
      assert Exported(requests, app, subject, side);
    }
    if Exported(requests, app, subject, side) {
      var q, s, e :| Exports(requests, q, s, e, app, subject) && (if side == Pub then e.pub else e.sub) == ALLOW;
      var o := Offer(app, subject, e.pub, e.sub);
      assert e == Permission(app, o.pub, o.sub);
      OfferIsExport(requests, app, o);
      assert o.Allows(side);
    }
  }

  lemma AnyOfferFound(requests: seq<Request>, app: string)
    ensures To(Offers(requests), app) != [] <==> HasAnyExport(requests, app)
  {
    hide Offers, To;
    if To(Offers(requests), app) != [] {
      var o := To(Offers(requests), app)[0];
      OfferIsExport(requests, app, o);
      var q, s :| Exports(requests, q, s, Permission(app, o.pub, o.sub), app, o.subject);
    }
    if HasAnyExport(requests, app) {
      var q, s, e, subject :| Exports(requests, q, s, e, app, subject);
      var o := Offer(app, subject, e.pub, e.sub);
      assert e == Permission(app, o.pub, o.sub);
      OfferIsExport(requests, app, o);
    }
  }
}
