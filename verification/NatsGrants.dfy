/**
 The grant computation over the export index, and its agreement with the scan.
 */
module NatsGrants {
  import opened Wrappers
  import opened NatsPermissions

  datatype Grants = Grants(pub: seq<string>, sub: seq<string>)

  datatype Refusal = Unavailable | NoExport | NotExported(subject: string)

  /** A referenced subject under its resolved name, with the sides that are asked for. */
  datatype Want = Want(subject: string, pub: bool, sub: bool)

  function WantOf(ref: Ref, s: RefSubject, owner: string): Want {
    Want(RealRefName(ref.appNamespace, s.name, owner), "pub" in s.perm, "sub" in s.perm)
  }

  function RefWants(ref: Ref, owner: string): seq<Want> {
    seq(|ref.subjects|, k requires 0 <= k < |ref.subjects| => WantOf(ref, ref.subjects[k], owner))
  }

  function Wants(refs: seq<Ref>, owner: string): seq<Want> {
    if refs == [] then []
    else Wants(refs[..|refs| - 1], owner) + RefWants(refs[|refs| - 1], owner)
  }

  /** The subject once for every offer that allows the side. */
  function Matching(offers: seq<Offer>, subject: string, side: Side): seq<string> {
    if offers == [] then []
    else
      var last := offers[|offers| - 1];
      Matching(offers[..|offers| - 1], subject, side)
      + (if last.subject == subject && last.Allows(side) then [subject] else [])
  }

  lemma {:induction false} MatchingMeans(offers: seq<Offer>, subject: string, side: Side)
    ensures forall x :: x in Matching(offers, subject, side) ==> x == subject
    ensures Matching(offers, subject, side) != [] <==>
            exists o :: o in offers && o.subject == subject && o.Allows(side)
  {
    if offers != [] {
      var front, last := offers[..|offers| - 1], offers[|offers| - 1];
      assert forall o :: o in offers <==> o in front || o == last;
      MatchingMeans(front, subject, side);
    }
  }

  function Answer(w: Want, offers: seq<Offer>): Result<Grants, Refusal> {
    var pub := if w.pub then Matching(offers, w.subject, Pub) else [];
    var sub := if w.sub then Matching(offers, w.subject, Sub) else [];
    if offers == [] then Failure(NoExport)
    else if (w.pub && pub == []) || (w.sub && sub == []) then Failure(NotExported(w.subject))
    else Success(Grants(pub, sub))
  }

  /** The answers to all wants, or the first refusal. */
  function Answers(wants: seq<Want>, offers: seq<Offer>): Result<Grants, Refusal> {
    if wants == [] then Success(Grants([], []))
    else
      var before := Answers(wants[..|wants| - 1], offers);
      var last := Answer(wants[|wants| - 1], offers);
      if before.Failure? then before
      else if last.Failure? then last
      else Success(Grants(before.value.pub + last.value.pub, before.value.sub + last.value.sub))
  }

  lemma {:induction false} EarlyRefusal(wants: seq<Want>, more: seq<Want>, offers: seq<Offer>)
    requires Answers(wants, offers).Failure?
    ensures Answers(wants + more, offers) == Answers(wants, offers)
  {
    hide Answer;
    var all := wants + more;
    if more == [] {
      assert all == wants;
    } else {
      assert all[..|all| - 1] == wants + more[..|more| - 1];
      EarlyRefusal(wants, more[..|more| - 1], offers);
    }
  }

  lemma {:induction false} WantsPrefix(refs: seq<Ref>, k: nat, owner: string) returns (more: seq<Want>)
    requires k <= |refs|
    ensures Wants(refs, owner) == Wants(refs[..k], owner) + more
  {
    if k == |refs| {
      assert refs[..k] == refs;
      more := [];
    } else {
      var front := refs[..|refs| - 1];
      assert front[..k] == refs[..k];
      more := WantsPrefix(front, k, owner);
      more := more + RefWants(refs[|refs| - 1], owner);
    }
  }

  lemma AnswersSnoc(wants: seq<Want>, w: Want, offers: seq<Offer>)
    requires Answers(wants, offers).Success?
    ensures Answers(wants + [w], offers) ==
            (var g, a := Answers(wants, offers).value, Answer(w, offers);
             if a.Failure? then a else Success(Grants(g.pub + a.value.pub, g.sub + a.value.sub)))
  {
    assert (wants + [w])[..|wants|] == wants;
  }

  /** What the request's own subjects allow it. */
  function Own(subjects: seq<Subject>, appNamespace: string): Grants {
    if subjects == [] then Grants([], [])
    else
      var before := Own(subjects[..|subjects| - 1], appNamespace);
      var last := subjects[|subjects| - 1];
      var name := RealSubjectName(last.name, appNamespace);
      Grants(before.pub + (if last.permission.pub == ALLOW then [name] else []),
             before.sub + (if last.permission.sub == ALLOW then [name] else []))
  }

  function OrDefaults(subjects: seq<string>, defaults: seq<string>): seq<string> {
    if |subjects| > 0 then subjects + defaults else subjects
  }

  /** The permissions of a request, from the list of all requests (`None` if it cannot be had). */
  function Permissions(request: Request, requests: Option<seq<Request>>): Result<Grants, Refusal> {
    if requests.None? then Failure(Unavailable)
    else
      var own := Own(request.subjects, request.appNamespace);
      var answers := Answers(Wants(request.refs, OwnerOf(request.namespace)), To(Offers(requests.value), request.app));
      if answers.Failure? then answers
      else Success(Grants(OrDefaults(own.pub + answers.value.pub, DEFAULT_PUB),
                          OrDefaults(own.sub + answers.value.sub, DEFAULT_SUB)))
  }

  // ---- The computation ----

  method OwnSubjects(request: Request) returns (g: Grants)
    ensures g == Own(request.subjects, request.appNamespace)
  {
    g := Grants([], []);
    var subjects := request.subjects;
    for k := 0 to |subjects|
      invariant g == Own(subjects[..k], request.appNamespace)
    {
      assert subjects[..k + 1][..k] == subjects[..k];
      var name := RealSubjectName(subjects[k].name, request.appNamespace);
      if subjects[k].permission.pub == ALLOW {
        g := g.(pub := g.pub + [name]);
      }
      if subjects[k].permission.sub == ALLOW {
        g := g.(sub := g.sub + [name]);
      }
    }
    assert subjects[..|subjects|] == subjects;
  }

  method Match(offers: seq<Offer>, subject: string, side: Side, allowed: seq<string>)
    returns (r: seq<string>, found: bool)
    ensures r == allowed + Matching(offers, subject, side)
    ensures found <==> Matching(offers, subject, side) != []
  {
    r, found := allowed, false;
    for k := 0 to |offers|
      invariant r == allowed + Matching(offers[..k], subject, side)
      invariant found <==> Matching(offers[..k], subject, side) != []
    {
      assert offers[..k + 1][..k] == offers[..k];
      if offers[k].subject == subject && offers[k].Allows(side) {
        r, found := r + [subject], true;
      }
    }
    assert offers[..|offers|] == offers;
  }

  /** The body of the loop over the subjects of a reference. */
  method AddWant(w: Want, index: map<string, seq<Offer>>, app: string, g: Grants) returns (r: Result<Grants, Refusal>)
    requires app in index ==> index[app] != []
    ensures var a := Answer(w, if app in index then index[app] else []);
            r == if a.Failure? then a else Success(Grants(g.pub + a.value.pub, g.sub + a.value.sub))
  {
    hide Matching;
    if app !in index {
      return Failure(NoExport);
    }
    var pub, sub := g.pub, g.sub;
    assert pub == pub + [] && sub == sub + [];
    if w.pub {
      var found;
      pub, found := Match(index[app], w.subject, Pub, pub);
      if !found {
        return Failure(NotExported(w.subject));
      }
    }
    if w.sub {
      var found;
      sub, found := Match(index[app], w.subject, Sub, sub);
      if !found {
        return Failure(NotExported(w.subject));
      }
    }
    r := Success(Grants(pub, sub));
  }

  /** The loop over the subjects of one reference, after some wants were answered. */
  method AddRef(ref: Ref, owner: string, index: map<string, seq<Offer>>, app: string, own: Grants,
                ghost before: seq<Want>, g: Grants)
    returns (r: Result<Grants, Refusal>)
    requires app in index ==> index[app] != []
    requires Answers(before, OffersOf(index, app)).Success?
    requires g == Plus(own, Answers(before, OffersOf(index, app)).value)
    ensures r == OwnPlus(own, Answers(before + RefWants(ref, owner), OffersOf(index, app)))
  {
    hide Answer, Answers;
    ghost var wants, offers := RefWants(ref, owner), OffersOf(index, app);
    r := Success(g);
    assert before + wants[..0] == before;
    for k := 0 to |ref.subjects|
      invariant r.Success? && r == OwnPlus(own, Answers(before + wants[..k], offers))
    {
      var w := WantOf(ref, ref.subjects[k], owner);
      assert before + wants[..k + 1] == before + wants[..k] + [w];
      AnswersSnoc(before + wants[..k], w, offers);
      r := AddWant(w, index, app, r.value);
      if r.Failure? {
        EarlyRefusal(before + wants[..k + 1], wants[k + 1..], offers);
        assert before + wants[..k + 1] + wants[k + 1..] == before + wants;
        return;
      }
      PlusAssociates(own, Answers(before + wants[..k], offers).value, Answer(w, offers).value);
    }
    assert wants[..|ref.subjects|] == wants;
  }

  function Plus(a: Grants, b: Grants): Grants {
    Grants(a.pub + b.pub, a.sub + b.sub)
  }

  lemma PlusAssociates(a: Grants, b: Grants, c: Grants)
    ensures Plus(Plus(a, b), c) == Plus(a, Plus(b, c))
  {
    assert a.pub + b.pub + c.pub == a.pub + (b.pub + c.pub);
    assert a.sub + b.sub + c.sub == a.sub + (b.sub + c.sub);
  }

  function OwnPlus(own: Grants, answers: Result<Grants, Refusal>): Result<Grants, Refusal> {
    if answers.Failure? then answers else Success(Plus(own, answers.value))
  }

  function OffersOf(index: map<string, seq<Offer>>, app: string): seq<Offer> {
    if app in index then index[app] else []
  }

  method AddRefs(request: Request, index: map<string, seq<Offer>>, own: Grants) returns (r: Result<Grants, Refusal>)
    requires request.app in index ==> index[request.app] != []
    ensures r == OwnPlus(own, Answers(Wants(request.refs, OwnerOf(request.namespace)), OffersOf(index, request.app)))
  {
    hide Answers, RefWants, OwnerOf;
    var owner, refs, app := OwnerOf(request.namespace), request.refs, request.app;
    ghost var offers := OffersOf(index, app);
    NothingWanted(offers);
    assert own == Plus(own, Grants([], []));
    r := Success(own);
    for k := 0 to |refs|
      invariant r.Success? && r == OwnPlus(own, Answers(Wants(refs[..k], owner), offers))
    {
      assert refs[..k + 1][..k] == refs[..k];
      r := AddRef(refs[k], owner, index, app, own, Wants(refs[..k], owner), r.value);
      if r.Failure? {
        ghost var more := WantsPrefix(refs, k + 1, owner);
        EarlyRefusal(Wants(refs[..k + 1], owner), more, offers);
        return;
      }
    }
    assert refs[..|refs|] == refs;
  }

  lemma NothingWanted(offers: seq<Offer>)
    ensures Answers([], offers) == Success(Grants([], []))
  {
  }

  // ---- Agreement with the scan ----

  ghost predicate Exportable(w: Want, requests: seq<Request>, app: string) {
    && (w.pub ==> Exported(requests, app, w.subject, Pub))
    && (w.sub ==> Exported(requests, app, w.subject, Sub))
  }

  lemma AnswerMeans(w: Want, requests: seq<Request>, app: string)
    ensures var a := Answer(w, To(Offers(requests), app));
            && (a.Success? <==> HasAnyExport(requests, app) && Exportable(w, requests, app))
            && (a.Success? ==> (forall x :: x in a.value.pub <==> w.pub && x == w.subject)
                               && (forall x :: x in a.value.sub <==> w.sub && x == w.subject))
  {
    hide Matching, Offers, To, HasAnyExport, Exported;
    var offers := To(Offers(requests), app);
    AnyOfferFound(requests, app);
    OfferFound(requests, app, w.subject, Pub);
    OfferFound(requests, app, w.subject, Sub);
    MatchingMeans(offers, w.subject, Pub);
    MatchingMeans(offers, w.subject, Sub);
    var pub, sub := Matching(offers, w.subject, Pub), Matching(offers, w.subject, Sub);
    assert pub != [] ==> pub[0] in pub;
    assert sub != [] ==> sub[0] in sub;
  }

  lemma {:induction false} AnswersMean(wants: seq<Want>, requests: seq<Request>, app: string)
    ensures var a := Answers(wants, To(Offers(requests), app));
            && (a.Success? <==> (wants == [] || HasAnyExport(requests, app))
                                && forall w :: w in wants ==> Exportable(w, requests, app))
            && (a.Success? ==> (forall x :: x in a.value.pub <==> exists w :: w in wants && w.pub && x == w.subject)
                               && (forall x :: x in a.value.sub <==> exists w :: w in wants && w.sub && x == w.subject))
  {
    hide Answer, Offers, To, HasAnyExport, Exportable;
    if wants != [] {
      var front, last := wants[..|wants| - 1], wants[|wants| - 1];
      assert forall w :: w in wants <==> w in front || w == last;
      AnswersMean(front, requests, app);
      AnswerMeans(last, requests, app);
    }
  }

  /** One of the request's own subjects, which it allows itself on this side. */
  ghost predicate OwnAllowed(request: Request, x: string, side: Side) {
    exists s :: s in request.subjects && x == request.appNamespace + "." + s.name
                && (if side == Pub then s.permission.pub else s.permission.sub) == "allow"
  }

  lemma {:induction false} OwnMeans(subjects: seq<Subject>, ns: string)
    ensures forall x :: x in Own(subjects, ns).pub <==>
              exists s :: s in subjects && x == RealSubjectName(s.name, ns) && s.permission.pub == ALLOW
    ensures forall x :: x in Own(subjects, ns).sub <==>
              exists s :: s in subjects && x == RealSubjectName(s.name, ns) && s.permission.sub == ALLOW
  {
    if subjects != [] {
      var front, last := subjects[..|subjects| - 1], subjects[|subjects| - 1];
      assert forall s :: s in subjects <==> s in front || s == last;
      OwnMeans(front, ns);
    }
  }

  ghost predicate Wanted(request: Request, w: Want) {
    exists ref, s :: ref in request.refs && s in ref.subjects && w == WantOf(ref, s, OwnerOf(request.namespace))
  }

  lemma {:induction false} WantsMean(refs: seq<Ref>, owner: string, w: Want)
    ensures w in Wants(refs, owner) <==> exists ref, s :: ref in refs && s in ref.subjects && w == WantOf(ref, s, owner)
  {
    if refs != [] {
      var front, last := refs[..|refs| - 1], refs[|refs| - 1];
      assert forall ref :: ref in refs <==> ref in front || ref == last;
      WantsMean(front, owner, w);
      assert w in RefWants(last, owner) <==> exists s :: s in last.subjects && w == WantOf(last, s, owner) by {
        if s :| s in last.subjects && w == WantOf(last, s, owner) {
          var k :| 0 <= k < |last.subjects| && last.subjects[k] == s;
          assert RefWants(last, owner)[k] == w;
        }
      }
    }
  }

  /** Some reference of the request asks for the subject `x`, on this side. */
  ghost predicate Asks(request: Request, owner: string, x: string, side: Side) {
    exists ref, s :: ref in request.refs && s in ref.subjects && Resolves(ref.appNamespace, s.name, owner, x)
                     && (if side == Pub then "pub" else "sub") in s.perm
  }

  lemma AsksMeans(request: Request, x: string)
    ensures var owner := OwnerOf(request.namespace);
            && (Asks(request, owner, x, Pub) <==> exists w :: Wanted(request, w) && x == w.subject && w.pub)
            && (Asks(request, owner, x, Sub) <==> exists w :: Wanted(request, w) && x == w.subject && w.sub)
  {
    hide OwnerOf, RealRefName;
    var owner := OwnerOf(request.namespace);
    forall ref: Ref, s: RefSubject
      ensures Resolves(ref.appNamespace, s.name, owner, x) <==> x == WantOf(ref, s, owner).subject
    {
      RealRefNameResolves(ref.appNamespace, s.name, owner, x);
    }
    if ref, s :| ref in request.refs && s in ref.subjects && Resolves(ref.appNamespace, s.name, owner, x) {
      assert Wanted(request, WantOf(ref, s, owner));
    }
    forall side | Asks(request, owner, x, side)
      ensures exists w :: Wanted(request, w) && x == w.subject && (if side == Pub then w.pub else w.sub)
    {
      var ref, s :| ref in request.refs && s in ref.subjects && Resolves(ref.appNamespace, s.name, owner, x)
                    && (if side == Pub then "pub" else "sub") in s.perm;
      assert Wanted(request, WantOf(ref, s, owner));
    }
  }

  /** The request is owed the subject on this side: it allows it to itself or asks for it. */
  ghost predicate Due(request: Request, owner: string, x: string, side: Side) {
    OwnAllowed(request, x, side) || Asks(request, owner, x, side)
  }

  /** Every subject asked for is exported to the application on the side asked for, and if anything is
      referenced at all, something is exported to it. */
  ghost predicate Grantable(request: Request, requests: seq<Request>, owner: string) {
    && ((forall ref :: ref in request.refs ==> ref.subjects == []) || HasAnyExport(requests, request.app))
    && (forall x, side :: Asks(request, owner, x, side) ==> Exported(requests, request.app, x, side))
  }

  /** The computation succeeds exactly when the application has an export (or the request references
      nothing) and every referenced subject is exported to it, by some NATS request and under its
      resolved name, on every side asked for. */
  lemma SucceedsExactlyWhenExported(request: Request, requests: seq<Request>, owner: string)
    requires OwnerIs(request.namespace, owner)
    ensures Permissions(request, Some(requests)).Success? <==> Grantable(request, requests, owner)
  {
    hide Offers, To, Wants, HasAnyExport, Exported, Wanted, Own, Answers, OwnerOf, OwnerIs, Asks;
    OwnerIsOne(request.namespace, owner);
    var wants := Wants(request.refs, owner);
    WantedIsListed(request);
    AnswersMean(wants, requests, request.app);
    NothingIsWanted(request);
    forall x
      ensures Asks(request, owner, x, Pub) <==> exists w :: w in wants && x == w.subject && w.pub
      ensures Asks(request, owner, x, Sub) <==> exists w :: w in wants && x == w.subject && w.sub
    {
      AsksMeans(request, x);
    }
    forall w | w in wants && Grantable(request, requests, owner) ensures Exportable(w, requests, request.app) {
      assert w.pub ==> Asks(request, owner, w.subject, Pub);
      assert w.sub ==> Asks(request, owner, w.subject, Sub);
    }
    forall x, side | Permissions(request, Some(requests)).Success? && Asks(request, owner, x, side)
      ensures Exported(requests, request.app, x, side)
    {
      if side == Pub {
        assert Asks(request, owner, x, Pub);
        var w :| w in wants && x == w.subject && w.pub;
        assert Exportable(w, requests, request.app);
      } else {
        assert Asks(request, owner, x, Sub);
        var w :| w in wants && x == w.subject && w.sub;
        assert Exportable(w, requests, request.app);
      }
    }
  }

  lemma NothingIsWanted(request: Request)
    ensures Wants(request.refs, OwnerOf(request.namespace)) == [] <==>
            forall ref :: ref in request.refs ==> ref.subjects == []
  {
    hide Wants, OwnerOf;
    var wants := Wants(request.refs, OwnerOf(request.namespace));
    WantedIsListed(request);
    if wants != [] {
      assert Wanted(request, wants[0]);
    }
    if ref :| ref in request.refs && ref.subjects != [] {
      assert ref.subjects[0] in ref.subjects;
      assert Wanted(request, WantOf(ref, ref.subjects[0], OwnerOf(request.namespace)));
    }
  }

  lemma WantedIsListed(request: Request)
    ensures forall w :: Wanted(request, w) <==> w in Wants(request.refs, OwnerOf(request.namespace))
  {
    hide Wants, OwnerOf, WantOf;
    forall w ensures Wanted(request, w) <==> w in Wants(request.refs, OwnerOf(request.namespace)) {
      WantsMean(request.refs, OwnerOf(request.namespace), w);
    }
  }

  /** On success the granted subjects are exactly the request's own allowed ones, the referenced ones
      on the sides asked for, and the defaults if there is any of these. */
  lemma GrantsExactlyWhatIsDue(request: Request, requests: seq<Request>, owner: string, x: string)
    requires OwnerIs(request.namespace, owner) && Permissions(request, Some(requests)).Success?
    ensures var g := Permissions(request, Some(requests)).value;
            && (x in g.pub <==>
                Due(request, owner, x, Pub) || (x in DEFAULT_PUB && exists y :: Due(request, owner, y, Pub)))
            && (x in g.sub <==>
                Due(request, owner, x, Sub) || (x in DEFAULT_SUB && exists y :: Due(request, owner, y, Sub)))
  {
    hide Offers, To, Wants, HasAnyExport, Exportable, Wanted, Own, Answers, OwnerOf, OwnerIs, Asks;
    OwnerIsOne(request.namespace, owner);
    var wants := Wants(request.refs, owner);
    WantedIsListed(request);
    AnswersMean(wants, requests, request.app);
    OwnMeans(request.subjects, request.appNamespace);
    forall y
      ensures Asks(request, owner, y, Pub) <==> exists w :: w in wants && y == w.subject && w.pub
      ensures Asks(request, owner, y, Sub) <==> exists w :: w in wants && y == w.subject && w.sub
    {
      AsksMeans(request, y);
    }
    var own := Own(request.subjects, request.appNamespace);
    var answers := Answers(wants, To(Offers(requests), request.app)).value;
    var pub, sub := own.pub + answers.pub, own.sub + answers.sub;
    assert forall y :: y in pub <==> Due(request, owner, y, Pub);
    assert forall y :: y in sub <==> Due(request, owner, y, Sub);
    assert pub != [] <==> exists y :: Due(request, owner, y, Pub) by {
      assert pub != [] ==> pub[0] in pub;
    }
    assert sub != [] <==> exists y :: Due(request, owner, y, Sub) by {
      assert sub != [] ==> sub[0] in sub;
    }
  }

  /** A reference into a user's space is served by what the owner's own space exports: the resolved
      name is the name under which an application in that namespace offers the subject. */
  lemma ServedByTheOwnersSpace(requests: seq<Request>, q: Request, s: Subject, e: Permission, app: string,
                               refNamespace: string, owner: string, x: string)
    requires q in requests && q.middleware == "nats" && s in q.subjects && e in s.exports && e.app == app
    requires Resolves(refNamespace, s.name, owner, x)
    requires q.appNamespace == if "user-space" <= refNamespace then "user-space-" + owner
                               else if "user-system" <= refNamespace then "user-system-" + owner else refNamespace
    ensures e.pub == "allow" ==> Exported(requests, app, x, Pub)
    ensures e.sub == "allow" ==> Exported(requests, app, x, Sub)
  {
    assert Exports(requests, q, s, e, app, x);
  }

  // ---- The whole computation ----

  method ComputePermissions(request: Request, requests: Option<seq<Request>>) returns (r: Result<Grants, Refusal>)
    ensures r == Permissions(request, requests)
  {
    hide Answers, Own, OwnerOf, Offers, To;
    var g := OwnSubjects(request);
    if requests.None? {
      return Failure(Unavailable);
    }
    var index := IndexRequests(requests.value);
    r := AddRefs(request, index, g);
    if r.Failure? {
      return;
    }
    var pub, sub := r.value.pub, r.value.sub;
    if |pub| > 0 {
      pub := pub + DEFAULT_PUB;
    }
    if |sub| > 0 {
      sub := sub + DEFAULT_SUB;
    }
    r := Success(Grants(pub, sub));
  }

  lemma PermissionsMean(request: Request, requests: seq<Request>)
    ensures forall owner :: OwnerIs(request.namespace, owner) ==>
              (Permissions(request, Some(requests)).Success? <==> Grantable(request, requests, owner))
    ensures forall owner, x :: OwnerIs(request.namespace, owner) && Permissions(request, Some(requests)).Success? ==>
              var g := Permissions(request, Some(requests)).value;
              && (x in g.pub <==>
                  Due(request, owner, x, Pub) || (x in DEFAULT_PUB && exists y :: Due(request, owner, y, Pub)))
              && (x in g.sub <==>
                  Due(request, owner, x, Sub) || (x in DEFAULT_SUB && exists y :: Due(request, owner, y, Sub)))
  {
    hide Permissions, OwnerIs, Grantable, Due;
    var r := Permissions(request, Some(requests));
    forall owner | OwnerIs(request.namespace, owner) ensures r.Success? <==> Grantable(request, requests, owner) {
      SucceedsExactlyWhenExported(request, requests, owner);
    }
    forall owner, x | OwnerIs(request.namespace, owner) && r.Success?
      ensures x in r.value.pub <==>
              Due(request, owner, x, Pub) || (x in DEFAULT_PUB && exists y :: Due(request, owner, y, Pub))
      ensures x in r.value.sub <==>
              Due(request, owner, x, Sub) || (x in DEFAULT_SUB && exists y :: Due(request, owner, y, Sub))
    {
      GrantsExactlyWhatIsDue(request, requests, owner, x);
    }
  }

  method GetAllowPubSubSubjectFromMR(request: Request, requests: Option<seq<Request>>)
    returns (r: Result<Grants, Refusal>)
    ensures r == Permissions(request, requests)
    ensures requests.None? ==> r == Failure(Unavailable)
    ensures forall owner :: requests.Some? && OwnerIs(request.namespace, owner) ==>
              (r.Success? <==> Grantable(request, requests.value, owner))
    ensures forall owner, x :: requests.Some? && OwnerIs(request.namespace, owner) && r.Success? ==>
              && (x in r.value.pub <==>
                  Due(request, owner, x, Pub) || (x in DEFAULT_PUB && exists y :: Due(request, owner, y, Pub)))
              && (x in r.value.sub <==>
                  Due(request, owner, x, Sub) || (x in DEFAULT_SUB && exists y :: Due(request, owner, y, Sub)))
  {
    r := ComputePermissions(request, requests);
    if requests.Some? {
      PermissionsMean(request, requests.value);
    }
  }
}
