/** The publisher's promises at every step, crashes included. */
module PublisherSafety {
  import opened Snapshots
  import opened Publisher

  // ---- paths ----

  lemma FirstBytes()
    ensures |GENERATIONS| == 12 && GENERATIONS[0] == 103
    ensures |INDEX| > 0 && INDEX[0] == 105
    ensures |MODEL| > 0 && MODEL[0] == 109
    ensures |ASSETS| > 0 && ASSETS[0] == 97
    ensures |DIAGRAMS| > 0 && DIAGRAMS[0] == 100
  {
  }

  /** No file a report stages can land on the index page or inside the generations. */
  lemma ReportPathsAreElsewhere(p: Bytes)
    requires ReportPath(p)
    ensures p != INDEX && !(GENERATIONS <= p)
  {
    FirstBytes();
  }

  lemma IndexIsElsewhere()
    ensures !(GENERATIONS <= INDEX)
  {
    FirstBytes();
  }

  /** A path lies in at most one generation. */
  lemma RootsAreDistinct(a: Bytes, b: Bytes, p: Bytes)
    requires GenerationRoot(a) <= p && GenerationRoot(b) <= p && SLASH !in a && SLASH !in b
    ensures a == b
  {
    FirstBytes();
    assert p[12..][..|a|] == a && p[12..][..|b|] == b;
    assert p[12 + |a|] == SLASH && p[12 + |b|] == SLASH;
  }

  lemma SplitPath(id: Bytes, p: Bytes)
    requires GenerationRoot(id) <= p
    ensures p == GenerationPath(id, p[|GenerationRoot(id)|..]) && GENERATIONS <= p
  {
  }

  lemma JoinPath(id: Bytes, q: Bytes)
    ensures GenerationRoot(id) <= GenerationPath(id, q) && GenerationPath(id, q)[|GenerationRoot(id)|..] == q
    ensures GENERATIONS <= GenerationPath(id, q)
  {
  }

  // ---- the invariant ----

  /** The generation of `r` is in place, whole and unaltered. */
  ghost predicate Complete(t: Tools, fs: Directory, r: Report) {
    WellFormed(t, r) &&
    forall q :: q in Final(t, r) ==> GenerationPath(Id(t, r), q) in fs && fs[GenerationPath(Id(t, r), q)] == Final(t, r)[q]
  }

  /** The path `p` is a file of the generation of `r`. */
  ghost predicate Belongs(t: Tools, p: Bytes, r: Report) {
    WellFormed(t, r) && GenerationRoot(Id(t, r)) <= p && p[|GenerationRoot(Id(t, r))|..] in Final(t, r)
  }

  ghost predicate IndexRefersTo(t: Tools, fs: Directory, r: Report) {
    WellFormed(t, r) && INDEX in fs && fs[INDEX] == IndexPage(t, r)
  }

  /** Read beside the index page, `url` leads to the file `q` of the generation `id`, and that holds `contents`. */
  predicate LeadsTo(fs: Directory, url: Bytes, id: Bytes, q: string, contents: Bytes) {
    var p := Ascii("generations/") + id + Ascii("/") + Ascii(q);
    url == Ascii("./") + p && p in fs && fs[p] == contents
  }

  /** Each of the diagrams is reached in the generation `id`. */
  predicate DiagramsLead(fs: Directory, diagrams: DiagramUrls, id: Bytes, r: Report) {
    && LeadsToPart(fs, diagrams.current, id, "diagrams/" + REAL, r)
    && LeadsToPart(fs, diagrams.planned, id, "diagrams/" + PLANNED, r)
    && LeadsToPart(fs, diagrams.dependencies, id, "diagrams/" + DEPENDENCIES, r)
  }

  predicate LeadsToPart(fs: Directory, url: Bytes, id: Bytes, q: string, r: Report) {
    Ascii(q) in r.assets && LeadsTo(fs, url, id, q, r.assets[Ascii(q)])
  }

  /** The index page was rendered with URLs that lead to the files of the report's generation, and so was the
      model one of them leads to. */
  ghost predicate IndexLeads(t: Tools, fs: Directory, r: Report)
    requires WellFormed(t, r)
  {
    exists diagrams: DiagramUrls, urls: PageUrls ::
      && Ascii("index.html") in fs && fs[Ascii("index.html")] == t.index(r.core, diagrams, urls)
      && DiagramsLead(fs, diagrams, Id(t, r), r)
      && LeadsTo(fs, urls.model, Id(t, r), "model.json", t.model(r.core, diagrams))
      && LeadsToPart(fs, urls.stylesheet, Id(t, r), STYLESHEET, r)
      && LeadsToPart(fs, urls.script, Id(t, r), SCRIPT, r)
  }

  ghost predicate AllComplete(t: Tools, fs: Directory, published: seq<Report>) {
    forall r :: r in published ==> Complete(t, fs, r)
  }

  ghost predicate Owned(t: Tools, p: Bytes, published: seq<Report>) {
    exists r :: r in published && Belongs(t, p, r)
  }

  /** Nothing lies under `generations/` but the files of published reports. */
  ghost predicate AllOwned(t: Tools, fs: Directory, published: seq<Report>) {
    forall p :: p in fs && GENERATIONS <= p ==> Owned(t, p, published)
  }

  ghost predicate Inv(t: Tools, s: State) {
    && AllComplete(t, s.fs, s.published)
    && AllOwned(t, s.fs, s.published)
    && (INDEX in s.fs ==> exists r :: r in s.published && IndexRefersTo(t, s.fs, r))
    && (s.pc.Staged? ==> WellFormed(t, s.pc.report))
    && (s.pc.Published? || s.pc.Copying? ==> s.pc.report in s.published)
  }

  /** What is under `generations/` stays as it is. */
  ghost predicate KeepsGenerations(fs: Directory, fs': Directory) {
    forall p :: p in fs && GENERATIONS <= p ==> p in fs' && fs'[p] == fs[p]
  }

  lemma MoveInIs(fs: Directory, id: Bytes, dir: Directory)
    requires !Exists(fs, id)
    ensures forall q :: q in dir ==> GenerationPath(id, q) in MoveIn(fs, id, dir) && MoveIn(fs, id, dir)[GenerationPath(id, q)] == dir[q]
    ensures forall p :: p in fs ==> p in MoveIn(fs, id, dir) && MoveIn(fs, id, dir)[p] == fs[p]
    ensures forall p :: p in MoveIn(fs, id, dir) && p !in fs ==>
              GENERATIONS <= p && GenerationRoot(id) <= p && p[|GenerationRoot(id)|..] in dir
  {
    forall q | q in dir
      ensures GenerationPath(id, q) in MoveIn(fs, id, dir) && MoveIn(fs, id, dir)[GenerationPath(id, q)] == dir[q]
    {
      JoinPath(id, q);
    }
    forall p | p in MoveIn(fs, id, dir) && p !in fs
      ensures GENERATIONS <= p && GenerationRoot(id) <= p && p[|GenerationRoot(id)|..] in dir
    {
      var q :| q in dir && p == GenerationPath(id, q);
      JoinPath(id, q);
    }
  }

  /** A generation that is already there with the right contents is complete. */
  lemma ReusedIsComplete(t: Tools, fs: Directory, r: Report)
    requires WellFormed(t, r) && ContentsOf(fs, Id(t, r)) == Final(t, r)
    ensures Complete(t, fs, r)
  {
    forall q | q in Final(t, r)
      ensures GenerationPath(Id(t, r), q) in fs && fs[GenerationPath(Id(t, r), q)] == Final(t, r)[q]
    {
      assert q in ContentsOf(fs, Id(t, r));
    }
  }

  lemma CompleteStays(t: Tools, fs: Directory, fs': Directory, r: Report)
    requires Complete(t, fs, r) && KeepsGenerations(fs, fs')
    ensures Complete(t, fs', r)
  {
    forall q | q in Final(t, r)
      ensures GenerationPath(Id(t, r), q) in fs' && fs'[GenerationPath(Id(t, r), q)] == Final(t, r)[q]
    {
      JoinPath(Id(t, r), q);
    }
  }

  lemma OwnedMore(t: Tools, p: Bytes, published: seq<Report>, r: Report)
    requires Owned(t, p, published)
    ensures Owned(t, p, published + [r])
  {
    var x :| x in published && Belongs(t, p, x);
    assert x in published + [r];
  }

  lemma AllOwnedAfterMove(t: Tools, fs: Directory, published: seq<Report>, r: Report)
    requires AllOwned(t, fs, published) && WellFormed(t, r) && !Exists(fs, Id(t, r))
    ensures AllOwned(t, MoveIn(fs, Id(t, r), Final(t, r)), published + [r])
  {
    var fs' := MoveIn(fs, Id(t, r), Final(t, r));
    MoveInIs(fs, Id(t, r), Final(t, r));
    forall p | p in fs' && GENERATIONS <= p
      ensures Owned(t, p, published + [r])
    {
      if p in fs {
        OwnedMore(t, p, published, r);
      } else {
        assert r in published + [r] && Belongs(t, p, r);
      }
    }
  }

  lemma AllCompleteAfter(t: Tools, fs: Directory, fs': Directory, published: seq<Report>, r: Report)
    requires AllComplete(t, fs, published) && KeepsGenerations(fs, fs') && Complete(t, fs', r)
    ensures AllComplete(t, fs', published + [r])
  {
    forall x | x in published + [r]
      ensures Complete(t, fs', x)
    {
      if x in published {
        CompleteStays(t, fs, fs', x);
      }
    }
  }

  lemma InvMove(t: Tools, s: State, r: Report)
    requires Inv(t, s) && s.pc == Staged(r) && WellFormed(t, r) && !Exists(s.fs, Id(t, r))
    ensures Inv(t, PublishStep(t, s, r)) && KeepsGenerations(s.fs, PublishStep(t, s, r).fs)
  {
    IndexIsElsewhere();
    MoveInIs(s.fs, Id(t, r), Final(t, r));
    AllOwnedAfterMove(t, s.fs, s.published, r);
    AllCompleteAfter(t, s.fs, PublishStep(t, s, r).fs, s.published, r);
    InvPublishIndex(t, s, PublishStep(t, s, r));
  }

  lemma InvReuse(t: Tools, s: State, r: Report)
    requires Inv(t, s) && s.pc == Staged(r) && WellFormed(t, r)
    requires Exists(s.fs, Id(t, r)) && ContentsOf(s.fs, Id(t, r)) == Final(t, r)
    ensures Inv(t, PublishStep(t, s, r)) && PublishStep(t, s, r).fs == s.fs
  {
    ReusedIsComplete(t, s.fs, r);
    AllCompleteAfter(t, s.fs, s.fs, s.published, r);
    forall p | p in s.fs && GENERATIONS <= p
      ensures Owned(t, p, s.published + [r])
    {
      OwnedMore(t, p, s.published, r);
    }
    InvPublishIndex(t, s, PublishStep(t, s, r));
  }

  lemma InvPublish(t: Tools, s: State)
    requires Inv(t, s) && Enabled(t, s, PublishGeneration)
    ensures Inv(t, Next(t, s, PublishGeneration)) && KeepsGenerations(s.fs, Next(t, s, PublishGeneration).fs)
  {
    var r := s.pc.report;
    if !Exists(s.fs, Id(t, r)) {
      InvMove(t, s, r);
    } else if ContentsOf(s.fs, Id(t, r)) == Final(t, r) {
      InvReuse(t, s, r);
    }
  }

  lemma InvPublishIndex(t: Tools, s: State, s': State)
    requires INDEX in s.fs ==> exists r :: r in s.published && IndexRefersTo(t, s.fs, r)
    requires INDEX in s'.fs ==> INDEX in s.fs && s'.fs[INDEX] == s.fs[INDEX]
    requires forall r :: r in s.published ==> r in s'.published
    ensures INDEX in s'.fs ==> exists r :: r in s'.published && IndexRefersTo(t, s'.fs, r)
  {
    if INDEX in s'.fs {
      var r :| r in s.published && IndexRefersTo(t, s.fs, r);
      assert r in s'.published && IndexRefersTo(t, s'.fs, r);
    }
  }

  /** Writing one file outside the generations keeps everything about them. */
  lemma InvWrite(t: Tools, s: State, p: Bytes, contents: Bytes, pc: Pc)
    requires Inv(t, s) && !(GENERATIONS <= p) && (s.pc.Published? || s.pc.Copying?) && pc.Copying? && pc.report == s.pc.report
    requires if p == INDEX then WellFormed(t, s.pc.report) && contents == IndexPage(t, s.pc.report) else true
    ensures Inv(t, s.(fs := s.fs[p := contents], pc := pc)) && KeepsGenerations(s.fs, s.fs[p := contents])
  {
    var s' := s.(fs := s.fs[p := contents], pc := pc);
    forall x | x in s'.published
      ensures Complete(t, s'.fs, x)
    {
      CompleteStays(t, s.fs, s'.fs, x);
    }
    if p == INDEX {
      assert s.pc.report in s'.published && IndexRefersTo(t, s'.fs, s.pc.report);
    } else {
      InvPublishIndex(t, s, s');
    }
  }

  lemma InvStep(t: Tools, s: State, e: Event)
    requires Inv(t, s) && Enabled(t, s, e)
    ensures Inv(t, Next(t, s, e)) && KeepsGenerations(s.fs, Next(t, s, e).fs)
  {
    match e
    case PublishGeneration => InvPublish(t, s);
    case SwitchIndex =>
      IndexIsElsewhere();
      InvWrite(t, s, INDEX, IndexPage(t, s.pc.report), Next(t, s, e).pc);
    case CopyFile =>
      var p := s.pc.left[0];
      assert ReportPath(p);
      ReportPathsAreElsewhere(p);
      InvWrite(t, s, p, Final(t, s.pc.report)[p], Next(t, s, e).pc);
    case _ =>
      assert Next(t, s, e).fs == s.fs;
  }

  lemma {:induction false} InvAlways(t: Tools, es: seq<Event>)
    requires Feasible(t, es)
    ensures Inv(t, After(t, es))
  {
    if es == [] {
    } else {
      InvAlways(t, es[..|es| - 1]);
      InvStep(t, After(t, es[..|es| - 1]), es[|es| - 1]);
    }
  }

  /** A state some run of exports and crashes leads to. */
  ghost predicate Reachable(t: Tools, s: State) {
    exists es :: Feasible(t, es) && After(t, es) == s
  }

  lemma ReachableInv(t: Tools, s: State)
    requires Reachable(t, s)
    ensures Inv(t, s)
  {
    var es :| Feasible(t, es) && After(t, es) == s;
    InvAlways(t, es);
  }

  // ---- where the URLs lead ----

  lemma AsciiAppend(a: string, b: string)
    ensures Ascii(a) + Ascii(b) == Ascii(a + b)
  {
  }

  lemma UrlIsPath(id: Bytes, q: string)
    ensures GenerationPath(id, Ascii(q)) == Ascii("generations/") + id + Ascii("/") + Ascii(q)
    ensures GenerationUrl(id) + Ascii("/" + q) == Ascii("./") + GenerationPath(id, Ascii(q))
  {
    AsciiAppend("./", "generations/");
    AsciiAppend("/", q);
    assert Ascii("/") == [SLASH];
  }

  lemma UrlLeads(t: Tools, fs: Directory, r: Report, q: string)
    requires Complete(t, fs, r) && Ascii(q) in Final(t, r)
    ensures LeadsTo(fs, GenerationUrl(Id(t, r)) + Ascii("/" + q), Id(t, r), q, Final(t, r)[Ascii(q)])
  {
    UrlIsPath(Id(t, r), q);
  }

  lemma StripNothing(url: Bytes, last: Bytes)
    requires last != [] && last[|last| - 1] != SLASH
    ensures StripSlashes(url + last) == url + last
  {
  }

  lemma DiagramUrl(id: Bytes, name: string)
    ensures StripSlashes(GenerationUrl(id) + Ascii("/diagrams")) + Ascii("/" + name) == GenerationUrl(id) + Ascii("/" + ("diagrams/" + name))
  {
    assert Ascii("/diagrams")[8] == 's' as int;
    StripNothing(GenerationUrl(id), Ascii("/diagrams"));
    AsciiAppend("/diagrams", "/" + name);
    assert "/diagrams" + ("/" + name) == "/" + ("diagrams/" + name);
  }

  lemma DiagramLeads(t: Tools, fs: Directory, r: Report, name: string, i: nat)
    requires Complete(t, fs, r) && i < |PARTS| && PARTS[i] == "diagrams/" + name
    ensures LeadsToPart(fs, StripSlashes(GenerationUrl(Id(t, r)) + Ascii("/diagrams")) + Ascii("/" + name), Id(t, r), PARTS[i], r)
  {
    DiagramUrl(Id(t, r), name);
    AssetLeads(t, fs, r, i);
  }

  lemma AssetLeads(t: Tools, fs: Directory, r: Report, i: nat)
    requires Complete(t, fs, r) && i < |PARTS|
    ensures LeadsToPart(fs, GenerationUrl(Id(t, r)) + Ascii("/" + PARTS[i]), Id(t, r), PARTS[i], r)
  {
    UrlLeads(t, fs, r, PARTS[i]);
  }

  lemma CurrentLeads(t: Tools, fs: Directory, r: Report)
    requires Complete(t, fs, r)
    ensures LeadsToPart(fs, DiagramsOf(Id(t, r)).current, Id(t, r), "diagrams/" + REAL, r)
  {
    DiagramLeads(t, fs, r, REAL, 2);
  }

  lemma PlannedLeads(t: Tools, fs: Directory, r: Report)
    requires Complete(t, fs, r)
    ensures LeadsToPart(fs, DiagramsOf(Id(t, r)).planned, Id(t, r), "diagrams/" + PLANNED, r)
  {
    DiagramLeads(t, fs, r, PLANNED, 3);
  }

  lemma DependenciesLead(t: Tools, fs: Directory, r: Report)
    requires Complete(t, fs, r)
    ensures LeadsToPart(fs, DiagramsOf(Id(t, r)).dependencies, Id(t, r), "diagrams/" + DEPENDENCIES, r)
  {
    DiagramLeads(t, fs, r, DEPENDENCIES, 4);
  }

  lemma AllDiagramsLead(t: Tools, fs: Directory, r: Report)
    requires Complete(t, fs, r)
    ensures DiagramsLead(fs, DiagramsOf(Id(t, r)), Id(t, r), r)
  {
    CurrentLeads(t, fs, r);
    PlannedLeads(t, fs, r);
    DependenciesLead(t, fs, r);
  }

  lemma StylesheetLeads(t: Tools, fs: Directory, r: Report)
    requires Complete(t, fs, r)
    ensures LeadsToPart(fs, PageUrlsAt(GenerationUrl(Id(t, r))).stylesheet, Id(t, r), STYLESHEET, r)
  {
    AssetLeads(t, fs, r, 0);
  }

  lemma ScriptLeads(t: Tools, fs: Directory, r: Report)
    requires Complete(t, fs, r)
    ensures LeadsToPart(fs, PageUrlsAt(GenerationUrl(Id(t, r))).script, Id(t, r), SCRIPT, r)
  {
    AssetLeads(t, fs, r, 1);
  }

  lemma ModelLeads(t: Tools, fs: Directory, r: Report)
    requires Complete(t, fs, r)
    ensures LeadsTo(fs, PageUrlsAt(GenerationUrl(Id(t, r))).model, Id(t, r), "model.json", t.model(r.core, DiagramsOf(Id(t, r))))
  {
    UrlLeads(t, fs, r, "model.json");
  }

  /** Every URL of a published index page, and every diagram URL of its model, leads to the right file of the
      immutable generation. */
  lemma EveryUrlLeads(t: Tools, fs: Directory, r: Report)
    requires Complete(t, fs, r) && IndexRefersTo(t, fs, r)
    ensures IndexLeads(t, fs, r)
  {
    AllDiagramsLead(t, fs, r);
    ModelLeads(t, fs, r);
    StylesheetLeads(t, fs, r);
    ScriptLeads(t, fs, r);
  }

  // ---- the promises ----

  /** After any run, crashes included, the index page (if there is one) is that of a report whose
      generation is in place, whole and unaltered, and each of its URLs leads there. */
  lemma IndexRefersToCompleteGeneration(t: Tools, s: State)
    requires Reachable(t, s) && INDEX in s.fs
    ensures exists r :: IndexRefersTo(t, s.fs, r) && Complete(t, s.fs, r) && IndexLeads(t, s.fs, r)
  {
    ReachableInv(t, s);
    var r :| r in s.published && IndexRefersTo(t, s.fs, r);
    assert Complete(t, s.fs, r);
    EveryUrlLeads(t, s.fs, r);
  }

  lemma {:induction false} FeasiblePrefix(t: Tools, es: seq<Event>, i: nat)
    requires Feasible(t, es) && i <= |es|
    ensures Feasible(t, es[..i])
  {
    if i == |es| {
      assert es[..i] == es;
    } else {
      FeasiblePrefix(t, es[..|es| - 1], i);
      assert es[..|es| - 1][..i] == es[..i];
    }
  }

  lemma KeepsThroughout(a: Directory, b: Directory, c: Directory)
    requires KeepsGenerations(a, b) && KeepsGenerations(b, c)
    ensures KeepsGenerations(a, c)
  {
  }

  lemma LastKeeps(t: Tools, es: seq<Event>)
    requires Feasible(t, es) && es != []
    ensures KeepsGenerations(After(t, es[..|es| - 1]).fs, After(t, es).fs)
  {
    InvAlways(t, es[..|es| - 1]);
    InvStep(t, After(t, es[..|es| - 1]), es[|es| - 1]);
  }

  /** Whatever has once appeared under `generations/` keeps its contents for ever. */
  lemma {:induction false} GenerationsAreImmutable(t: Tools, es: seq<Event>, i: nat)
    requires Feasible(t, es) && i <= |es|
    ensures Feasible(t, es[..i]) && KeepsGenerations(After(t, es[..i]).fs, After(t, es).fs)
  {
    FeasiblePrefix(t, es, i);
    if i == |es| {
      assert es[..i] == es;
    } else {
      var before := es[..|es| - 1];
      GenerationsAreImmutable(t, before, i);
      assert before[..i] == es[..i];
      LastKeeps(t, es);
      KeepsThroughout(After(t, es[..i]).fs, After(t, before).fs, After(t, es).fs);
    }
  }

  // ---- content addressing ----

  /** A collision-free digest, a JSON rendering that loses nothing, and a proper directory order. */
  ghost predicate Trusted(t: Tools) {
    && IsOrder(t.order)
    && (forall a, b :: t.hash(a) == t.hash(b) ==> a == b)
    && (forall c, d :: t.model(c, DiagramsAt(Ascii("./diagrams"))) == t.model(d, DiagramsAt(Ascii("./diagrams"))) ==> c == d)
  }

  lemma DraftParts(t: Tools, r: Report)
    requires MODEL !in r.assets
    ensures MODEL in Draft(t, r) && Draft(t, r)[MODEL] == t.model(r.core, DiagramsAt(Ascii("./diagrams")))
    ensures Draft(t, r) - {MODEL} == r.assets
  {
  }

  /** A draft shows its report: the rendered model does, and the assets are the other files. */
  lemma DraftsAreDistinct(t: Tools, a: Report, b: Report)
    requires Trusted(t) && WellFormed(t, a) && WellFormed(t, b) && Draft(t, a) == Draft(t, b)
    ensures a == b
  {
    DraftParts(t, a);
    DraftParts(t, b);
  }

  /** A generation id names one report: equal ids mean equal final directories, though the id is taken
      before the URLs that contain it are written. */
  lemma IdsNameReports(t: Tools, a: Report, b: Report)
    requires Trusted(t) && WellFormed(t, a) && WellFormed(t, b)
    ensures Id(t, a) == Id(t, b) <==> a == b
    ensures Id(t, a) == Id(t, b) ==> Final(t, a) == Final(t, b)
  {
    if Id(t, a) == Id(t, b) {
      DirectoryStreamsAreDistinct(t.order, Draft(t, a), Draft(t, b));
      DraftsAreDistinct(t, a, b);
    }
  }

  lemma ContentsAre(fs: Directory, id: Bytes, dir: Directory)
    requires forall p :: p in fs && GenerationRoot(id) <= p ==> p[|GenerationRoot(id)|..] in dir
    requires forall q :: q in dir ==> GenerationPath(id, q) in fs && fs[GenerationPath(id, q)] == dir[q]
    ensures ContentsOf(fs, id) == dir
  {
    var root, got := GenerationRoot(id), ContentsOf(fs, id);
    forall q
      ensures q in dir ==> q in got && got[q] == dir[q]
      ensures q in got ==> q in dir
    {
      JoinPath(id, q);
      assert GenerationPath(id, q) == root + q;
      if q in dir {
        assert (root + q)[|root|..] == q;
      }
    }
  }

  /** Whatever lies under the root of `r`'s generation was put there by an export of `r`. */
  lemma OwnerOfGeneration(t: Tools, s: State, r: Report, p: Bytes)
    requires Trusted(t) && Inv(t, s) && WellFormed(t, r) && p in s.fs && GenerationRoot(Id(t, r)) <= p
    ensures r in s.published && p[|GenerationRoot(Id(t, r))|..] in Final(t, r)
  {
    SplitPath(Id(t, r), p);
    var x :| x in s.published && Belongs(t, p, x);
    RootsAreDistinct(Id(t, r), Id(t, x), p);
    IdsNameReports(t, r, x);
  }

  /** An existing generation with the id of `r` is the generation of `r`. */
  lemma ExistingIsEqual(t: Tools, s: State, r: Report)
    requires Trusted(t) && Inv(t, s) && WellFormed(t, r)
    ensures Exists(s.fs, Id(t, r)) ==> ContentsOf(s.fs, Id(t, r)) == Final(t, r)
  {
    if Exists(s.fs, Id(t, r)) {
      forall p | p in s.fs && GenerationRoot(Id(t, r)) <= p
        ensures r in s.published && p[|GenerationRoot(Id(t, r))|..] in Final(t, r)
      {
        OwnerOfGeneration(t, s, r, p);
      }
      assert r in s.published;
      ContentsAre(s.fs, Id(t, r), Final(t, r));
    }
  }

  /** So the collision error is unreachable between exports. */
  lemma {:induction false} CollisionIsUnreachable(t: Tools, es: seq<Event>)
    requires Trusted(t) && Feasible(t, es)
    ensures !After(t, es).collided
  {
    if es == [] {
    } else {
      var s, e := After(t, es[..|es| - 1]), es[|es| - 1];
      CollisionIsUnreachable(t, es[..|es| - 1]);
      InvAlways(t, es[..|es| - 1]);
      if e.PublishGeneration? {
        ExistingIsEqual(t, s, s.pc.report);
      }
    }
  }

  // ---- what a finished export leaves ----

  /** While copying, the index is the export's own and every file is copied or still to be copied. */
  ghost predicate CopyOk(t: Tools, s: State) {
    s.pc.Copying? ==>
      && IndexRefersTo(t, s.fs, s.pc.report)
      && (forall i :: 0 <= i < |s.pc.left| ==> s.pc.left[i] in Final(t, s.pc.report))
      && forall p :: p in Final(t, s.pc.report) ==>
           p in s.pc.left || (p in s.fs && s.fs[p] == Final(t, s.pc.report)[p])
  }

  lemma CopyOkSwitch(t: Tools, s: State)
    requires IsOrder(t.order) && Enabled(t, s, SwitchIndex)
    ensures CopyOk(t, Next(t, s, SwitchIndex))
  {
    var paths := Final(t, s.pc.report).Keys;
    assert forall p :: p in t.order(paths) <==> p in paths;
  }

  lemma CopyOkCopy(t: Tools, s: State)
    requires CopyOk(t, s) && Enabled(t, s, CopyFile)
    ensures CopyOk(t, Next(t, s, CopyFile))
  {
    var s' := Next(t, s, CopyFile);
    assert ReportPath(s.pc.left[0]);
    ReportPathsAreElsewhere(s.pc.left[0]);
    assert s.pc.left == [s.pc.left[0]] + s'.pc.left;
  }

  lemma CopyOkStep(t: Tools, s: State, e: Event)
    requires IsOrder(t.order) && CopyOk(t, s) && Enabled(t, s, e)
    ensures CopyOk(t, Next(t, s, e))
  {
    match e
    case SwitchIndex => CopyOkSwitch(t, s);
    case CopyFile => CopyOkCopy(t, s);
    case _ =>
  }

  lemma {:induction false} CopyOkAlways(t: Tools, es: seq<Event>)
    requires IsOrder(t.order) && Feasible(t, es)
    ensures CopyOk(t, After(t, es))
  {
    if es == [] {
    } else {
      CopyOkAlways(t, es[..|es| - 1]);
      CopyOkStep(t, After(t, es[..|es| - 1]), es[|es| - 1]);
    }
  }

  /** An export that has switched the index can always go on, and when it is done the root holds its
      index page and a copy of each of its files. */
  lemma FinishedExportIsWhole(t: Tools, s: State)
    requires IsOrder(t.order) && Reachable(t, s) && s.pc.Copying?
    ensures
      && (s.pc.left != [] ==> Enabled(t, s, CopyFile))
      && (s.pc.left == [] ==>
            Complete(t, s.fs, s.pc.report) && IndexRefersTo(t, s.fs, s.pc.report) &&
            forall p :: p in Final(t, s.pc.report) ==> p in s.fs && s.fs[p] == Final(t, s.pc.report)[p])
  {
    var es :| Feasible(t, es) && After(t, es) == s;
    InvAlways(t, es);
    CopyOkAlways(t, es);
  }
}
