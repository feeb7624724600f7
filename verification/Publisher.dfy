/** The static report publisher: content-addressed generations, then an atomic switch of the index,
    then convenience copies of the report's files at the root.  The output directory is a map from
    path to contents; an export is a sequence of atomic steps and can crash between any two. */
module Publisher {
  import opened Snapshots

  /** The report payload without its self-referential diagram URLs. */
  type Core = string

  /** A report: its payload and its files other than `model.json`. */
  datatype Report = Report(core: Core, assets: Directory)

  /** The URLs a payload names: those of its three diagrams. */
  datatype DiagramUrls = DiagramUrls(current: Bytes, planned: Bytes, dependencies: Bytes)

  /** The URLs an index page names besides. */
  datatype PageUrls = PageUrls(model: Bytes, stylesheet: Bytes, script: Bytes)

  /** The library functions the exporter relies on: JSON rendering of the payload, the index page around
      it, the digest in hexadecimal, and the directory order. */
  datatype Tools = Tools(
    model: (Core, DiagramUrls) -> Bytes,
    index: (Core, DiagramUrls, PageUrls) -> Bytes,
    hash: Bytes -> Bytes,
    order: set<Bytes> -> seq<Bytes>)

  function Ascii(text: string): Bytes {
    seq(|text|, i requires 0 <= i < |text| => if text[i] < '\U{0080}' then text[i] as int else 0)
  }

  const SLASH: Byte := 47
  const INDEX := Ascii("index.html")
  const MODEL := Ascii("model.json")
  const ASSETS := Ascii("assets/")
  const DIAGRAMS := Ascii("diagrams/")
  const GENERATIONS := Ascii("generations/")

  const STYLESHEET := "assets/app.css"
  const SCRIPT := "assets/app.js"
  const REAL := "architecture-real.svg"
  const PLANNED := "architecture-planned.svg"
  const DEPENDENCIES := "module-dependencies.svg"

  function GenerationUrl(id: Bytes): Bytes {
    Ascii("./generations/") + id
  }

  /** `rstrip("/")`. */
  function StripSlashes(url: Bytes): (r: Bytes)
    ensures r <= url && (r == [] || r[|r| - 1] != SLASH)
    ensures forall i :: |r| <= i < |url| ==> url[i] == SLASH
  {
    if url == [] || url[|url| - 1] != SLASH then url else StripSlashes(url[..|url| - 1])
  }

  /** `static_diagram_payload`. */
  function DiagramsAt(base: Bytes): DiagramUrls {
    var url := StripSlashes(base);
    DiagramUrls(url + Ascii("/" + REAL), url + Ascii("/" + PLANNED), url + Ascii("/" + DEPENDENCIES))
  }

  /** The URLs `static_index_html` puts into the page for a generation. */
  function PageUrlsAt(url: Bytes): PageUrls {
    PageUrls(url + Ascii("/" + "model.json"), url + Ascii("/" + STYLESHEET), url + Ascii("/" + SCRIPT))
  }

  function DiagramsOf(id: Bytes): DiagramUrls {
    DiagramsAt(GenerationUrl(id) + Ascii("/diagrams"))
  }

  /** The staged files before the generation's own URLs are known; they are what is hashed. */
  function Draft(t: Tools, r: Report): Directory {
    r.assets[MODEL := t.model(r.core, DiagramsAt(Ascii("./diagrams")))]
  }

  predicate CanHash(t: Tools, r: Report) {
    Listable(t.order, Draft(t, r)) && SizedDirectory(Draft(t, r))
  }

  function Id(t: Tools, r: Report): Bytes
    requires CanHash(t, r)
  {
    t.hash(DirectoryStream(t.order, Draft(t, r)))
  }

  /** The files of the published generation. */
  function Final(t: Tools, r: Report): Directory
    requires CanHash(t, r)
  {
    r.assets[MODEL := t.model(r.core, DiagramsOf(Id(t, r)))]
  }

  function IndexPage(t: Tools, r: Report): Bytes
    requires CanHash(t, r)
  {
    t.index(r.core, DiagramsOf(Id(t, r)), PageUrlsAt(GenerationUrl(Id(t, r))))
  }

  /** The files an export stages: style and script, diagrams, model. */
  predicate ReportPath(p: Bytes) {
    p == MODEL || ASSETS <= p || DIAGRAMS <= p
  }

  /** Style, script and the three diagrams are always staged. */
  const PARTS := [STYLESHEET, SCRIPT, "diagrams/" + REAL, "diagrams/" + PLANNED, "diagrams/" + DEPENDENCIES]

  predicate HasParts(assets: Directory) {
    forall i :: 0 <= i < |PARTS| ==> Ascii(PARTS[i]) in assets
  }

  predicate WellFormed(t: Tools, r: Report) {
    && CanHash(t, r) && SLASH !in Id(t, r)
    && MODEL !in r.assets && HasParts(r.assets) && forall p :: p in r.assets ==> ReportPath(p)
  }

  /** `output/generations/<id>/` followed by a path. */
  function GenerationPath(id: Bytes, p: Bytes): Bytes {
    GENERATIONS + id + [SLASH] + p
  }

  function GenerationRoot(id: Bytes): Bytes {
    GENERATIONS + id + [SLASH]
  }

  /** `directory_contents` of a generation. */
  function ContentsOf(fs: Directory, id: Bytes): Directory {
    var root := GenerationRoot(id);
    map q | q in (set p | p in fs && root <= p :: p[|root|..]) && root + q in fs :: fs[root + q]
  }

  /** `destination.exists()`: a non-empty directory, as every generation holds a model. */
  predicate Exists(fs: Directory, id: Bytes) {
    exists p :: p in fs && GenerationRoot(id) <= p
  }

  /** `os.replace` of the staged directory: all of its files appear under the destination at once. */
  function MoveIn(fs: Directory, id: Bytes, dir: Directory): Directory {
    var root := GenerationRoot(id);
    map p | p in fs.Keys + (set q | q in dir :: GenerationPath(id, q)) ::
      if root <= p && p[|root|..] in dir then dir[p[|root|..]] else fs[p]
  }

  /** Where the running export stands; its staging directory is outside the output directory. */
  datatype Pc =
    | NoExport
    | Staged(report: Report)
    | Published(report: Report)
    | Copying(report: Report, left: seq<Bytes>)

  /** `published` logs the reports whose generation was put in place, `collided` whether the collision
      error was ever raised. */
  datatype State = State(fs: Directory, pc: Pc, published: seq<Report>, collided: bool)

  const INIT := State(map[], NoExport, [], false)

  datatype Event = Stage(report: Report) | PublishGeneration | SwitchIndex | CopyFile | Finish | Crash

  predicate Enabled(t: Tools, s: State, e: Event) {
    match e
    case Stage(r) => s.pc.NoExport? && WellFormed(t, r)
    case PublishGeneration => s.pc.Staged? && WellFormed(t, s.pc.report)
    case SwitchIndex => s.pc.Published? && WellFormed(t, s.pc.report)
    case CopyFile => s.pc.Copying? && s.pc.left != [] && WellFormed(t, s.pc.report) && s.pc.left[0] in Final(t, s.pc.report)
    case Finish => s.pc.Copying? && s.pc.left == []
    case Crash => !s.pc.NoExport?
  }

  function Next(t: Tools, s: State, e: Event): State
    requires Enabled(t, s, e)
  {
    match e
    case Stage(r) => s.(pc := Staged(r))
    case PublishGeneration => PublishStep(t, s, s.pc.report)
    case SwitchIndex =>
      s.(fs := s.fs[INDEX := IndexPage(t, s.pc.report)], pc := Copying(s.pc.report, t.order(Final(t, s.pc.report).Keys)))
    case CopyFile =>
      s.(fs := s.fs[s.pc.left[0] := Final(t, s.pc.report)[s.pc.left[0]]], pc := Copying(s.pc.report, s.pc.left[1..]))
    case Finish => s.(pc := NoExport)
    case Crash => s.(pc := NoExport)
  }

  /** `publish_immutable_generation`: reuse an equal generation, refuse a different one, move in. */
  function PublishStep(t: Tools, s: State, r: Report): State
    requires WellFormed(t, r)
  {
    var id := Id(t, r);
    if Exists(s.fs, id) then
      if ContentsOf(s.fs, id) == Final(t, r) then s.(pc := Published(r), published := s.published + [r])
      else s.(pc := NoExport, collided := true)
    else s.(fs := MoveIn(s.fs, id, Final(t, r)), pc := Published(r), published := s.published + [r])
  }

  predicate Feasible(t: Tools, es: seq<Event>)
    decreases es, 0
  {
    es == [] || (Feasible(t, es[..|es| - 1]) && Enabled(t, After(t, es[..|es| - 1]), es[|es| - 1]))
  }

  function After(t: Tools, es: seq<Event>): State
    requires Feasible(t, es)
    decreases es, 1
  {
    if es == [] then INIT else Next(t, After(t, es[..|es| - 1]), es[|es| - 1])
  }
}
