/** The publisher as the code runs it: the output directory updated in place, without a crash. */
module ReportSite {
  import opened Wrappers
  import opened Snapshots
  import opened Publisher
  import opened PublisherSafety

  /** The files of `order`, with the entry point moved to the end. */
  function EntrypointLast(paths: seq<Bytes>, last: Option<Bytes>): seq<Bytes> {
    if last.None? then paths else Without(paths, last.value) + [last.value]
  }

  function Without(paths: seq<Bytes>, p: Bytes): (r: seq<Bytes>)
    ensures forall q :: q in r <==> q in paths && q != p
  {
    if paths == [] then []
    else if paths[0] == p then Without(paths[1..], p)
    else [paths[0]] + Without(paths[1..], p)
  }

  /** `p` is put in place at the end and not before. */
  predicate ComesLast(paths: seq<Bytes>, p: Bytes) {
    paths != [] && paths[|paths| - 1] == p && p !in paths[..|paths| - 1]
  }

  lemma OrderLists(order: set<Bytes> -> seq<Bytes>, staged: Directory)
    requires IsOrder(order)
    ensures forall p :: p in order(staged.Keys) <==> p in staged
  {
    assert forall p :: p in order(staged.Keys) <==> p in staged.Keys;
  }

  /** Staged files put in place one after the other. */
  function Overlay(fs: Directory, staged: Directory, paths: seq<Bytes>): Directory
    requires forall i :: 0 <= i < |paths| ==> paths[i] in staged
  {
    if paths == [] then fs
    else
      var last := paths[|paths| - 1];
      Overlay(fs, staged, paths[..|paths| - 1])[last := staged[last]]
  }

  lemma {:induction false} OverlayIs(fs: Directory, staged: Directory, paths: seq<Bytes>)
    requires forall i :: 0 <= i < |paths| ==> paths[i] in staged
    ensures
      var r := Overlay(fs, staged, paths);
      forall p :: (p in r <==> p in fs || p in paths) && (p in r ==> r[p] == if p in paths then staged[p] else fs[p])
  {
    if paths == [] {
    } else {
      var n := |paths| - 1;
      OverlayIs(fs, staged, paths[..n]);
      assert paths == paths[..n] + [paths[n]];
    }
  }

  lemma OverlayAll(fs: Directory, staged: Directory, paths: seq<Bytes>)
    requires forall p :: p in paths <==> p in staged
    ensures Overlay(fs, staged, paths) == fs + staged
  {
    OverlayIs(fs, staged, paths);
  }

  /** What the index switch and the copies add to a published generation. */
  lemma ExportLeaves(t: Tools, r: Report, fs0: Directory, fs: Directory)
    requires WellFormed(t, r) && KeepsGenerations(fs0, fs) && Complete(t, fs, r)
    ensures
      var fs' := fs[INDEX := IndexPage(t, r)] + Final(t, r);
      KeepsGenerations(fs0, fs') && Complete(t, fs', r) && IndexRefersTo(t, fs', r)
  {
    var fs' := fs[INDEX := IndexPage(t, r)] + Final(t, r);
    IndexIsElsewhere();
    forall p | p in Final(t, r)
      ensures p != INDEX && !(GENERATIONS <= p)
    {
      assert ReportPath(p);
      ReportPathsAreElsewhere(p);
    }
    CompleteStays(t, fs, fs', r);
  }

  class Site {
    var files: Directory

    constructor ()
      ensures files == map[]
    {
      files := map[];
    }

    /** An existing equal generation is reused, an existing different one is refused, and otherwise the
        staged directory appears at once. No existing file changes in any case. */
    method PublishImmutableGeneration(staged: Directory, id: Bytes) returns (ok: bool)
      modifies this
      ensures ok == (Exists(old(files), id) ==> ContentsOf(old(files), id) == staged)
      ensures files == if Exists(old(files), id) then old(files) else MoveIn(old(files), id, staged)
      ensures ok ==> forall q :: q in staged ==> GenerationPath(id, q) in files && files[GenerationPath(id, q)] == staged[q]
      ensures forall p :: p in old(files) ==> p in files && files[p] == old(files)[p]
    {
      if Exists(files, id) {
        ok := ContentsOf(files, id) == staged;
        forall q | q in staged && ok
          ensures GenerationPath(id, q) in files && files[GenerationPath(id, q)] == staged[q]
        {
          assert q in ContentsOf(files, id);
        }
        return;
      }
      MoveInIs(files, id, staged);
      files := MoveIn(files, id, staged);
      ok := true;
    }

    /** `publish_staged_files`: the staged files replace their namesakes one by one, in the order of
        `sources`; a named entry point must be among them and is put in place last, after all the others. */
    method PublishStagedFiles(order: set<Bytes> -> seq<Bytes>, staged: Directory, entrypointLast: Option<Bytes>)
      returns (ok: bool, ghost sources: seq<Bytes>)
      requires IsOrder(order)
      modifies this
      ensures ok == (entrypointLast.Some? ==> entrypointLast.value in staged)
      ensures files == if ok then old(files) + staged else old(files)
      ensures ok ==> (forall p :: p in sources <==> p in staged) && files == Overlay(old(files), staged, sources)
      ensures ok && entrypointLast.Some? ==> ComesLast(sources, entrypointLast.value)
    {
      sources := [];
      OrderLists(order, staged);
      ok := entrypointLast.Some? ==> entrypointLast.value in order(staged.Keys);
      if ok {
        var inOrder := EntrypointLast(order(staged.Keys), entrypointLast);
        OverlayAll(files, staged, inOrder);
        ReplaceEach(staged, inOrder);
        sources := inOrder;
      }
    }

    /** The loop of atomic replacements. */
    method ReplaceEach(staged: Directory, sources: seq<Bytes>)
      requires forall i :: 0 <= i < |sources| ==> sources[i] in staged
      modifies this
      ensures files == Overlay(old(files), staged, sources)
    {
      for i := 0 to |sources|
        invariant files == Overlay(old(files), staged, sources[..i])
      {
        assert sources[..i + 1][..i] == sources[..i];
        files := files[sources[i] := staged[sources[i]]];
      }
      assert sources[..|sources|] == sources;
    }

    /** `export_management_report`. It fails exactly on a collision, leaving everything as it was;
        otherwise the generation is complete, the index is the report's own and its URLs lead to
        the generation, the root holds a copy of each of its files, and nothing else has changed. */
    method Export(t: Tools, r: Report) returns (ok: bool)
      requires IsOrder(t.order) && WellFormed(t, r)
      modifies this
      ensures ok == (Exists(old(files), Id(t, r)) ==> ContentsOf(old(files), Id(t, r)) == Final(t, r))
      ensures !ok ==> files == old(files)
      ensures ok ==> Complete(t, files, r) && IndexRefersTo(t, files, r) && IndexLeads(t, files, r)
      ensures ok ==>
        var published := if Exists(old(files), Id(t, r)) then old(files) else MoveIn(old(files), Id(t, r), Final(t, r));
        files == published[Ascii("index.html") := IndexPage(t, r)] + Final(t, r)
      ensures KeepsGenerations(old(files), files)
    {
      var draft := r.assets[MODEL := t.model(r.core, DiagramsAt(Ascii("./diagrams")))];
      var id := SnapshotIdFor(t.order, t.hash, draft);
      var generation := draft[MODEL := t.model(r.core, DiagramsOf(id))];
      assert generation == Final(t, r);
      var compatibility := generation;
      ok := PublishImmutableGeneration(generation, id);
      if !ok {
        return;
      }
      ExportLeaves(t, r, old(files), files);
      files := files[INDEX := t.index(r.core, DiagramsOf(id), PageUrlsAt(GenerationUrl(id)))];
      var copied, sources := PublishStagedFiles(t.order, compatibility, None);
      EveryUrlLeads(t, files, r);
    }
  }
}
