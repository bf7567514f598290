/**
 Deploying packaged files with a manifest, and undoing it: an uninstall removes the
 recorded files that are still as they were deployed, and nothing else.
 */
module Scaffold {
  import opened Common

  type Path = string
  type Content = string
  type Files = map<Path, Content>

  /** A packaged file, by its content, and where it goes. */
  datatype CopyItem = CopyItem(src: Content, dest: Path)

  datatype Entry = Entry(path: Path, sha: string)

  /** The file system's part: what lies inside the target, what cannot be deleted, and the content hash. */
  datatype Env = Env(inside: Path -> bool, locked: set<Path>, sha: Content -> string)

  ghost predicate Injective(env: Env) {
    forall a, b :: env.sha(a) == env.sha(b) ==> a == b
  }

  // ---- the plan ---------------------------------------------------------

  function Dests(plan: seq<CopyItem>): set<Path> {
    set item | item in plan :: item.dest
  }

  /** One item per destination: the first. */
  function Deduped(plan: seq<CopyItem>): seq<CopyItem> {
    if plan == [] then []
    else
      var front, last := plan[..|plan| - 1], plan[|plan| - 1];
      Deduped(front) + if last.dest in Dests(front) then [] else [last]
  }

  ghost predicate DistinctDests(plan: seq<CopyItem>) {
    forall i, j :: 0 <= i < j < |plan| ==> plan[i].dest != plan[j].dest
  }

  /** The item that a destination comes from. */
  ghost predicate FirstFor(plan: seq<CopyItem>, item: CopyItem) {
    exists i :: 0 <= i < |plan| && plan[i] == item && forall j :: 0 <= j < i ==> plan[j].dest != item.dest
  }

  lemma DestsSnoc(plan: seq<CopyItem>, item: CopyItem)
    ensures Dests(plan + [item]) == Dests(plan) + {item.dest}
  {
    forall p | p in Dests(plan) + {item.dest} ensures p in Dests(plan + [item]) {
      if p == item.dest {
        assert item in plan + [item];
      } else {
        var x :| x in plan && x.dest == p;
        assert x in plan + [item];
      }
    }
  }

  lemma FirstForMore(plan: seq<CopyItem>, last: CopyItem, item: CopyItem)
    requires FirstFor(plan, item) || (item == last && last.dest !in Dests(plan))
    ensures FirstFor(plan + [last], item)
  {
    var more := plan + [last];
    if FirstFor(plan, item) {
      var i :| 0 <= i < |plan| && plan[i] == item && forall j :: 0 <= j < i ==> plan[j].dest != item.dest;
      assert more[i] == item;
    } else {
      FreshDest(plan, last);
      assert more[|plan|] == last;
    }
  }

  lemma {:induction false} DedupeFirst(plan: seq<CopyItem>, item: CopyItem)
    requires item in Deduped(plan)
    ensures FirstFor(plan, item)
  {
    var front, last := plan[..|plan| - 1], plan[|plan| - 1];
    if item in Deduped(front) { DedupeFirst(front, item); }
    FirstForMore(front, last, item);
    SplitLast(plan);
  }

  lemma DistinctMore(plan: seq<CopyItem>, item: CopyItem)
    requires DistinctDests(plan) && item.dest !in Dests(plan)
    ensures DistinctDests(plan + [item])
  {
    FreshDest(plan, item);
  }

  lemma {:induction false} DedupeDests(plan: seq<CopyItem>)
    ensures DistinctDests(Deduped(plan)) && Dests(Deduped(plan)) == Dests(plan)
  {
    if plan != [] {
      hide DistinctDests, Dests;
      var front, last := plan[..|plan| - 1], plan[|plan| - 1];
      DedupeDests(front);
      SplitLast(plan);
      DestsSnoc(front, last);
      if last.dest !in Dests(front) {
        DestsSnoc(Deduped(front), last);
        DistinctMore(Deduped(front), last);
      } else {
        assert Deduped(plan) == Deduped(front);
      }
    }
  }

  /** Deduplication keeps every destination once, with the first item planned for it. */
  lemma DedupeKeepsFirst(plan: seq<CopyItem>)
    ensures DistinctDests(Deduped(plan)) && Dests(Deduped(plan)) == Dests(plan)
    ensures forall item :: item in Deduped(plan) ==> FirstFor(plan, item)
  {
    DedupeDests(plan);
    forall item | item in Deduped(plan) ensures FirstFor(plan, item) {
      DedupeFirst(plan, item);
    }
  }

  lemma FreshDest(plan: seq<CopyItem>, item: CopyItem)
    requires item.dest !in Dests(plan)
    ensures forall j :: 0 <= j < |plan| ==> plan[j].dest != item.dest
  {
  }

  // ---- deploying --------------------------------------------------------

  predicate Skips(files: Files, item: CopyItem, force: bool) {
    item.dest in files && !force
  }

  function Copied(files: Files, plan: seq<CopyItem>, force: bool): Files {
    if plan == [] then files
    else
      var before := Copied(files, plan[..|plan| - 1], force);
      var item := plan[|plan| - 1];
      if Skips(before, item, force) then before else before[item.dest := item.src]
  }

  function CopiedItems(files: Files, plan: seq<CopyItem>, force: bool): seq<CopyItem> {
    if plan == [] then []
    else
      var front, item := plan[..|plan| - 1], plan[|plan| - 1];
      CopiedItems(files, front, force) + if Skips(Copied(files, front, force), item, force) then [] else [item]
  }

  function SkippedItems(files: Files, plan: seq<CopyItem>, force: bool, dryRun: bool): seq<CopyItem> {
    if plan == [] then []
    else
      var front, item := plan[..|plan| - 1], plan[|plan| - 1];
      SkippedItems(files, front, force, dryRun)
      + if Skips(if dryRun then files else Copied(files, front, force), item, force) then [item] else []
  }

  /** The whole plan is recorded, freshly copied or not. */
  function ManifestOf(env: Env, files: Files, plan: seq<CopyItem>): seq<Entry> {
    if plan == [] then []
    else
      var item := plan[|plan| - 1];
      ManifestOf(env, files, plan[..|plan| - 1])
      + if item.dest in files then [Entry(item.dest, env.sha(files[item.dest]))] else []
  }

  // ---- undoing ----------------------------------------------------------

  datatype Fate = Removed | KeptModified | Missing

  predicate Unchanged(env: Env, files: Files, e: Entry) {
    e.path in files && env.sha(files[e.path]) == e.sha
  }

  function FateOf(env: Env, files: Files, e: Entry, dryRun: bool): Fate {
    if !env.inside(e.path) then KeptModified
    else if e.path !in files then Missing
    else if !Unchanged(env, files, e) then KeptModified
    else if !dryRun && e.path in env.locked then KeptModified
    else Removed
  }

  function Undone(env: Env, files: Files, entries: seq<Entry>, dryRun: bool): Files {
    if entries == [] then files
    else
      var before := Undone(env, files, entries[..|entries| - 1], dryRun);
      var e := entries[|entries| - 1];
      if FateOf(env, before, e, dryRun).Removed? && !dryRun then before - {e.path} else before
  }

  /** The recorded paths that met a given fate, in the manifest's order. */
  function WithFate(env: Env, files: Files, entries: seq<Entry>, dryRun: bool, fate: Fate): seq<Path> {
    if entries == [] then []
    else
      var front, e := entries[..|entries| - 1], entries[|entries| - 1];
      WithFate(env, files, front, dryRun, fate)
      + if FateOf(env, Undone(env, files, front, dryRun), e, dryRun) == fate then [e.path] else []
  }

  // ---- checking ---------------------------------------------------------

  function Drifted(env: Env, files: Files, entries: seq<Entry>): seq<Path> {
    if entries == [] then []
    else
      var e := entries[|entries| - 1];
      Drifted(env, files, entries[..|entries| - 1])
      + if env.inside(e.path) && Unchanged(env, files, e) then [] else [e.path]
  }

  // ---- the target -------------------------------------------------------

  datatype ScaffoldResult = ScaffoldResult(plan: seq<CopyItem>, copied: seq<CopyItem>, skipped: seq<CopyItem>)

  datatype UninstallResult = UninstallResult(
    removed: seq<Path>,
    keptModified: seq<Path>,
    missing: seq<Path>,
    manifest: bool)

  datatype CheckResult = CheckResult(deployed: bool, ok: bool, missing: seq<Path>, modified: seq<Path>)

  method Dedupe(plan: seq<CopyItem>) returns (unique: seq<CopyItem>)
    ensures unique == Deduped(plan)
  {
    unique := [];
    var seen := {};
    for i := 0 to |plan|
      invariant unique == Deduped(plan[..i]) && seen == Dests(plan[..i])
    {
      assert plan[..i + 1][..i] == plan[..i];
      TakeOneMore(plan, i);
      DestsSnoc(plan[..i], plan[i]);
      if plan[i].dest !in seen {
        seen := seen + {plan[i].dest};
        unique := unique + [plan[i]];
      }
    }
    assert plan[..|plan|] == plan;
  }

  class Target {
    const env: Env
    var files: Files
    var manifest: Option<seq<Entry>>

    constructor (e: Env, f: Files, m: Option<seq<Entry>>)
      ensures env == e && files == f && manifest == m
    {
      env, files, manifest := e, f, m;
    }

    method Scaffold(items: seq<CopyItem>, dryRun: bool, force: bool) returns (r: ScaffoldResult)
      modifies this
      ensures var plan := Deduped(items);
              && r.plan == plan
              && r.skipped == SkippedItems(old(files), plan, force, dryRun)
              && (dryRun ==> files == old(files) && manifest == old(manifest) && r.copied == [])
              && (!dryRun ==>
                    && files == Copied(old(files), plan, force)
                    && manifest == Some(ManifestOf(env, files, plan))
                    && r.copied == CopiedItems(old(files), plan, force))
    {
      hide *;
      var plan := Dedupe(items);
      var copied, skipped := CopyAll(plan, dryRun, force);
      if !dryRun { WriteManifest(plan); }
      r := ScaffoldResult(plan, copied, skipped);
    }

    method CopyAll(plan: seq<CopyItem>, dryRun: bool, force: bool)
      returns (copied: seq<CopyItem>, skipped: seq<CopyItem>)
      modifies this`files
      ensures files == if dryRun then old(files) else Copied(old(files), plan, force)
      ensures copied == if dryRun then [] else CopiedItems(old(files), plan, force)
      ensures skipped == SkippedItems(old(files), plan, force, dryRun)
    {
      copied, skipped := [], [];
      for i := 0 to |plan|
        invariant files == if dryRun then old(files) else Copied(old(files), plan[..i], force)
        invariant copied == if dryRun then [] else CopiedItems(old(files), plan[..i], force)
        invariant skipped == SkippedItems(old(files), plan[..i], force, dryRun)
      {
        assert plan[..i + 1][..i] == plan[..i];
        var item := plan[i];
        if item.dest in files && !force {
          skipped := skipped + [item];
        } else if !dryRun {
          files := files[item.dest := item.src];
          copied := copied + [item];
        }
      }
      assert plan[..|plan|] == plan;
    }

    method WriteManifest(plan: seq<CopyItem>)
      modifies this`manifest
      ensures manifest == Some(ManifestOf(env, files, plan))
    {
      var entries := [];
      for i := 0 to |plan|
        invariant entries == ManifestOf(env, files, plan[..i])
      {
        assert plan[..i + 1][..i] == plan[..i];
        if plan[i].dest in files {
          entries := entries + [Entry(plan[i].dest, env.sha(files[plan[i].dest]))];
        }
      }
      assert plan[..|plan|] == plan;
      manifest := Some(entries);
    }

    method Uninstall(dryRun: bool) returns (r: UninstallResult)
      modifies this
      ensures old(manifest).None? ==>
                r == UninstallResult([], [], [], false) && files == old(files) && manifest == old(manifest)
      ensures old(manifest).Some? ==>
                var entries := old(manifest).value;
                && files == Undone(env, old(files), entries, dryRun)
                && manifest == (if dryRun then old(manifest) else None)
                && r == UninstallResult(WithFate(env, old(files), entries, dryRun, Removed),
                                        WithFate(env, old(files), entries, dryRun, KeptModified),
                                        WithFate(env, old(files), entries, dryRun, Missing), true)
    {
      if manifest.None? { return UninstallResult([], [], [], false); }
      var entries := manifest.value;
      var removed, kept, missing := [], [], [];
      for i := 0 to |entries|
        invariant manifest == old(manifest)
        invariant files == Undone(env, old(files), entries[..i], dryRun)
        invariant removed == WithFate(env, old(files), entries[..i], dryRun, Removed)
        invariant kept == WithFate(env, old(files), entries[..i], dryRun, KeptModified)
        invariant missing == WithFate(env, old(files), entries[..i], dryRun, Missing)
      {
        assert entries[..i + 1][..i] == entries[..i];
        var e := entries[i];
        if !env.inside(e.path) {
          kept := kept + [e.path];
        } else if e.path !in files {
          missing := missing + [e.path];
        } else if env.sha(files[e.path]) != e.sha {
          kept := kept + [e.path];
        } else if !dryRun && e.path in env.locked {
          kept := kept + [e.path];
        } else {
          if !dryRun { files := files - {e.path}; }
          removed := removed + [e.path];
        }
      }
      assert entries[..|entries|] == entries;
      if !dryRun { manifest := None; }
      r := UninstallResult(removed, kept, missing, true);
    }

    method CheckDeployed() returns (r: CheckResult)
      ensures manifest.None? ==> r == CheckResult(false, true, [], [])
      ensures manifest.Some? ==>
                && r.deployed && (r.ok <==> Drifted(env, files, manifest.value) == [])
                && (forall p :: p in r.missing || p in r.modified <==> p in Drifted(env, files, manifest.value))
                && (forall p :: p in r.missing ==> env.inside(p) && p !in files)
                && (forall p :: p in r.modified ==> !env.inside(p) || p in files)
    {
      if manifest.None? { return CheckResult(false, true, [], []); }
      var entries := manifest.value;
      var missing, modified := [], [];
      for i := 0 to |entries|
        invariant missing + modified == [] <==> Drifted(env, files, entries[..i]) == []
        invariant forall p :: p in missing || p in modified <==> p in Drifted(env, files, entries[..i])
        invariant forall p :: p in missing ==> env.inside(p) && p !in files
        invariant forall p :: p in modified ==> !env.inside(p) || p in files
      {
        assert entries[..i + 1][..i] == entries[..i];
        var e := entries[i];
        if !env.inside(e.path) {
          modified := modified + [e.path];
        } else if e.path !in files {
          missing := missing + [e.path];
        } else if env.sha(files[e.path]) != e.sha {
          modified := modified + [e.path];
        }
      }
      assert entries[..|entries|] == entries;
      r := CheckResult(true, missing == [] && modified == [], missing, modified);
    }
  }

  // ---- what a deployment leaves -----------------------------------------

  lemma {:induction false} CopiedAt(files: Files, plan: seq<CopyItem>, force: bool)
    requires DistinctDests(plan)
    ensures var after := Copied(files, plan, force);
            && after.Keys == files.Keys + Dests(plan)
            && (forall p :: p in files && (p !in Dests(plan) || !force) ==> after[p] == files[p])
            && (forall item :: item in plan && (item.dest !in files || force) ==> after[item.dest] == item.src)
  {
    if plan != [] {
      var front, last := plan[..|plan| - 1], plan[|plan| - 1];
      CopiedAt(files, front, force);
      SplitLast(plan);
      DestsSnoc(front, last);
      LastDestIsNew(plan);
      hide DistinctDests;
      forall item | item in plan && (item.dest !in files || force) ensures Copied(files, plan, force)[item.dest] == item.src {
        if item != last { assert item in front && item.dest in Dests(front); }
      }
    }
  }

  /** What is reported: an item is copied unless its file was there before and is not forced, and skipped otherwise. */
  lemma {:induction false} ReportedIff(files: Files, plan: seq<CopyItem>, force: bool, dryRun: bool, item: CopyItem)
    requires DistinctDests(plan)
    ensures item in CopiedItems(files, plan, force) <==> item in plan && (item.dest !in files || force)
    ensures item in SkippedItems(files, plan, force, dryRun) <==> item in plan && item.dest in files && !force
  {
    if plan != [] {
      var front, last := plan[..|plan| - 1], plan[|plan| - 1];
      ReportedIff(files, front, force, dryRun, item);
      SplitLast(plan);
      LastDestIsNew(plan);
      CopiedAt(files, front, force);
      hide DistinctDests;
      assert last.dest in Copied(files, front, force) <==> last.dest in files;
    }
  }

  lemma LastDestIsNew(plan: seq<CopyItem>)
    requires plan != [] && DistinctDests(plan)
    ensures plan[|plan| - 1].dest !in Dests(plan[..|plan| - 1])
  {
    forall item | item in plan[..|plan| - 1] ensures item.dest != plan[|plan| - 1].dest {
      var i :| 0 <= i < |plan| - 1 && plan[i] == item;
    }
  }

  ghost predicate Records(env: Env, entries: seq<Entry>, deployed: Files, dests: set<Path>) {
    && (forall i, j :: 0 <= i < j < |entries| ==> entries[i].path != entries[j].path)
    && (forall e :: e in entries ==> e.path in dests && e.path in deployed && e.sha == env.sha(deployed[e.path]))
    && (forall p :: p in dests ==> exists e :: e in entries && e.path == p)
  }

  lemma {:induction false} ManifestRecords(env: Env, files: Files, plan: seq<CopyItem>)
    requires DistinctDests(plan) && Dests(plan) <= files.Keys
    ensures Records(env, ManifestOf(env, files, plan), files, Dests(plan))
  {
    if plan != [] {
      var front, last := plan[..|plan| - 1], plan[|plan| - 1];
      SplitLast(plan);
      DestsSnoc(front, last);
      ManifestRecords(env, files, front);
      var e := Entry(last.dest, env.sha(files[last.dest]));
      LastDestIsNew(plan);
      RecordsOneMore(env, ManifestOf(env, files, front), files, Dests(front), e);
    }
  }

  lemma RecordsOneMore(env: Env, entries: seq<Entry>, files: Files, dests: set<Path>, e: Entry)
    requires Records(env, entries, files, dests)
    requires e.path !in dests && e.path in files && e.sha == env.sha(files[e.path])
    ensures Records(env, entries + [e], files, dests + {e.path})
  {
    var more := entries + [e];
    forall i, j | 0 <= i < j < |more| ensures more[i].path != more[j].path {
      assert more[i] in entries;
      if j < |entries| { assert more[j] == entries[j]; }
    }
    forall p | p in dests + {e.path} ensures exists x :: x in more && x.path == p {
      if p == e.path {
        assert e in more;
      } else {
        var x :| x in entries && x.path == p;
        assert x in more;
      }
    }
  }

  // ---- what an uninstall removes ----------------------------------------

  predicate Goes(env: Env, files: Files, e: Entry) {
    env.inside(e.path) && Unchanged(env, files, e) && e.path !in env.locked
  }

  /** The recorded paths an uninstall takes away. */
  ghost function Removable(env: Env, files: Files, entries: seq<Entry>): set<Path> {
    set e | e in entries && Goes(env, files, e) :: e.path
  }

  lemma RemovableSnoc(env: Env, files: Files, entries: seq<Entry>, e: Entry)
    ensures Removable(env, files, entries + [e]) ==
            Removable(env, files, entries) + if Goes(env, files, e) then {e.path} else {}
  {
    hide Unchanged;
    var more := entries + [e];
    forall p | p in Removable(env, files, entries) ensures p in Removable(env, files, more) {
      var x :| x in entries && Goes(env, files, x) && x.path == p;
      assert x in more;
    }
    assert e in more;
  }

  lemma {:induction false} UndoneIsRemovable(env: Env, files: Files, entries: seq<Entry>)
    requires forall i, j :: 0 <= i < j < |entries| ==> entries[i].path != entries[j].path
    ensures Undone(env, files, entries, false) == files - Removable(env, files, entries)
  {
    if entries != [] {
      var front, e := entries[..|entries| - 1], entries[|entries| - 1];
      UndoneIsRemovable(env, files, front);
      SplitLast(entries);
      RemovableSnoc(env, files, front, e);
      LastIsNew(env, files, entries);
      GoesUnlessGone(env, files, Removable(env, files, front), e);
      hide Removable, Goes, FateOf;
    } else {
      assert Removable(env, files, entries) == {};
    }
  }

  lemma LastIsNew(env: Env, files: Files, entries: seq<Entry>)
    requires entries != [] && forall i, j :: 0 <= i < j < |entries| ==> entries[i].path != entries[j].path
    ensures entries[|entries| - 1].path !in Removable(env, files, entries[..|entries| - 1])
  {
    forall x | x in entries[..|entries| - 1] ensures x.path != entries[|entries| - 1].path {
      var i :| 0 <= i < |entries| - 1 && entries[i] == x;
    }
  }

  lemma GoesUnlessGone(env: Env, files: Files, gone: set<Path>, e: Entry)
    requires e.path !in gone
    ensures FateOf(env, files - gone, e, false).Removed? <==> Goes(env, files, e)
  {
  }

  /** A recorded file goes when it lies inside, is as deployed, and can be deleted; gone files are missing; the rest stays. */
  lemma FateMeans(env: Env, files: Files, e: Entry, dryRun: bool)
    ensures var fate := FateOf(env, files, e, dryRun);
            && (fate == Removed <==> env.inside(e.path) && e.path in files && env.sha(files[e.path]) == e.sha
                                     && (dryRun || e.path !in env.locked))
            && (fate == Missing <==> env.inside(e.path) && e.path !in files)
  {
  }

  ghost predicate Distinct(entries: seq<Entry>) {
    forall i, j :: 0 <= i < j < |entries| ==> entries[i].path != entries[j].path
  }

  /** Undoing leaves every path alone that is not recorded. */
  lemma {:induction false} UndoneElsewhere(env: Env, files: Files, entries: seq<Entry>, dryRun: bool, p: Path)
    requires forall e :: e in entries ==> e.path != p
    ensures var after := Undone(env, files, entries, dryRun);
            (p in after <==> p in files) && (p in files ==> after[p] == files[p])
  {
    if entries != [] {
      SplitLast(entries);
      assert entries[|entries| - 1] in entries;
      UndoneElsewhere(env, files, entries[..|entries| - 1], dryRun, p);
    }
  }

  /** What became of the last entry: as its file stood before anything was undone. */
  lemma LastFate(env: Env, files: Files, entries: seq<Entry>, dryRun: bool)
    requires entries != [] && Distinct(entries)
    ensures var front, e := entries[..|entries| - 1], entries[|entries| - 1];
            && (forall x :: x in front ==> x.path != e.path)
            && FateOf(env, Undone(env, files, front, dryRun), e, dryRun) == FateOf(env, files, e, dryRun)
  {
    var front, e := entries[..|entries| - 1], entries[|entries| - 1];
    forall x | x in front ensures x.path != e.path {
      var i :| 0 <= i < |entries| - 1 && entries[i] == x;
    }
    UndoneElsewhere(env, files, front, dryRun, e.path);
  }

  /** A path is listed under a fate exactly when its file, as it stood before, deserves it. */
  lemma {:induction false} ListedIff(env: Env, files: Files, entries: seq<Entry>, dryRun: bool, fate: Fate, p: Path)
    requires Distinct(entries)
    ensures p in WithFate(env, files, entries, dryRun, fate) <==>
            exists e :: e in entries && e.path == p && FateOf(env, files, e, dryRun) == fate
  {
    if entries != [] {
      var front, e := entries[..|entries| - 1], entries[|entries| - 1];
      ListedIff(env, files, front, dryRun, fate, p);
      LastFate(env, files, entries, dryRun);
      SplitLast(entries);
      hide FateOf;
      assert e in entries && forall x :: x in entries <==> x in front || x == e;
    }
  }

  /** Every recorded path is listed once, under the fate its file deserved before the uninstall began. */
  lemma {:induction false} FatesPartition(env: Env, files: Files, entries: seq<Entry>, dryRun: bool)
    ensures |WithFate(env, files, entries, dryRun, Removed)| + |WithFate(env, files, entries, dryRun, KeptModified)|
            + |WithFate(env, files, entries, dryRun, Missing)| == |entries|
    ensures Distinct(entries) ==>
              forall fate, p :: p in WithFate(env, files, entries, dryRun, fate) <==>
                                exists e :: e in entries && e.path == p && FateOf(env, files, e, dryRun) == fate
  {
    if entries != [] {
      FatesPartition(env, files, entries[..|entries| - 1], dryRun);
    }
    if Distinct(entries) {
      forall fate, p
        ensures p in WithFate(env, files, entries, dryRun, fate) <==>
                exists e :: e in entries && e.path == p && FateOf(env, files, e, dryRun) == fate
      {
        ListedIff(env, files, entries, dryRun, fate, p);
      }
    }
  }

  ghost predicate DeploysInside(env: Env, items: seq<CopyItem>) {
    forall p :: p in Dests(items) ==> env.inside(p)
  }

  /**
   Deploy, let the user edit any files, uninstall: what goes is exactly the planned files
   that are still as deployed and can be deleted, and every other file stays as the user has it.
   */
  lemma UndoRemovesWhatIsAsDeployed(env: Env, files: Files, items: seq<CopyItem>, force: bool, edited: Files)
    requires Injective(env) && DeploysInside(env, items)
    ensures var deployed := Copied(files, Deduped(items), force);
            var entries := ManifestOf(env, deployed, Deduped(items));
            && Dests(items) <= deployed.Keys
            && Undone(env, edited, entries, false) ==
               edited - (set p | p in Dests(items) && p in edited && edited[p] == deployed[p] && p !in env.locked)
  {
    var plan := Deduped(items);
    var deployed := Copied(files, plan, force);
    var entries := ManifestOf(env, deployed, plan);
    DedupeKeepsFirst(items);
    CopiedAt(files, plan, force);
    ManifestRecords(env, deployed, plan);
    UndoneIsRemovable(env, edited, entries);
    RemovableIsAsDeployed(env, edited, entries, deployed, Dests(items));
  }

  lemma RemovableIsAsDeployed(env: Env, edited: Files, entries: seq<Entry>, deployed: Files, dests: set<Path>)
    requires Injective(env) && Records(env, entries, deployed, dests) && dests <= deployed.Keys
    requires forall p :: p in dests ==> env.inside(p)
    ensures Removable(env, edited, entries) ==
            set p | p in dests && p in edited && edited[p] == deployed[p] && p !in env.locked
  {
    forall p | p in dests && p in edited && edited[p] == deployed[p] && p !in env.locked
      ensures p in Removable(env, edited, entries)
    {
      var e :| e in entries && e.path == p;
      assert Goes(env, edited, e);
    }
    forall p | p in Removable(env, edited, entries)
      ensures p in dests && p in edited && edited[p] == deployed[p] && p !in env.locked
    {
      var e :| e in entries && env.inside(e.path) && Unchanged(env, edited, e) && e.path !in env.locked && e.path == p;
      assert env.sha(edited[p]) == env.sha(deployed[p]);
    }
  }

  lemma {:induction false} NothingDrifted(env: Env, files: Files, entries: seq<Entry>)
    ensures Drifted(env, files, entries) == [] <==>
            forall e :: e in entries ==> env.inside(e.path) && Unchanged(env, files, e)
  {
    if entries != [] {
      NothingDrifted(env, files, entries[..|entries| - 1]);
      SplitLast(entries);
      assert entries[|entries| - 1] in entries;
    }
  }

  lemma {:induction false} DryRunKeepsFiles(env: Env, files: Files, entries: seq<Entry>)
    ensures Undone(env, files, entries, true) == files
    ensures |WithFate(env, files, entries, true, Removed)| <= |entries|
  {
    if entries != [] { DryRunKeepsFiles(env, files, entries[..|entries| - 1]); }
  }

  /** The drift check passes exactly when a dry-run uninstall would remove every recorded file. */
  lemma {:induction false} OkIffAllWouldGo(env: Env, files: Files, entries: seq<Entry>)
    ensures Drifted(env, files, entries) == [] <==> |WithFate(env, files, entries, true, Removed)| == |entries|
  {
    if entries != [] {
      OkIffAllWouldGo(env, files, entries[..|entries| - 1]);
      DryRunKeepsFiles(env, files, entries[..|entries| - 1]);
    }
  }

  /** Right after a deployment nothing has drifted, whatever was there before. */
  lemma DeployedIsOk(env: Env, files: Files, items: seq<CopyItem>, force: bool)
    requires DeploysInside(env, items)
    ensures var deployed := Copied(files, Deduped(items), force);
            Drifted(env, deployed, ManifestOf(env, deployed, Deduped(items))) == []
  {
    var plan := Deduped(items);
    var deployed := Copied(files, plan, force);
    DedupeKeepsFirst(items);
    CopiedAt(files, plan, force);
    ManifestRecords(env, deployed, plan);
    NothingDrifted(env, deployed, ManifestOf(env, deployed, plan));
  }

  /**
   Deploy then undo gives the files back exactly when no planned destination existed: a
   file that was there is recorded as deployed and removed, copied over or not.
   */
  lemma RoundTripIff(env: Env, files: Files, items: seq<CopyItem>, force: bool)
    requires Injective(env) && DeploysInside(env, items) && env.locked == {}
    ensures var deployed := Copied(files, Deduped(items), force);
            var undone := Undone(env, deployed, ManifestOf(env, deployed, Deduped(items)), false);
            && undone == files - Dests(items)
            && (undone == files <==> Dests(items) !! files.Keys)
  {
    hide Deduped, Copied, ManifestOf, Undone, DistinctDests, FirstFor, Injective;
    var plan := Deduped(items);
    var deployed := Copied(files, plan, force);
    DedupeKeepsFirst(items);
    CopiedAt(files, plan, force);
    UndoRemovesWhatIsAsDeployed(env, files, items, force, deployed);
    assert (set p | p in Dests(items) && p in deployed && deployed[p] == deployed[p] && p !in env.locked) == Dests(items);
    assert deployed - Dests(items) == files - Dests(items);
    assert (files - Dests(items)).Keys == files.Keys - Dests(items);
    if Dests(items) !! files.Keys { assert files - Dests(items) == files; }
  }

  /** Deploying again without force changes no file and records the same manifest. */
  lemma RedeployChangesNothing(env: Env, files: Files, items: seq<CopyItem>)
    ensures var once := Copied(files, Deduped(items), false);
            && Copied(once, Deduped(items), false) == once
            && CopiedItems(once, Deduped(items), false) == []
  {
    var plan := Deduped(items);
    DedupeKeepsFirst(items);
    CopiedAt(files, plan, false);
    SkipAll(Copied(files, plan, false), plan);
  }

  lemma {:induction false} SkipAll(files: Files, plan: seq<CopyItem>)
    requires Dests(plan) <= files.Keys
    ensures Copied(files, plan, false) == files && CopiedItems(files, plan, false) == []
  {
    if plan != [] {
      SplitLast(plan);
      DestsSnoc(plan[..|plan| - 1], plan[|plan| - 1]);
      SkipAll(files, plan[..|plan| - 1]);
    }
  }
}
