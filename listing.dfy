/**
 * List (internal/handlers/list.go) and ListBranchDirs
 * (internal/handlers/branch.go): the two read-only commands.
 *
 * filepath.Walk is not part of this model: what it delivers is an input, the
 * sequence of callbacks it would make over the tree in its own (lexical,
 * pre-order) visit order.  The one piece of Walk's behaviour List relies on,
 * that a directory whose callback returns SkipDir is not descended into, is
 * part of the model: the state keeps the last skipped directory and every
 * later visit below it is dropped.  os.ReadDir's result is likewise an input.
 */
module Listing {
  import opened GoStrings
  import opened GoFilePath
  import opened Errors
  import opened GitUrl
  import opened RepoLocator
  import opened Handlers

  datatype Option<T> = None | Some(value: T)

  /** One repository List reports. */
  datatype RepoInfo = RepoInfo(host: string, owner: string, repo: string, path: string)

  /**
   * One callback of filepath.Walk, for the path reached from baseDir through
   * the names `rel`: either the entry with what Lstat said about it (and what
   * os.Stat says about its `.git`), or the error Walk passes in.
   */
  datatype Visit =
    | Entry(rel: seq<string>, isDir: bool, gitDirIsDir: bool)
    | Failure(rel: seq<string>, message: string)

  /** Every name Walk reports is a plain directory entry name. */
  predicate WellNamed(visits: seq<Visit>) {
    forall i, j :: 0 <= i < |visits| && 0 <= j < |visits[i].rel| ==> IsName(visits[i].rel[j])
  }

  /** filepath.Rel(baseDir, path) for the path reached through `rel`. */
  function RelText(rel: seq<string>): string {
    if rel == [] then "." else JoinWith(rel, '/')
  }

  /** The path Walk passes to the callback. */
  function VisitPath(baseDir: string, rel: seq<string>): string {
    if rel == [] then baseDir else Join([baseDir] + rel)
  }

  /** `rel` lies strictly below `dir`. */
  predicate Under(rel: seq<string>, dir: seq<string>) {
    |rel| > |dir| && rel[..|dir|] == dir
  }

  /** What the callback tells Walk: go on, skip this directory (having found 0 or 1 repo), or stop. */
  datatype Verdict = Continue | SkipDir(found: seq<RepoInfo>) | Stop(error: Error)

  /** The callback List hands to filepath.Walk. */
  function Callback(baseDir: string, v: Visit): Verdict {
    match v
    case Failure(_, message) => Stop(External(message))
    case Entry(rel, isDir, gitDirIsDir) =>
      if !isDir then Continue
      else
        var relText := RelText(rel);
        if relText == "." || relText == "" then Continue
        else
          var parts := Split(relText, '/');
          if |parts| == 4 && parts[3] == "base" then
            SkipDir(if gitDirIsDir then [RepoInfo(parts[0], parts[1], parts[2], VisitPath(baseDir, rel))] else [])
          else Continue
  }

  /** The repositories found so far and the directory last skipped. */
  datatype WalkState = WalkState(found: seq<RepoInfo>, skipped: Option<seq<string>>)

  /** One visit: dropped when below the skipped directory, otherwise the callback decides. */
  function WalkStep(baseDir: string, st: WalkState, v: Visit): Result<WalkState> {
    if st.skipped.Some? && Under(v.rel, st.skipped.value) then Ok(st)
    else
      match Callback(baseDir, v)
      case Continue => Ok(st)
      case SkipDir(found) => Ok(WalkState(st.found + found, Some(v.rel)))
      case Stop(e) => Err(e)
  }

  /** The walk over `visits`; the first error ends it. */
  function Walked(baseDir: string, visits: seq<Visit>): Result<WalkState>
    decreases |visits|
  {
    if visits == [] then Ok(WalkState([], None))
    else
      match Walked(baseDir, visits[..|visits| - 1])
      case Err(e) => Err(e)
      case Ok(st) => WalkStep(baseDir, st, visits[|visits| - 1])
  }

  /** What List returns. */
  function Listed(baseDir: string, visits: seq<Visit>): Result<seq<RepoInfo>> {
    match Walked(baseDir, visits)
    case Err(e) => Err(Wrapped("failed to list repositories", e))
    case Ok(st) => Ok(st.found)
  }

  /** List */
  method List(baseDir: string, visits: seq<Visit>) returns (r: Result<seq<RepoInfo>>)
    ensures r == Listed(baseDir, visits)
  {
    var repos: seq<RepoInfo> := [];
    var skipped: Option<seq<string>> := None;
    var i := 0;
    while i < |visits|
      invariant 0 <= i <= |visits|
      invariant Walked(baseDir, visits[..i]) == Ok(WalkState(repos, skipped))
    {
      var v := visits[i];
      assert visits[..i + 1][..i] == visits[..i];
      i := i + 1;
      assert Walked(baseDir, visits[..i]) == WalkStep(baseDir, WalkState(repos, skipped), v);
      if skipped.Some? && Under(v.rel, skipped.value) {
        continue;
      }
      if v.Failure? {
        WalkedErrSticks(baseDir, visits[..i], visits[i..]);
        assert visits[..i] + visits[i..] == visits;
        return Err(Wrapped("failed to list repositories", External(v.message)));
      }
      if !v.isDir {
        assert Callback(baseDir, v) == Continue;
        continue;
      }
      var rel := RelText(v.rel);
      if rel == "." || rel == "" {
        assert Callback(baseDir, v) == Continue;
        continue;
      }
      var walkParts := Split(rel, '/');
      if |walkParts| == 4 && walkParts[3] == "base" {
        var info := RepoInfo(walkParts[0], walkParts[1], walkParts[2], VisitPath(baseDir, v.rel));
        var found := if v.gitDirIsDir then [info] else [];
        assert Callback(baseDir, v) == SkipDir(found);
        assert Walked(baseDir, visits[..i]) == Ok(WalkState(repos + found, Some(v.rel)));
        assert repos + [] == repos;
        if v.gitDirIsDir {
          repos := repos + [info];
        }
        skipped := Some(v.rel);
      } else {
        assert Callback(baseDir, v) == Continue;
      }
    }
    assert visits[..i] == visits;
    return Ok(repos);
  }

  // ------------------------------------------------------------ walk lemmas

  /** Once the walk has failed, later visits change nothing. */
  lemma {:induction false} WalkedErrSticks(baseDir: string, a: seq<Visit>, b: seq<Visit>)
    requires Walked(baseDir, a).Err?
    ensures Walked(baseDir, a + b) == Walked(baseDir, a)
    decreases |b|
  {
    if b == [] {
      assert a + b == a;
    } else {
      var b' := b[..|b| - 1];
      WalkedErrSticks(baseDir, a, b');
      assert (a + b)[..|a + b| - 1] == a + b';
    }
  }

  /** The walk after `a` depends on `a` only through the state it leaves. */
  lemma {:induction false} WalkedSameState(baseDir: string, a: seq<Visit>, a2: seq<Visit>, b: seq<Visit>)
    requires Walked(baseDir, a) == Walked(baseDir, a2)
    ensures Walked(baseDir, a + b) == Walked(baseDir, a2 + b)
    decreases |b|
  {
    if b == [] {
      assert a + b == a && a2 + b == a2;
    } else {
      var b' := b[..|b| - 1];
      WalkedSameState(baseDir, a, a2, b');
      assert (a + b)[..|a + b| - 1] == a + b';
      assert (a2 + b)[..|a2 + b| - 1] == a2 + b';
    }
  }

  /** Visits below the skipped directory leave the state as it is. */
  lemma {:induction false} WalkedBelowSkipped(baseDir: string, a: seq<Visit>, dir: seq<string>, b: seq<Visit>)
    requires Walked(baseDir, a).Ok? && Walked(baseDir, a).value.skipped == Some(dir)
    requires forall i :: 0 <= i < |b| ==> Under(b[i].rel, dir)
    ensures Walked(baseDir, a + b) == Walked(baseDir, a)
    decreases |b|
  {
    if b == [] {
      assert a + b == a;
    } else {
      var b' := b[..|b| - 1];
      WalkedBelowSkipped(baseDir, a, dir, b');
      assert (a + b)[..|a + b| - 1] == a + b';
    }
  }

  /** Everything below a 4-level `base` directory is invisible to List (SkipDir). */
  lemma NeverBelowBase(baseDir: string, a: seq<Visit>, v: Visit, b: seq<Visit>, c: seq<Visit>)
    requires Callback(baseDir, v).SkipDir?
    requires forall i :: 0 <= i < |b| ==> Under(b[i].rel, v.rel)
    ensures Listed(baseDir, a + [v] + b + c) == Listed(baseDir, a + [v] + c)
  {
    var av := a + [v];
    assert av[..|av| - 1] == a;
    if Walked(baseDir, av).Err? {
      WalkedErrSticks(baseDir, av, b);
    } else {
      var st := Walked(baseDir, a).value;
      if st.skipped.Some? && Under(v.rel, st.skipped.value) {
        var dir := st.skipped.value;
        forall i | 0 <= i < |b|
          ensures Under(b[i].rel, dir)
        {
          assert b[i].rel[..|v.rel|][..|dir|] == b[i].rel[..|dir|];
        }
        WalkedBelowSkipped(baseDir, av, dir, b);
      } else {
        WalkedBelowSkipped(baseDir, av, v.rel, b);
      }
    }
    WalkedSameState(baseDir, av + b, av, c);
  }

  /** The results only grow, in visit order: a prefix of the walk reports a prefix of the results. */
  lemma {:induction false} FoundGrows(baseDir: string, a: seq<Visit>, b: seq<Visit>)
    requires Walked(baseDir, a + b).Ok?
    ensures Walked(baseDir, a).Ok?
    ensures Walked(baseDir, a).value.found <= Walked(baseDir, a + b).value.found
    decreases |b|
  {
    if b == [] {
      assert a + b == a;
    } else {
      var b' := b[..|b| - 1];
      assert (a + b)[..|a + b| - 1] == a + b';
      FoundGrows(baseDir, a, b');
    }
  }

  /** A visit List reports: a 4-level `base` directory holding a `.git` directory. */
  predicate Reports(baseDir: string, v: Visit, info: RepoInfo) {
    && v.Entry? && v.isDir && v.gitDirIsDir
    && var parts := Split(RelText(v.rel), '/');
    && |parts| == 4 && parts[3] == "base"
    && info == RepoInfo(parts[0], parts[1], parts[2], VisitPath(baseDir, v.rel))
  }

  /** Every reported repository comes from such a visit. */
  lemma {:induction false} FoundFromCandidates(baseDir: string, visits: seq<Visit>)
    requires Walked(baseDir, visits).Ok?
    ensures var found := Walked(baseDir, visits).value.found;
            forall k :: 0 <= k < |found| ==> exists i :: 0 <= i < |visits| && Reports(baseDir, visits[i], found[k])
    decreases |visits|
  {
    if visits != [] {
      var prefix := visits[..|visits| - 1];
      FoundFromCandidates(baseDir, prefix);
      var before := Walked(baseDir, prefix).value.found;
      var found := Walked(baseDir, visits).value.found;
      forall k | 0 <= k < |found|
        ensures exists i :: 0 <= i < |visits| && Reports(baseDir, visits[i], found[k])
      {
        if k < |before| {
          var i :| 0 <= i < |prefix| && Reports(baseDir, prefix[i], before[k]);
          assert visits[i] == prefix[i];
        } else {
          assert Reports(baseDir, visits[|visits| - 1], found[k]);
        }
      }
    }
  }

  /** Relative names split back into themselves. */
  lemma RelParts(rel: seq<string>)
    requires rel != [] && forall j :: 0 <= j < |rel| ==> IsName(rel[j])
    ensures Split(RelText(rel), '/') == rel
  {
    SplitJoin(rel, '/');
  }

  /** On a well-named walk only 4-level directories are ever skipped. */
  lemma {:induction false} SkippedDepth(baseDir: string, visits: seq<Visit>)
    requires WellNamed(visits) && Walked(baseDir, visits).Ok?
    ensures var s := Walked(baseDir, visits).value.skipped;
            s.Some? ==> |s.value| == 4 && s.value[3] == "base"
    decreases |visits|
  {
    if visits != [] {
      var prefix := visits[..|visits| - 1];
      SkippedDepth(baseDir, prefix);
      var v := visits[|visits| - 1];
      if v.rel != [] {
        RelParts(v.rel);
      }
    }
  }

  /** The step at a 4-level `base` directory holding a `.git` directory appends its repository. */
  lemma ReportsLast(baseDir: string, prefix: seq<Visit>, v: Visit)
    requires WellNamed(prefix) && Walked(baseDir, prefix).Ok?
    requires v.Entry? && v.isDir && v.gitDirIsDir && forall j :: 0 <= j < |v.rel| ==> IsName(v.rel[j])
    requires |v.rel| == 4 && v.rel[3] == "base"
    ensures Walked(baseDir, prefix + [v]).Ok?
    ensures Walked(baseDir, prefix + [v]).value.found
            == Walked(baseDir, prefix).value.found + [RepoInfo(v.rel[0], v.rel[1], v.rel[2], VisitPath(baseDir, v.rel))]
  {
    assert (prefix + [v])[..|prefix|] == prefix;
    SkippedDepth(baseDir, prefix);
    RelParts(v.rel);
  }

  /**
   * Every 4-level `base` directory holding a `.git` directory is reported,
   * with the host, owner and repo of its path and the path itself.
   */
  lemma ReportsCandidates(baseDir: string, visits: seq<Visit>, i: nat)
    requires WellNamed(visits) && Walked(baseDir, visits).Ok?
    requires i < |visits| && visits[i].Entry? && visits[i].isDir && visits[i].gitDirIsDir
    requires |visits[i].rel| == 4 && visits[i].rel[3] == "base"
    ensures var rel := visits[i].rel;
            RepoInfo(rel[0], rel[1], rel[2], VisitPath(baseDir, rel)) in Walked(baseDir, visits).value.found
  {
    var prefix := visits[..i];
    var a := prefix + [visits[i]];
    assert a == visits[..i + 1];
    assert a + visits[i + 1..] == visits;
    FoundGrows(baseDir, a, visits[i + 1..]);
    assert WellNamed(prefix);
    ReportsLast(baseDir, prefix, visits[i]);
    var rel := visits[i].rel;
    var info := RepoInfo(rel[0], rel[1], rel[2], VisitPath(baseDir, rel));
    var before := Walked(baseDir, prefix).value.found;
    assert (before + [info])[|before|] == info;
  }

  /** A failed walk fails as a whole with the wrapped error of one failed visit. */
  lemma {:induction false} ListFailsWhole(baseDir: string, visits: seq<Visit>)
    ensures Listed(baseDir, visits).Err? ==>
              exists i :: 0 <= i < |visits| && visits[i].Failure?
                && Listed(baseDir, visits).error == Wrapped("failed to list repositories", External(visits[i].message))
    ensures (forall i :: 0 <= i < |visits| ==> visits[i].Entry?) ==> Listed(baseDir, visits).Ok?
    decreases |visits|
  {
    if visits != [] {
      var prefix := visits[..|visits| - 1];
      ListFailsWhole(baseDir, prefix);
      if Walked(baseDir, prefix).Err? {
        var i :| 0 <= i < |prefix| && prefix[i].Failure?
                 && Listed(baseDir, prefix).error == Wrapped("failed to list repositories", External(prefix[i].message));
        assert visits[i] == prefix[i];
      } else {
        assert forall i :: 0 <= i < |prefix| ==> prefix[i] == visits[i];
      }
    }
  }

  /** A failure at most four levels down (the missing baseDir itself, say) always fails List. */
  lemma FailureFails(baseDir: string, visits: seq<Visit>, i: nat)
    requires WellNamed(visits)
    requires i < |visits| && visits[i].Failure? && |visits[i].rel| <= 4
    ensures Listed(baseDir, visits).Err?
  {
    var prefix := visits[..i];
    var a := visits[..i + 1];
    assert a[..|a| - 1] == prefix;
    assert WellNamed(prefix);
    if Walked(baseDir, prefix).Ok? {
      SkippedDepth(baseDir, prefix);
    }
    assert Walked(baseDir, a).Err?;
    WalkedErrSticks(baseDir, a, visits[i + 1..]);
    assert a + visits[i + 1..] == visits;
  }

  /** A tree without 4-level directories (only `host/owner`, say) lists nothing. */
  lemma ShallowTreeListsNothing(baseDir: string, visits: seq<Visit>)
    requires WellNamed(visits)
    requires forall i :: 0 <= i < |visits| ==> visits[i].Entry? && |visits[i].rel| < 4
    ensures Listed(baseDir, visits) == Ok([])
  {
    ListFailsWhole(baseDir, visits);
    FoundFromCandidates(baseDir, visits);
    var found := Walked(baseDir, visits).value.found;
    if found != [] {
      var i :| 0 <= i < |visits| && Reports(baseDir, visits[i], found[0]);
      if visits[i].rel != [] {
        RelParts(visits[i].rel);
      } else {
        SplitNoSep(".", '/');
      }
    }
  }

  /**
   * The path List reports for `host/owner/repo/base` is the directory Get
   * clones into, and FindRepoDir from it finds `root/host/owner/repo`.
   */
  lemma ReportedPathIsGetTarget(top: Path, host: string, owner: string, repo: string)
    requires top.absolute && IsClean(top)
    requires IsName(host) && IsName(owner) && IsName(repo)
    ensures VisitPath(Render(top), [host, owner, repo, "base"]) == TargetDir(Render(top), GitUrlParts(host, owner, repo))
    ensures Located(VisitPath(Render(top), [host, owner, repo, "base"]), Render(top))
            == Ok(Render(Path(true, top.comps + [host, owner, repo])))
  {
    assert [Render(top)] + [host, owner, repo, "base"] == [Render(top), host, owner, repo, "base"];
    TargetLocates(top, host, owner, repo);
  }

  // ---------------------------------------------------------- branch dirs

  /** One entry of os.ReadDir. */
  datatype DirEntry = DirEntry(name: string, isDir: bool)

  /** The names of the directory entries, in the order read. */
  function BranchNames(entries: seq<DirEntry>): seq<string>
    decreases |entries|
  {
    if entries == [] then []
    else
      var last := entries[|entries| - 1];
      BranchNames(entries[..|entries| - 1]) + (if last.isDir then [last.name] else [])
  }

  /** ListBranchDirs, given what os.ReadDir returned for the repo directory. */
  method ListBranchDirs(entries: Result<seq<DirEntry>>) returns (r: Result<seq<string>>)
    ensures entries.Err? ==> r == Err(Wrapped("failed to read repo directory", entries.error))
    ensures entries.Ok? ==> r == Ok(BranchNames(entries.value))
  {
    if entries.Err? {
      return Err(Wrapped("failed to read repo directory", entries.error));
    }
    var es := entries.value;
    var branches: seq<string> := [];
    var i := 0;
    while i < |es|
      invariant 0 <= i <= |es|
      invariant branches == BranchNames(es[..i])
    {
      assert es[..i + 1][..i] == es[..i];
      if es[i].isDir {
        branches := branches + [es[i].name];
      }
      i := i + 1;
    }
    assert es[..i] == es;
    return Ok(branches);
  }

  /** A name is listed exactly when some directory entry has it: files never, `base` always. */
  lemma {:induction false} BranchNamesMembers(entries: seq<DirEntry>, name: string)
    ensures name in BranchNames(entries) <==> exists i :: 0 <= i < |entries| && entries[i].isDir && entries[i].name == name
    decreases |entries|
  {
    if entries != [] {
      var prefix := entries[..|entries| - 1];
      BranchNamesMembers(prefix, name);
      if exists i :: 0 <= i < |prefix| && prefix[i].isDir && prefix[i].name == name {
        var i :| 0 <= i < |prefix| && prefix[i].isDir && prefix[i].name == name;
        assert entries[i] == prefix[i];
      }
      if exists i :: 0 <= i < |entries| && entries[i].isDir && entries[i].name == name {
        var i :| 0 <= i < |entries| && entries[i].isDir && entries[i].name == name;
        if i < |prefix| {
          assert prefix[i] == entries[i];
        }
      }
    }
  }

  /** Listing distributes over the entries read: the output keeps their order. */
  lemma {:induction false} BranchNamesConcat(a: seq<DirEntry>, b: seq<DirEntry>)
    ensures BranchNames(a + b) == BranchNames(a) + BranchNames(b)
    decreases |b|
  {
    if b == [] {
      assert a + b == a;
    } else {
      var b' := b[..|b| - 1];
      assert (a + b)[..|a + b| - 1] == a + b';
      BranchNamesConcat(a, b');
    }
  }

  /** At most one name per entry, and every entry's name when all entries are directories. */
  lemma {:induction false} BranchNamesLength(entries: seq<DirEntry>)
    ensures |BranchNames(entries)| <= |entries|
    ensures (forall i :: 0 <= i < |entries| ==> entries[i].isDir) ==>
              |BranchNames(entries)| == |entries|
              && forall i :: 0 <= i < |entries| ==> BranchNames(entries)[i] == entries[i].name
    decreases |entries|
  {
    if entries != [] {
      BranchNamesLength(entries[..|entries| - 1]);
    }
  }
}
