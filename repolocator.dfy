/**
 * FindRepoDir of internal/utils/filesystem.go: from the working directory,
 * walk up until the directory whose third ancestor is the replicator root,
 * i.e. `root/host/owner/repo`.
 *
 * `Located` is the specification: one step on the working directory exactly
 * as given, then the walk over its cleaned ancestors (`WalkUp`).  The method
 * is the loop of the source, proved to compute `Located`; the lemmas say what
 * `Located` means for directories laid out as `root/host/owner/repo/...`.
 */
module RepoLocator {
  import opened GoFilePath
  import opened Errors

  /** The directory FindRepoDir compares with the root: filepath.Dir three times. */
  function ThirdAncestor(dir: string): string {
    DirStr(DirStr(DirStr(dir)))
  }

  /** The walk from a clean directory `d`: the match test first, then the stop test, then the parent. */
  function WalkUp(d: Path, root: string): (r: Result<string>)
    requires IsClean(d)
    decreases |d.comps|
  {
    if Render(Dir(Dir(Dir(d)))) == root then Ok(Render(d))
    else if Render(d) == root || d.comps == [] then Err(RepoDirNotFound)
    else WalkUp(Dir(d), root)
  }

  /** What FindRepoDir returns for working directory `cwd` and root `root`. */
  function Located(cwd: string, root: string): Result<string> {
    if ThirdAncestor(cwd) == root then Ok(cwd)
    else if cwd == root || cwd == "/" || cwd == "." then Err(RepoDirNotFound)
    else WalkUp(DirPath(cwd), root)
  }

  /** Of clean paths, exactly the two empty ones render as "/" and ".". */
  lemma RenderEmpty(d: Path)
    requires IsClean(d)
    ensures Render(d) == "/" || Render(d) == "." <==> d.comps == []
  {
    if d.comps != [] {
      RenderInjective(d, Path(true, []));
      RenderInjective(d, Path(false, []));
    }
  }

  /** The string walk and the path walk see the same third ancestor. */
  lemma ThirdOnRendered(d: Path)
    requires IsClean(d)
    ensures ThirdAncestor(Render(d)) == Render(Dir(Dir(Dir(d))))
  {
    DirOnRendered(d);
    DirOnRendered(Dir(d));
    DirOnRendered(Dir(Dir(d)));
  }

  /** FindRepoDir */
  method FindRepoDir(cwd: string, root: string) returns (r: Result<string>)
    ensures r == Located(cwd, root)
    ensures r.Ok? ==> ThirdAncestor(r.value) == root
    ensures r.Err? ==> r.error == RepoDirNotFound
  {
    var dir := cwd;
    ghost var first := true;
    ghost var d := DirPath(cwd);
    while true
      invariant first ==> dir == cwd
      invariant !first ==> IsClean(d) && dir == Render(d) && Located(cwd, root) == WalkUp(d, root)
      decreases first, |d.comps|
    {
      if !first {
        ThirdOnRendered(d);
        RenderEmpty(d);
        DirOnRendered(d);
      }
      var parent := DirStr(dir);
      var grandparent := DirStr(parent);
      var greatgrandparent := DirStr(grandparent);
      if greatgrandparent == root {
        return Ok(dir);
      }
      if dir == root || dir == "/" || dir == "." {
        return Err(RepoDirNotFound);
      }
      if first {
        d := DirPath(dir);
      } else {
        d := Dir(d);
      }
      dir := parent;
      first := false;
    }
  }

  /** On a clean working directory the first step is already part of the walk. */
  lemma LocatedClean(d: Path, root: string)
    requires IsClean(d)
    ensures Located(Render(d), root) == WalkUp(d, root)
  {
    ThirdOnRendered(d);
    RenderEmpty(d);
    DirOnRendered(d);
  }

  /** A found directory is a clean path: the working directory or one of its ancestors. */
  lemma {:induction false} WalkUpAncestor(d: Path, root: string)
    requires IsClean(d)
    ensures var r := WalkUp(d, root);
            r.Ok? ==> IsAncestorOrSelf(Clean(r.value), d) && Render(Clean(r.value)) == r.value
    decreases |d.comps|
  {
    if Render(Dir(Dir(Dir(d)))) == root {
      CleanRender(d);
    } else if Render(d) != root && d.comps != [] {
      WalkUpAncestor(Dir(d), root);
      var r := WalkUp(Dir(d), root);
      if r.Ok? {
        var a := Clean(r.value);
        assert d.comps[..|a.comps|] == Dir(d).comps[..|a.comps|];
      }
    }
  }

  /** FindRepoDir returns `cwd` itself or an ancestor of (the cleaned) `cwd`. */
  lemma LocatedAncestor(cwd: string, root: string)
    ensures var r := Located(cwd, root);
            r.Ok? ==> r.value == cwd || IsAncestorOrSelf(Clean(r.value), DirPath(cwd))
  {
    WalkUpAncestor(DirPath(cwd), root);
  }

  /** Filepath.Dir three times drops the last three components (or all of them). */
  lemma Dir3(p: Path)
    ensures Dir(Dir(Dir(p))) == Path(p.absolute, p.comps[..if |p.comps| >= 3 then |p.comps| - 3 else 0])
  {
  }

  /** From anywhere inside `root/h/o/r` the walk stops at `root/h/o/r`. */
  lemma {:induction false} WalkUpToRepo(top: Path, repo: seq<string>, tail: seq<string>)
    requires IsClean(top)
    requires |repo| == 3 && forall i :: 0 <= i < 3 ==> IsName(repo[i])
    requires forall i :: 0 <= i < |tail| ==> IsName(tail[i])
    ensures IsClean(Path(top.absolute, top.comps + repo + tail))
    ensures WalkUp(Path(top.absolute, top.comps + repo + tail), Render(top))
            == Ok(Render(Path(top.absolute, top.comps + repo)))
    decreases |tail|
  {
    var d := Path(top.absolute, top.comps + repo + tail);
    Dir3(d);
    if tail == [] {
      assert d.comps == top.comps + repo;
      assert Dir(Dir(Dir(d))).comps == top.comps;
    } else {
      var t := Dir(Dir(Dir(d)));
      RenderInjective(t, top);
      RenderInjective(d, top);
      var shorter := tail[..|tail| - 1];
      assert Dir(d).comps == top.comps + repo + shorter;
      WalkUpToRepo(top, repo, shorter);
    }
  }

  /**
   * FindRepoDir from the repo directory, its `base`, any directory inside
   * `base`, or a branch directory returns the repo directory.
   */
  lemma LocateFromInside(top: Path, repo: seq<string>, tail: seq<string>)
    requires IsClean(top)
    requires |repo| == 3 && forall i :: 0 <= i < 3 ==> IsName(repo[i])
    requires forall i :: 0 <= i < |tail| ==> IsName(tail[i])
    ensures Located(Render(Path(top.absolute, top.comps + repo + tail)), Render(top))
            == Ok(Render(Path(top.absolute, top.comps + repo)))
  {
    WalkUpToRepo(top, repo, tail);
    LocatedClean(Path(top.absolute, top.comps + repo + tail), Render(top));
  }

  /** From the root, a host directory or an owner directory the walk reaches the root and fails. */
  lemma {:induction false} WalkUpAboveRepo(top: Path, names: seq<string>)
    requires IsClean(top) && top.comps != []
    requires |names| <= 2 && forall i :: 0 <= i < |names| ==> IsName(names[i])
    ensures IsClean(Path(top.absolute, top.comps + names))
    ensures WalkUp(Path(top.absolute, top.comps + names), Render(top)) == Err(RepoDirNotFound)
    decreases |names|
  {
    var d := Path(top.absolute, top.comps + names);
    Dir3(d);
    var t := Dir(Dir(Dir(d)));
    RenderInjective(t, top);
    if names == [] {
      assert d == top;
    } else {
      RenderInjective(d, top);
      var shorter := names[..|names| - 1];
      assert Dir(d).comps == top.comps + shorter;
      WalkUpAboveRepo(top, shorter);
    }
  }

  /** FindRepoDir at the root, a host directory or an owner directory is an error. */
  lemma LocateAboveRepo(top: Path, names: seq<string>)
    requires IsClean(top) && top.comps != []
    requires |names| <= 2 && forall i :: 0 <= i < |names| ==> IsName(names[i])
    ensures Located(Render(Path(top.absolute, top.comps + names)), Render(top)) == Err(RepoDirNotFound)
  {
    WalkUpAboveRepo(top, names);
    LocatedClean(Path(top.absolute, top.comps + names), Render(top));
  }

  /** FindRepoDir at "/" is an error for any root with a component. */
  lemma LocateAtSlash(top: Path)
    requires IsClean(top) && top.comps != []
    ensures Located("/", Render(top)) == Err(RepoDirNotFound)
  {
    var slash := Path(true, []);
    assert Render(slash) == "/";
    ThirdOnRendered(slash);
    RenderInjective(slash, top);
  }

  /** The match test runs before the stop test: with "/" as root, "/" itself is returned. */
  lemma LocateSlashInSlash()
    ensures Located("/", "/") == Ok("/")
  {
    var slash := Path(true, []);
    assert Render(slash) == "/";
    ThirdOnRendered(slash);
  }
}
