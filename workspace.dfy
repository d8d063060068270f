/**
 * The two handlers that change the replicator tree: `Switch`
 * (internal/handlers/switch.go) clones a repository into a branch directory
 * beside `base` and checks the branch out there; `Get`
 * (internal/handlers/get.go) clones a URL into `root/host/owner/repo/base`
 * unless that directory already holds it.
 *
 * The filesystem is a `Workspace`: the set of paths that exist and the log of
 * calls the handlers have made on it and on their collaborators.  The
 * collaborators (remote-URL lookup, clone, branch switch, repository open and
 * remote listing) are function values giving each call's outcome.  Each
 * handler is a method proved to have the effect its specification function
 * (`SwitchRun`, `GetRun`) describes; the properties are stated about those.
 */
module Handlers {
  import opened GoStrings
  import opened GoFilePath
  import opened Errors
  import opened GitUrl
  import opened RepoLocator

  /** A call on the filesystem or a collaborator, as the log records it. */
  datatype Call =
    | ResolveRemote(repoDir: string, root: string)  // the GetRemoteURLFunc
    | Stat(path: string)                             // os.Stat
    | Clone(url: string, dir: string)                // the CloneFunc, or git.PlainCloneContext
    | SwitchBranch(dir: string, branch: string)      // the SwitchBranchFunc
    | OpenRepo(dir: string)                          // git.PlainOpen
    | ListRemotes(dir: string)                       // Repository.Remotes

  /** SwitchOptions */
  datatype SwitchOptions = SwitchOptions(repoDir: string, branchName: string, root: string)

  /** The effect of one handler call: its error result, the paths afterwards, the calls it made. */
  datatype Run = Run(outcome: Outcome, paths: set<string>, calls: seq<Call>)

  // ------------------------------------------------------------------ Switch

  /** The directory Switch clones into: the branch name joined onto the repo dir. */
  function BranchDir(opts: SwitchOptions): string {
    Join([opts.repoDir, opts.branchName])
  }

  /**
   * What Switch does: validate the options, resolve the remote, refuse an
   * existing branch directory, clone, switch.  A successful clone creates the
   * branch directory; nothing else changes the set of paths.
   */
  function SwitchRun(opts: SwitchOptions, paths: set<string>,
                     resolve: (string, string) -> Result<string>,
                     clone: (string, string) -> Outcome,
                     switchTo: (string, string) -> Outcome): (run: Run)
    ensures run.outcome.Pass? <==>
              && opts.repoDir != "" && opts.branchName != ""
              && resolve(opts.repoDir, opts.root).Ok?
              && BranchDir(opts) !in paths
              && clone(resolve(opts.repoDir, opts.root).value, BranchDir(opts)).Pass?
              && switchTo(BranchDir(opts), opts.branchName).Pass?
    ensures run.paths == paths || (run.paths == paths + {BranchDir(opts)} && BranchDir(opts) !in paths)
    ensures run.paths != paths ==>
              resolve(opts.repoDir, opts.root).Ok?
              && Clone(resolve(opts.repoDir, opts.root).value, BranchDir(opts)) in run.calls
    ensures |run.calls| <= 4
  {
    var bd := BranchDir(opts);
    if opts.repoDir == "" || opts.branchName == "" then
      Run(Fail(ArgumentsRequired), paths, [])
    else
      var resolved := ResolveRemote(opts.repoDir, opts.root);
      match resolve(opts.repoDir, opts.root)
      case Err(e) => Run(Fail(Wrapped("failed to get remote url", e)), paths, [resolved])
      case Ok(url) =>
        if bd in paths then Run(Fail(BranchDirExists(bd)), paths, [resolved, Stat(bd)])
        else
          match clone(url, bd)
          case Fail(e) =>
            Run(Fail(Wrapped("failed to clone to branch dir", e)), paths, [resolved, Stat(bd), Clone(url, bd)])
          case Pass =>
            var calls := [resolved, Stat(bd), Clone(url, bd), SwitchBranch(bd, opts.branchName)];
            match switchTo(bd, opts.branchName)
            case Fail(e) => Run(Fail(e), paths + {bd}, calls)
            case Pass => Run(Pass, paths + {bd}, calls)
  }

  /** DefaultGetRemoteURL: the lookup the switch command passes is BuildRemoteURLFromRepoDir itself. */
  function DefaultGetRemoteUrl(wd: Path): (lookup: (string, string) -> Result<string>)
    requires wd.absolute && IsClean(wd)
    ensures forall repoDir: string, root: string ::
              lookup(repoDir, root).Ok? ==>
                HasPrefix(lookup(repoDir, root).value, "https://") && HasSuffix(lookup(repoDir, root).value, ".git")
    ensures forall repoDir: string, root: string ::
              lookup(repoDir, root).Err? ==>
                lookup(repoDir, root).error in {NotUnderRoot(repoDir), InvalidRepoDir(repoDir)}
  {
    (repoDir: string, root: string) => BuildRemoteUrlFromRepoDir(repoDir, root, wd)
  }

  /**
   * Switch run with the default lookup in `root/h/o/r` for a new branch
   * clones `https://h/o/r.git` into `root/h/o/r/<branch>`.
   */
  lemma SwitchFromRepoDir(top: Path, host: string, owner: string, repo: string, branch: string, wd: Path,
                          paths: set<string>,
                          clone: (string, string) -> Outcome,
                          switchTo: (string, string) -> Outcome)
    requires top.absolute && IsClean(top)
    requires wd.absolute && IsClean(wd)
    requires IsName(host) && IsName(owner) && IsName(repo) && IsName(branch) && !HasPrefix(host, "..")
    requires Render(Path(true, top.comps + [host, owner, repo, branch])) !in paths
    ensures var opts := SwitchOptions(Render(Path(true, top.comps + [host, owner, repo])), branch, Render(top));
            var run := SwitchRun(opts, paths, DefaultGetRemoteUrl(wd), clone, switchTo);
            Clone(HttpsRemote(host, owner, repo), Render(Path(true, top.comps + [host, owner, repo, branch]))) in run.calls
  {
    var repoPath := Path(true, top.comps + [host, owner, repo]);
    var branchPath := Path(true, top.comps + [host, owner, repo, branch]);
    var opts := SwitchOptions(Render(repoPath), branch, Render(top));
    var resolve := DefaultGetRemoteUrl(wd);
    assert resolve(opts.repoDir, opts.root) == Ok(HttpsRemote(host, owner, repo)) by {
      RepoLayout(top, host, owner, repo, wd);
    }
    assert opts.repoDir != "" && BranchDir(opts) == Render(branchPath) by {
      assert IsClean(repoPath);
      RenderShape(repoPath);
      BranchDirLayout(repoPath, branch, Render(top));
      assert repoPath.comps + [branch] == branchPath.comps;
    }
    SwitchClonesResolved(opts, paths, resolve, clone, switchTo);
  }

  // --------------------------------------------------------------------- Get

  /** The URL Get clones: the input, with `.git` appended unless it already ends in it. */
  function CloneUrl(url: string): (c: string)
    ensures HasSuffix(c, ".git")
    ensures HasSuffix(url, ".git") ==> c == url
    ensures !HasSuffix(url, ".git") ==> c == url + ".git"
  {
    if !HasSuffix(url, ".git") then url + ".git" else url
  }

  /** The directory Get clones into: `baseDir/host/owner/repo/base`. */
  function TargetDir(baseDir: string, u: GitUrlParts): string {
    Join([baseDir, u.host, u.owner, u.repo, "base"])
  }

  /** The file whose presence marks the target as a git repository. */
  function GitIndex(dir: string): string {
    Join([dir, ".git", "index"])
  }

  /** Some URL of some remote is exactly `url`. */
  predicate HasRemoteUrl(remotes: seq<seq<string>>, url: string) {
    exists i, j :: 0 <= i < |remotes| && 0 <= j < |remotes[i]| && remotes[i][j] == url
  }

  /** The search over the remotes and their URLs, stopping at the first match. */
  method FindRemoteUrl(remotes: seq<seq<string>>, url: string) returns (found: bool)
    ensures found <==> HasRemoteUrl(remotes, url)
  {
    var i := 0;
    while i < |remotes|
      invariant 0 <= i <= |remotes|
      invariant forall k, j :: 0 <= k < i && 0 <= j < |remotes[k]| ==> remotes[k][j] != url
    {
      var j := 0;
      while j < |remotes[i]|
        invariant 0 <= j <= |remotes[i]|
        invariant forall m :: 0 <= m < j ==> remotes[i][m] != url
      {
        if remotes[i][j] == url {
          return true;
        }
        j := j + 1;
      }
      i := i + 1;
    }
    return false;
  }

  /**
   * What Get does once the URL has parsed: at the target directory `dir`
   * either clone `cloneUrl`, accept an existing clone of the same remote, or
   * report a mismatching or non-git directory.
   */
  function GetAt(cloneUrl: string, dir: string, paths: set<string>,
                 open: string -> Outcome,
                 remotes: string -> Result<seq<seq<string>>>,
                 clone: (string, string) -> Outcome): (run: Run)
    ensures run.paths == paths || (run.outcome.Pass? && run.paths == paths + {dir} && dir !in paths)
    ensures forall c, d :: Clone(c, d) in run.calls ==> c == cloneUrl && d == dir && dir !in paths
  {
    var index := GitIndex(dir);
    if dir in paths then
      if index in paths then
        match open(dir)
        case Fail(e) =>
          Run(Fail(Wrapped("failed to open existing git repo", e)), paths, [Stat(dir), Stat(index), OpenRepo(dir)])
        case Pass =>
          var calls := [Stat(dir), Stat(index), OpenRepo(dir), ListRemotes(dir)];
          match remotes(dir)
          case Err(e) => Run(Fail(Wrapped("failed to get remotes", e)), paths, calls)
          case Ok(rs) =>
            if HasRemoteUrl(rs, cloneUrl) then Run(Pass, paths, calls)
            else Run(Fail(RemoteMismatch(dir)), paths, calls)
      else Run(Fail(NotAGitRepo(dir)), paths, [Stat(dir), Stat(index)])
    else
      match clone(cloneUrl, dir)
      case Fail(e) => Run(Fail(Wrapped("git clone failed", e)), paths, [Stat(dir), Clone(cloneUrl, dir)])
      case Pass => Run(Pass, paths + {dir}, [Stat(dir), Clone(cloneUrl, dir)])
  }

  /** What Get does: parse the URL, then act at `baseDir/host/owner/repo/base`. */
  function GetRun(url: string, baseDir: string, paths: set<string>,
                  open: string -> Outcome,
                  remotes: string -> Result<seq<seq<string>>>,
                  clone: (string, string) -> Outcome): Run
  {
    match ParseGitUrl(url)
    case Err(e) => Run(Fail(Wrapped("failed to parse git url", e)), paths, [])
    case Ok(u) => GetAt(CloneUrl(url), TargetDir(baseDir, u), paths, open, remotes, clone)
  }

  // ------------------------------------------------------- Switch properties

  /** An empty repo dir or branch name is refused before any call. */
  lemma SwitchNeedsArguments(opts: SwitchOptions, paths: set<string>,
                             resolve: (string, string) -> Result<string>,
                             clone: (string, string) -> Outcome,
                             switchTo: (string, string) -> Outcome)
    requires opts.repoDir == "" || opts.branchName == ""
    ensures SwitchRun(opts, paths, resolve, clone, switchTo) == Run(Fail(ArgumentsRequired), paths, [])
  {
  }

  /** A failed remote lookup is wrapped, and nothing is stat'ed or cloned. */
  lemma SwitchResolveFailure(opts: SwitchOptions, paths: set<string>,
                             resolve: (string, string) -> Result<string>,
                             clone: (string, string) -> Outcome,
                             switchTo: (string, string) -> Outcome)
    requires opts.repoDir != "" && opts.branchName != ""
    requires resolve(opts.repoDir, opts.root).Err?
    ensures SwitchRun(opts, paths, resolve, clone, switchTo)
            == Run(Fail(Wrapped("failed to get remote url", resolve(opts.repoDir, opts.root).error)),
                   paths, [ResolveRemote(opts.repoDir, opts.root)])
  {
  }

  /** An existing branch directory is refused: no clone, and the directory is left as it is. */
  lemma SwitchBranchDirTaken(opts: SwitchOptions, paths: set<string>,
                             resolve: (string, string) -> Result<string>,
                             clone: (string, string) -> Outcome,
                             switchTo: (string, string) -> Outcome)
    requires opts.repoDir != "" && opts.branchName != ""
    requires resolve(opts.repoDir, opts.root).Ok?
    requires BranchDir(opts) in paths
    ensures var run := SwitchRun(opts, paths, resolve, clone, switchTo);
            run.outcome == Fail(BranchDirExists(BranchDir(opts))) && run.paths == paths
            && forall c, d :: Clone(c, d) !in run.calls
  {
  }

  /** A failed clone is wrapped and the branch switch is not attempted. */
  lemma SwitchCloneFailure(opts: SwitchOptions, paths: set<string>,
                           resolve: (string, string) -> Result<string>,
                           clone: (string, string) -> Outcome,
                           switchTo: (string, string) -> Outcome)
    requires opts.repoDir != "" && opts.branchName != ""
    requires resolve(opts.repoDir, opts.root).Ok?
    requires BranchDir(opts) !in paths
    requires clone(resolve(opts.repoDir, opts.root).value, BranchDir(opts)).Fail?
    ensures var run := SwitchRun(opts, paths, resolve, clone, switchTo);
            run.outcome == Fail(Wrapped("failed to clone to branch dir",
                                        clone(resolve(opts.repoDir, opts.root).value, BranchDir(opts)).error))
            && run.paths == paths
            && forall d, b :: SwitchBranch(d, b) !in run.calls
  {
  }

  /** Clone is called with the URL the lookup resolved and the branch directory as target. */
  lemma SwitchClonesResolved(opts: SwitchOptions, paths: set<string>,
                             resolve: (string, string) -> Result<string>,
                             clone: (string, string) -> Outcome,
                             switchTo: (string, string) -> Outcome)
    requires opts.repoDir != "" && opts.branchName != ""
    requires resolve(opts.repoDir, opts.root).Ok?
    requires BranchDir(opts) !in paths
    ensures Clone(resolve(opts.repoDir, opts.root).value, BranchDir(opts))
            in SwitchRun(opts, paths, resolve, clone, switchTo).calls
  {
  }

  /**
   * A failed branch switch is returned as it is, and the fresh clone stays:
   * there is no rollback.
   */
  lemma SwitchCheckoutFailure(opts: SwitchOptions, paths: set<string>,
                              resolve: (string, string) -> Result<string>,
                              clone: (string, string) -> Outcome,
                              switchTo: (string, string) -> Outcome)
    requires opts.repoDir != "" && opts.branchName != ""
    requires resolve(opts.repoDir, opts.root).Ok?
    requires BranchDir(opts) !in paths
    requires clone(resolve(opts.repoDir, opts.root).value, BranchDir(opts)).Pass?
    requires switchTo(BranchDir(opts), opts.branchName).Fail?
    ensures var run := SwitchRun(opts, paths, resolve, clone, switchTo);
            run.outcome == switchTo(BranchDir(opts), opts.branchName)
            && BranchDir(opts) in run.paths
  {
  }

  /**
   * A successful Switch made exactly the three collaborator calls, in the
   * order resolve, clone, switch, with the resolved URL and the branch
   * directory, and created that directory.
   */
  lemma SwitchSuccess(opts: SwitchOptions, paths: set<string>,
                      resolve: (string, string) -> Result<string>,
                      clone: (string, string) -> Outcome,
                      switchTo: (string, string) -> Outcome)
    requires SwitchRun(opts, paths, resolve, clone, switchTo).outcome.Pass?
    ensures var run := SwitchRun(opts, paths, resolve, clone, switchTo);
            var bd := BranchDir(opts);
            resolve(opts.repoDir, opts.root).Ok?
            && run.calls == [ResolveRemote(opts.repoDir, opts.root), Stat(bd),
                             Clone(resolve(opts.repoDir, opts.root).value, bd), SwitchBranch(bd, opts.branchName)]
            && run.paths == paths + {bd} && bd !in paths
  {
  }

  /** The branch directory of a repo directory is the branch name appended to it as a component. */
  lemma BranchDirLayout(repo: Path, branch: string, root: string)
    requires IsClean(repo) && IsName(branch)
    ensures BranchDir(SwitchOptions(Render(repo), branch, root)) == Render(Path(repo.absolute, repo.comps + [branch]))
  {
    JoinNames(repo, [branch]);
    assert [Render(repo), branch] == [Render(repo)] + [branch];
  }

  // ---------------------------------------------------------- Get properties

  /** Appending `.git` once is enough: the clone URL of a clone URL is itself. */
  lemma CloneUrlIdempotent(url: string)
    ensures CloneUrl(CloneUrl(url)) == CloneUrl(url)
  {
  }

  /** The clone URL parses to the same parts as the URL Get was given. */
  lemma CloneUrlParsesAlike(url: string)
    ensures ParseGitUrl(CloneUrl(url)).Ok? <==> ParseGitUrl(url).Ok?
    ensures ParseGitUrl(url).Ok? ==> ParseGitUrl(CloneUrl(url)) == ParseGitUrl(url)
  {
    if !HasSuffix(url, ".git") {
      ParseIgnoresGitSuffix(url);
    }
  }

  /** An unparsable URL is an error before any filesystem check or clone. */
  lemma GetParseFailure(url: string, baseDir: string, paths: set<string>,
                        open: string -> Outcome,
                        remotes: string -> Result<seq<seq<string>>>,
                        clone: (string, string) -> Outcome)
    requires ParseGitUrl(url).Err?
    ensures GetRun(url, baseDir, paths, open, remotes, clone)
            == Run(Fail(Wrapped("failed to parse git url", ParseGitUrl(url).error)), paths, [])
  {
  }

  /** The two malformed URLs of TestGet fail to parse. */
  lemma GetRejectsExamples()
    ensures ParseGitUrl("") == Err(UnsupportedUrl(""))
    ensures ParseGitUrl("http://") == Err(InvalidUrlPath("http://"))
  {
    assert !HasPrefix("", "git@") && !IsHttpUrl("");
    var raw := "http://";
    assert TrimSuffix(raw, ".git") == raw;
    UrlParseOf("http://", "", "");
    assert raw == "http://" + "" + "";
    assert Trim("", '/') == "";
    ParseHttpBranch(raw, raw);
    SplitNoSep("", '/');
  }

  /** An existing clone of the same remote is accepted as it is: success, no clone. */
  lemma GetAlreadyCloned(cloneUrl: string, dir: string, paths: set<string>,
                         open: string -> Outcome,
                         remotes: string -> Result<seq<seq<string>>>,
                         clone: (string, string) -> Outcome)
    requires dir in paths && GitIndex(dir) in paths
    requires open(dir).Pass? && remotes(dir).Ok? && HasRemoteUrl(remotes(dir).value, cloneUrl)
    ensures var run := GetAt(cloneUrl, dir, paths, open, remotes, clone);
            run.outcome.Pass? && run.paths == paths && forall c, d :: Clone(c, d) !in run.calls
  {
  }

  /** An existing clone whose remotes all differ is a mismatch error. */
  lemma GetRemoteMismatch(cloneUrl: string, dir: string, paths: set<string>,
                          open: string -> Outcome,
                          remotes: string -> Result<seq<seq<string>>>,
                          clone: (string, string) -> Outcome)
    requires dir in paths && GitIndex(dir) in paths
    requires open(dir).Pass? && remotes(dir).Ok? && !HasRemoteUrl(remotes(dir).value, cloneUrl)
    ensures var run := GetAt(cloneUrl, dir, paths, open, remotes, clone);
            run.outcome == Fail(RemoteMismatch(dir)) && run.paths == paths
  {
  }

  /** An existing target without a git index is not a git repo; nothing is cloned. */
  lemma GetNotAGitRepo(cloneUrl: string, dir: string, paths: set<string>,
                       open: string -> Outcome,
                       remotes: string -> Result<seq<seq<string>>>,
                       clone: (string, string) -> Outcome)
    requires dir in paths && GitIndex(dir) !in paths
    ensures var run := GetAt(cloneUrl, dir, paths, open, remotes, clone);
            run == Run(Fail(NotAGitRepo(dir)), paths, [Stat(dir), Stat(GitIndex(dir))])
  {
  }

  /** An absent target is cloned into; Get succeeds exactly when the clone does. */
  lemma GetClonesAbsent(cloneUrl: string, dir: string, paths: set<string>,
                        open: string -> Outcome,
                        remotes: string -> Result<seq<seq<string>>>,
                        clone: (string, string) -> Outcome)
    requires dir !in paths
    ensures var run := GetAt(cloneUrl, dir, paths, open, remotes, clone);
            && run.calls == [Stat(dir), Clone(cloneUrl, dir)]
            && (run.outcome.Pass? <==> clone(cloneUrl, dir).Pass?)
            && run.paths == if clone(cloneUrl, dir).Pass? then paths + {dir} else paths
  {
  }

  /**
   * The directory Get clones `host/owner/repo` into is
   * `root/host/owner/repo/base`, and FindRepoDir from there finds
   * `root/host/owner/repo`.
   */
  lemma TargetLocates(top: Path, host: string, owner: string, repo: string)
    requires top.absolute && IsClean(top)
    requires IsName(host) && IsName(owner) && IsName(repo)
    ensures var repoDir := Path(true, top.comps + [host, owner, repo]);
            && TargetDir(Render(top), GitUrlParts(host, owner, repo)) == Render(Path(true, repoDir.comps + ["base"]))
            && Located(TargetDir(Render(top), GitUrlParts(host, owner, repo)), Render(top)) == Ok(Render(repoDir))
  {
    var names := [host, owner, repo];
    var repoDir := Path(true, top.comps + names);
    var target := Path(true, repoDir.comps + ["base"]);
    JoinNames(top, names + ["base"]);
    assert [Render(top), host, owner, repo, "base"] == [Render(top)] + (names + ["base"]);
    assert top.comps + (names + ["base"]) == target.comps;
    assert TargetDir(Render(top), GitUrlParts(host, owner, repo)) == Render(target);
    LocateFromInside(top, names, ["base"]);
    assert top.comps + names + ["base"] == target.comps;
  }

  /**
   * Get and the other commands agree on the layout: the directory Get clones
   * `host/owner/repo` into is `root/host/owner/repo/base`; FindRepoDir from
   * there finds `root/host/owner/repo`; and BuildRemoteURLFromRepoDir of that
   * directory (what Switch resolves) is the HTTPS URL of the same host, owner
   * and repo.
   */
  lemma RepoLayout(top: Path, host: string, owner: string, repo: string, wd: Path)
    requires top.absolute && IsClean(top)
    requires wd.absolute && IsClean(wd)
    requires IsName(host) && IsName(owner) && IsName(repo) && !HasPrefix(host, "..")
    ensures var repoDir := Path(true, top.comps + [host, owner, repo]);
            && TargetDir(Render(top), GitUrlParts(host, owner, repo)) == Render(Path(true, repoDir.comps + ["base"]))
            && Located(TargetDir(Render(top), GitUrlParts(host, owner, repo)), Render(top)) == Ok(Render(repoDir))
            && BuildRemoteUrlFromRepoDir(Render(repoDir), Render(top), wd) == Ok(HttpsRemote(host, owner, repo))
  {
    TargetLocates(top, host, owner, repo);
    BuildAtLayout(top, [host, owner, repo], wd);
  }

  /** The layout agreement for every URL Get accepts whose parts are plain names. */
  lemma GetLayoutAgrees(url: string, top: Path)
    requires top.absolute && IsClean(top)
    requires ParseGitUrl(url).Ok?
    requires var u := ParseGitUrl(url).value;
             IsName(u.host) && IsName(u.owner) && IsName(u.repo)
    ensures var u := ParseGitUrl(url).value;
            Located(TargetDir(Render(top), u), Render(top)) == Ok(Render(Path(true, top.comps + [u.host, u.owner, u.repo])))
  {
    var u := ParseGitUrl(url).value;
    TargetLocates(top, u.host, u.owner, u.repo);
    assert u == GitUrlParts(u.host, u.owner, u.repo);
  }

  // --------------------------------------------------------------- the tree

  /** The filesystem the handlers work on. */
  class Workspace {
    /** The paths that exist: os.Stat succeeds on exactly these. */
    var paths: set<string>
    /** Every call the handlers have made, oldest first. */
    var calls: seq<Call>

    constructor (existing: set<string>)
      ensures paths == existing && calls == []
    {
      paths := existing;
      calls := [];
    }

    /** os.Stat: whether `path` exists. */
    method Stat(path: string) returns (present: bool)
      modifies this
      ensures present == (path in paths)
      ensures paths == old(paths) && calls == old(calls) + [Call.Stat(path)]
    {
      calls := calls + [Call.Stat(path)];
      present := path in paths;
    }

    /** Switch */
    method Switch(opts: SwitchOptions,
                  resolve: (string, string) -> Result<string>,
                  clone: (string, string) -> Outcome,
                  switchTo: (string, string) -> Outcome) returns (err: Outcome)
      modifies this
      ensures var run := SwitchRun(opts, old(paths), resolve, clone, switchTo);
              err == run.outcome && paths == run.paths && calls == old(calls) + run.calls
    {
      if opts.repoDir == "" || opts.branchName == "" {
        return Fail(ArgumentsRequired);
      }
      calls := calls + [ResolveRemote(opts.repoDir, opts.root)];
      var remoteUrl := resolve(opts.repoDir, opts.root);
      if remoteUrl.Err? {
        return Fail(Wrapped("failed to get remote url", remoteUrl.error));
      }
      var branchDir := Join([opts.repoDir, opts.branchName]);
      var present := Stat(branchDir);
      if present {
        return Fail(BranchDirExists(branchDir));
      }
      calls := calls + [Clone(remoteUrl.value, branchDir)];
      var cloned := clone(remoteUrl.value, branchDir);
      if cloned.Fail? {
        return Fail(Wrapped("failed to clone to branch dir", cloned.error));
      }
      paths := paths + {branchDir};
      calls := calls + [SwitchBranch(branchDir, opts.branchName)];
      var switched := switchTo(branchDir, opts.branchName);
      if switched.Fail? {
        return switched;
      }
      return Pass;
    }

    /** Get */
    method Get(url: string, baseDir: string,
               open: string -> Outcome,
               remotes: string -> Result<seq<seq<string>>>,
               clone: (string, string) -> Outcome) returns (err: Outcome)
      modifies this
      ensures var run := GetRun(url, baseDir, old(paths), open, remotes, clone);
              err == run.outcome && paths == run.paths && calls == old(calls) + run.calls
    {
      var cloneUrl := url;
      if !HasSuffix(url, ".git") {
        cloneUrl := url + ".git";
      }
      var parsed := ParseGitUrl(url);
      if parsed.Err? {
        return Fail(Wrapped("failed to parse git url", parsed.error));
      }
      var u := parsed.value;
      var dir := Join([baseDir, u.host, u.owner, u.repo, "base"]);
      err := GetInto(cloneUrl, dir, open, remotes, clone);
    }

    /** The part of Get after the URL has parsed: act at the target directory `dir`. */
    method GetInto(cloneUrl: string, dir: string,
                   open: string -> Outcome,
                   remotes: string -> Result<seq<seq<string>>>,
                   clone: (string, string) -> Outcome) returns (err: Outcome)
      modifies this
      ensures var run := GetAt(cloneUrl, dir, old(paths), open, remotes, clone);
              err == run.outcome && paths == run.paths && calls == old(calls) + run.calls
    {
      ghost var start := calls;
      var gitIndex := Join([dir, ".git", "index"]);
      var dirPresent := Stat(dir);
      if dirPresent {
        var indexPresent := Stat(gitIndex);
        if indexPresent {
          calls := calls + [OpenRepo(dir)];
          var openOutcome := open(dir);
          if openOutcome.Fail? {
            return Fail(Wrapped("failed to open existing git repo", openOutcome.error));
          }
          calls := calls + [ListRemotes(dir)];
          var listed := remotes(dir);
          if listed.Err? {
            return Fail(Wrapped("failed to get remotes", listed.error));
          }
          var same := FindRemoteUrl(listed.value, cloneUrl);
          assert calls == start + [Call.Stat(dir), Call.Stat(gitIndex), OpenRepo(dir), ListRemotes(dir)];
          if same {
            return Pass;
          }
          return Fail(RemoteMismatch(dir));
        }
        return Fail(NotAGitRepo(dir));
      }
      calls := calls + [Clone(cloneUrl, dir)];
      var cloned := clone(cloneUrl, dir);
      if cloned.Fail? {
        return Fail(Wrapped("git clone failed", cloned.error));
      }
      paths := paths + {dir};
      return Pass;
    }
  }
}
