/**
 * Git remote URLs and the directory layout `root/host/owner/repo/...`
 * (internal/utils/git.go and its duplicate internal/utils/url.go).
 *
 * `ParseGitUrl` splits an SSH (`git@host:owner/repo`) or HTTP(S)
 * (`https://host/owner/repo`) URL, with an optional `.git`, into host, owner
 * and repo.  `BuildRemoteUrlFromRepoDir` goes the other way: from a directory
 * below the replicator root to `https://host/owner/repo.git`.  The lemmas
 * characterise both completely and show that parsing a built URL gives back
 * the directory's three components.
 */
module GitUrl {
  import opened GoStrings
  import opened GoFilePath
  import opened Errors

  /** GitURLParts */
  datatype GitUrlParts = GitUrlParts(host: string, owner: string, repo: string)

  /** What url.Parse yields that the parser reads: the authority and the path. */
  datatype ParsedUrl = ParsedUrl(host: string, path: string)

  predicate IsHttpUrl(s: string) {
    HasPrefix(s, "http://") || HasPrefix(s, "https://")
  }

  /** The scheme and `//` that open an HTTP(S) URL. */
  function Scheme(s: string): (r: string)
    requires IsHttpUrl(s)
    ensures HasPrefix(s, r) && (r == "http://" || r == "https://")
  {
    if HasPrefix(s, "https://") then "https://" else "http://"
  }

  /**
   * url.Parse on an `http://` or `https://` URL without userinfo, query,
   * fragment or escapes: the host runs from the `//` to the first '/', the
   * path is the rest.
   */
  function UrlParse(s: string): (u: ParsedUrl)
    requires IsHttpUrl(s)
    ensures s == Scheme(s) + u.host + u.path
    ensures '/' !in u.host
    ensures u.path == [] || u.path[0] == '/'
  {
    var rest := s[|Scheme(s)|..];
    var i := IndexOf(rest, '/');
    if i < 0 then ParsedUrl(rest, "") else ParsedUrl(rest[..i], rest[i..])
  }

  /** The body of ParseGitURL once the `.git` suffix handling has given `u`; errors quote `raw`. */
  function ParseStripped(raw: string, u: string): Result<GitUrlParts> {
    if HasPrefix(u, "git@") then
      var parts := SplitN2(u, ':');
      if |parts| != 2 then Err(InvalidSshUrl(raw))
      else
        var host := TrimPrefix(parts[0], "git@");
        var pathParts := Split(parts[1], '/');
        if |pathParts| < 2 then Err(InvalidSshUrlPath(raw))
        else Ok(GitUrlParts(host, pathParts[0], pathParts[1]))
    else if IsHttpUrl(u) then
      var parsed := UrlParse(u);
      var parts := Split(Trim(parsed.path, '/'), '/');
      if |parts| < 2 then Err(InvalidUrlPath(raw))
      else Ok(GitUrlParts(parsed.host, parts[0], parts[1]))
    else Err(UnsupportedUrl(raw))
  }

  /** ParseGitURL of internal/utils/git.go: one `.git` is trimmed unconditionally. */
  function ParseGitUrl(raw: string): (r: Result<GitUrlParts>)
    ensures r.Err? ==> r.error in {InvalidSshUrl(raw), InvalidSshUrlPath(raw), InvalidUrlPath(raw), UnsupportedUrl(raw)}
    ensures r == Err(UnsupportedUrl(raw))
            <==> !HasPrefix(TrimSuffix(raw, ".git"), "git@") && !IsHttpUrl(TrimSuffix(raw, ".git"))
  {
    ParseStripped(raw, TrimSuffix(raw, ".git"))
  }

  /** ParseGitURL of internal/utils/url.go: `.git` is trimmed only after testing for it. */
  function ParseGitUrlCheckedTrim(raw: string): (r: Result<GitUrlParts>)
    ensures r.Err? ==> r.error in {InvalidSshUrl(raw), InvalidSshUrlPath(raw), InvalidUrlPath(raw), UnsupportedUrl(raw)}
  {
    var urlStr := if HasSuffix(raw, ".git") then TrimSuffix(raw, ".git") else raw;
    ParseStripped(raw, urlStr)
  }

  /** The two copies of ParseGitURL agree on every input. */
  lemma ParseCopiesAgree(raw: string)
    ensures ParseGitUrlCheckedTrim(raw) == ParseGitUrl(raw)
  {
  }

  /** `X` and `X.git` parse to the same parts, and fail together. */
  lemma ParseIgnoresGitSuffix(x: string)
    requires !HasSuffix(x, ".git")
    ensures ParseGitUrl(x + ".git").Ok? <==> ParseGitUrl(x).Ok?
    ensures ParseGitUrl(x).Ok? ==> ParseGitUrl(x + ".git") == ParseGitUrl(x)
  {
    assert HasSuffix(x + ".git", ".git");
    assert TrimSuffix(x + ".git", ".git") == x;
  }

  /** Only one `.git` is removed: `https://h/o/r.git.git` names the repository `r.git`. */
  lemma ParseTrimsSuffixOnce(host: string, owner: string, repo: string)
    requires '/' !in host
    requires owner != "" && '/' !in owner && repo != "" && '/' !in repo
    ensures ParseGitUrl(HttpsRemote(host, owner, repo + ".git")) == Ok(GitUrlParts(host, owner, repo + ".git"))
  {
    assert '/' !in repo + ".git";
    ParseHttpsRemote(host, owner, repo + ".git");
  }

  /** The two parts of `owner/repo...` that the parser keeps. */
  lemma SplitOwnerRepo(owner: string, repo: string, rest: string)
    requires '/' !in owner && '/' !in repo
    requires rest == [] || rest[0] == '/'
    ensures var parts := Split(owner + "/" + repo + rest, '/');
            |parts| >= 2 && parts[0] == owner && parts[1] == repo
  {
    assert owner + "/" + repo + rest == owner + ['/'] + (repo + rest);
    SplitHead(owner, repo + rest, '/');
    if rest == [] {
      assert repo + rest == repo;
      SplitNoSep(repo, '/');
    } else {
      assert repo + rest == repo + ['/'] + rest[1..];
      SplitHead(repo, rest[1..], '/');
    }
  }

  /** An HTTP(S) URL does not take the SSH branch. */
  lemma HttpIsNotSsh(u: string)
    requires IsHttpUrl(u)
    ensures !HasPrefix(u, "git@")
  {
    assert u[0] == 'h';
  }

  /**
   * The SSH form: the host is the text between `git@` and the first ':',
   * owner and repo are the first two '/'-separated segments after it, and
   * any further segments are ignored.
   */
  lemma ParseSsh(raw: string, host: string, owner: string, repo: string, rest: string)
    requires TrimSuffix(raw, ".git") == "git@" + host + ":" + owner + "/" + repo + rest
    requires ':' !in host && '/' !in owner && '/' !in repo
    requires rest == [] || rest[0] == '/'
    ensures ParseGitUrl(raw) == Ok(GitUrlParts(host, owner, repo))
  {
    var u := TrimSuffix(raw, ".git");
    var after := owner + "/" + repo + rest;
    assert u == ("git@" + host) + [':'] + after;
    assert HasPrefix(u, "git@");
    SplitN2Concat("git@" + host, after, ':');
    assert TrimPrefix("git@" + host, "git@") == host;
    SplitOwnerRepo(owner, repo, rest);
  }

  /** SSH input without ':' is an invalid SSH URL. */
  lemma ParseSshNoColon(raw: string)
    requires HasPrefix(TrimSuffix(raw, ".git"), "git@") && ':' !in TrimSuffix(raw, ".git")
    ensures ParseGitUrl(raw) == Err(InvalidSshUrl(raw))
  {
  }

  /** SSH input with no '/' after the first ':' has too few path segments. */
  lemma ParseSshShortPath(raw: string, host: string, path: string)
    requires TrimSuffix(raw, ".git") == "git@" + host + ":" + path
    requires ':' !in host && '/' !in path
    ensures ParseGitUrl(raw) == Err(InvalidSshUrlPath(raw))
  {
    var u := TrimSuffix(raw, ".git");
    assert u == ("git@" + host) + [':'] + path;
    assert HasPrefix(u, "git@");
    SplitN2Concat("git@" + host, path, ':');
    SplitNoSep(path, '/');
  }

  /** The path of an HTTP(S) URL, trimmed of '/' at both ends, as the parser splits it. */
  lemma TrimOwnerRepo(owner: string, repo: string, rest: string)
    requires owner != "" && '/' !in owner && repo != "" && '/' !in repo
    requires rest == [] || rest[0] == '/'
    ensures var parts := Split(Trim("/" + owner + "/" + repo + rest, '/'), '/');
            |parts| >= 2 && parts[0] == owner && parts[1] == repo
  {
    var body := owner + "/" + repo;
    var path := "/" + owner + "/" + repo + rest;
    assert TrimLeft(path, '/') == body + rest by {
      assert path == "/" + (body + rest);
      assert path[1..] == body + rest;
      TrimLeftConcat(body, rest, '/');
    }
    var kept := TrimRight(rest, '/');
    assert TrimRight(body + rest, '/') == body + kept by {
      assert body[|body| - 1] == repo[|repo| - 1];
      TrimRightConcat(body, rest, '/');
    }
    assert kept == [] || kept[0] == '/';
    assert Trim(path, '/') == owner + "/" + repo + kept;
    SplitOwnerRepo(owner, repo, kept);
  }

  /** url.Parse of a URL assembled from scheme, host and path gives that host and path back. */
  lemma UrlParseOf(scheme: string, host: string, path: string)
    requires scheme == "http://" || scheme == "https://"
    requires '/' !in host
    requires path == [] || path[0] == '/'
    ensures IsHttpUrl(scheme + host + path)
    ensures UrlParse(scheme + host + path) == ParsedUrl(host, path)
  {
    var u := scheme + host + path;
    assert HasPrefix(u, scheme);
    assert Scheme(u) == scheme by {
      if scheme == "http://" {
        assert u[4] == ':';
      }
    }
    var rest := u[|scheme|..];
    assert rest == host + path;
    if path == [] {
      assert rest == host;
    } else {
      assert rest == host + ['/'] + path[1..];
      IndexOfConcat(host, path[1..], '/');
      assert rest[..|host|] == host;
      assert rest[|host|..] == path;
    }
  }

  /** The HTTP(S) branch of the parser, once url.Parse has given `parsed`. */
  lemma ParseHttpBranch(raw: string, u: string)
    requires IsHttpUrl(u)
    ensures var parts := Split(Trim(UrlParse(u).path, '/'), '/');
            ParseStripped(raw, u) == if |parts| < 2 then Err(InvalidUrlPath(raw))
                                     else Ok(GitUrlParts(UrlParse(u).host, parts[0], parts[1]))
  {
    HttpIsNotSsh(u);
  }

  /**
   * The HTTP(S) form: the host is the authority, owner and repo are the
   * first two segments of the path; further segments and trailing '/' are
   * ignored.
   */
  lemma ParseHttp(raw: string, scheme: string, host: string, owner: string, repo: string, rest: string)
    requires scheme == "http://" || scheme == "https://"
    requires TrimSuffix(raw, ".git") == scheme + host + "/" + owner + "/" + repo + rest
    requires '/' !in host
    requires owner != "" && '/' !in owner && repo != "" && '/' !in repo
    requires rest == [] || rest[0] == '/'
    ensures ParseGitUrl(raw) == Ok(GitUrlParts(host, owner, repo))
  {
    var u := TrimSuffix(raw, ".git");
    var path := "/" + owner + "/" + repo + rest;
    assert u == scheme + host + path;
    UrlParseOf(scheme, host, path);
    ParseHttpBranch(raw, u);
    TrimOwnerRepo(owner, repo, rest);
  }

  /** HTTP(S) input whose trimmed path has no '/' has too few path segments. */
  lemma ParseHttpShortPath(raw: string)
    requires IsHttpUrl(TrimSuffix(raw, ".git"))
    requires '/' !in Trim(UrlParse(TrimSuffix(raw, ".git")).path, '/')
    ensures ParseGitUrl(raw) == Err(InvalidUrlPath(raw))
  {
    var u := TrimSuffix(raw, ".git");
    ParseHttpBranch(raw, u);
    SplitNoSep(Trim(UrlParse(u).path, '/'), '/');
  }

  lemma TrimOneSegment(seg: string)
    requires '/' !in seg && seg != ""
    ensures Trim("/" + seg, '/') == seg
  {
    var s := "/" + seg;
    assert s[1..] == seg;
    assert TrimLeft(s, '/') == TrimLeft(seg, '/');
    assert TrimLeft(seg, '/') == seg;
    assert TrimRight(seg, '/') == seg;
  }

  /** An HTTP(S) URL whose path is a single segment has too few path segments. */
  lemma ParseHttpOneSegment(raw: string, scheme: string, host: string, seg: string)
    requires scheme == "http://" || scheme == "https://"
    requires TrimSuffix(raw, ".git") == scheme + host + "/" + seg
    requires '/' !in host && '/' !in seg && seg != ""
    ensures ParseGitUrl(raw) == Err(InvalidUrlPath(raw))
  {
    var u := TrimSuffix(raw, ".git");
    var path := "/" + seg;
    assert u == scheme + host + path;
    UrlParseOf(scheme, host, path);
    TrimOneSegment(seg);
    ParseHttpBranch(raw, u);
    SplitNoSep(seg, '/');
  }

  // The inputs of TestParseGitURL, each written as the concatenation of its parts.

  /** An accepted input: HTTPS without `.git`. */
  lemma ParseExampleHttps()
    ensures ParseGitUrl("https://" + "github.com" + "/" + "owner" + "/" + "repo")
            == Ok(GitUrlParts("github.com", "owner", "repo"))
  {
    var raw := "https://" + "github.com" + "/" + "owner" + "/" + "repo";
    SuffixOfConcat("https://" + "github.com" + "/" + "owner" + "/", "repo", ".git");
    assert "repo"[0] != ".git"[0];
    assert raw + "" == raw;
    ParseHttp(raw, "https://", "github.com", "owner", "repo", "");
  }

  /** An accepted input: HTTPS with `.git`. */
  lemma ParseExampleHttpsGit()
    ensures ParseGitUrl("https://" + "github.com" + "/" + "owner" + "/" + "repo" + ".git")
            == Ok(GitUrlParts("github.com", "owner", "repo"))
  {
    var x := "https://" + "github.com" + "/" + "owner" + "/" + "repo";
    SuffixOfConcat("https://" + "github.com" + "/" + "owner" + "/", "repo", ".git");
    assert "repo"[0] != ".git"[0];
    ParseExampleHttps();
    ParseIgnoresGitSuffix(x);
  }

  /** An accepted input: SSH without `.git`. */
  lemma ParseExampleSsh()
    ensures ParseGitUrl("git@" + "github.com" + ":" + "owner" + "/" + "repo")
            == Ok(GitUrlParts("github.com", "owner", "repo"))
  {
    var raw := "git@" + "github.com" + ":" + "owner" + "/" + "repo";
    SuffixOfConcat("git@" + "github.com" + ":" + "owner" + "/", "repo", ".git");
    assert "repo"[0] != ".git"[0];
    assert raw + "" == raw;
    ParseSsh(raw, "github.com", "owner", "repo", "");
  }

  /** An accepted input: SSH with `.git`. */
  lemma ParseExampleSshGit()
    ensures ParseGitUrl("git@" + "github.com" + ":" + "owner" + "/" + "repo" + ".git")
            == Ok(GitUrlParts("github.com", "owner", "repo"))
  {
    var x := "git@" + "github.com" + ":" + "owner" + "/" + "repo";
    SuffixOfConcat("git@" + "github.com" + ":" + "owner" + "/", "repo", ".git");
    assert "repo"[0] != ".git"[0];
    ParseExampleSsh();
    ParseIgnoresGitSuffix(x);
  }

  /** A rejected input: an SSH path with one segment. */
  lemma ParseExampleSshOwnerOnly()
    ensures var raw := "git@" + "github.com" + ":" + "owner";
            ParseGitUrl(raw) == Err(InvalidSshUrlPath(raw))
  {
    var raw := "git@" + "github.com" + ":" + "owner";
    SuffixOfConcat("git@" + "github.com" + ":" + "o", "wner", ".git");
    assert "o" + "wner" == "owner";
    assert "wner"[0] != ".git"[0];
    ParseSshShortPath(raw, "github.com", "owner");
  }

  /** A rejected input: an HTTPS path with one segment. */
  lemma ParseExampleHttpsOwnerOnly()
    ensures var raw := "https://" + "github.com" + "/" + "owner";
            ParseGitUrl(raw) == Err(InvalidUrlPath(raw))
  {
    var raw := "https://" + "github.com" + "/" + "owner";
    SuffixOfConcat("https://" + "github.com" + "/" + "o", "wner", ".git");
    assert "o" + "wner" == "owner";
    assert "wner"[0] != ".git"[0];
    ParseHttpOneSegment(raw, "https://", "github.com", "owner");
  }

  /** A rejected input: a scheme other than http(s). */
  lemma ParseExampleFtp()
    ensures ParseGitUrl("ftp://github.com/owner/repo") == Err(UnsupportedUrl("ftp://github.com/owner/repo"))
  {
    var raw := "ftp://github.com/owner/repo";
    assert !HasSuffix(raw, ".git") by {
      assert raw[|raw| - 4..] == "repo";
    }
    assert raw[0] == 'f';
    assert !HasPrefix(raw, "git@");
    assert !IsHttpUrl(raw);
    assert TrimSuffix(raw, ".git") == raw;
  }

  /** A path `/owner//tail`, trimmed of '/' at both ends, splits into owner, an empty segment and tail. */
  lemma TrimEmptySegment(owner: string, tail: string)
    requires owner != "" && '/' !in owner && tail != "" && '/' !in tail
    ensures Split(Trim("/" + owner + "//" + tail, '/'), '/') == [owner, "", tail]
  {
    var body := owner + ['/', '/'] + tail;
    assert "/" + owner + "//" + tail == ['/'] + body;
    assert body[0] == owner[0] && body[|body| - 1] == tail[|tail| - 1];
    TrimOneLeading(body, '/');
    SplitEmptyMiddle(owner, tail, '/');
  }

  /** Empty segments are not rejected: `owner//tail` gives an empty repository name. */
  lemma ParseHttpEmptyRepo(raw: string, scheme: string, host: string, owner: string, tail: string)
    requires scheme == "http://" || scheme == "https://"
    requires TrimSuffix(raw, ".git") == scheme + host + "/" + owner + "//" + tail
    requires '/' !in host
    requires owner != "" && '/' !in owner && tail != "" && '/' !in tail
    ensures ParseGitUrl(raw) == Ok(GitUrlParts(host, owner, ""))
  {
    var u := TrimSuffix(raw, ".git");
    var path := "/" + owner + "//" + tail;
    assert u == scheme + host + path;
    UrlParseOf(scheme, host, path);
    ParseHttpBranch(raw, u);
    TrimEmptySegment(owner, tail);
  }

  /** `https://h/a//b` is accepted with an empty repository name. */
  lemma ParseExampleEmptySegment()
    ensures ParseGitUrl("https://" + "h" + "/" + "a" + "//" + "b") == Ok(GitUrlParts("h", "a", ""))
  {
    var raw := "https://" + "h" + "/" + "a" + "//" + "b";
    SuffixOfConcat("https://" + "h" + "/", "a" + "//" + "b", ".git");
    assert ("a" + "//" + "b")[0] != ".git"[0];
    ParseHttpEmptyRepo(raw, "https://", "h", "a", "b");
  }

  // ------------------------------------------------- BuildRemoteURLFromRepoDir

  /** The remote URL BuildRemoteURLFromRepoDir formats from three components. */
  function HttpsRemote(host: string, owner: string, repo: string): string {
    "https://" + host + "/" + owner + "/" + repo + ".git"
  }

  /**
   * BuildRemoteURLFromRepoDir, with the process working directory `wd` (what
   * filepath.Abs consults for relative inputs) as a parameter.
   */
  function BuildRemoteUrlFromRepoDir(repoDir: string, root: string, wd: Path): (r: Result<string>)
    requires wd.absolute && IsClean(wd)
    ensures r.Err? ==> r.error == NotUnderRoot(repoDir) || r.error == InvalidRepoDir(repoDir)
    ensures r.Ok? ==> HasPrefix(r.value, "https://") && HasSuffix(r.value, ".git")
  {
    var absRepo := Abs(repoDir, wd);
    var absRoot := Abs(root, wd);
    var rel := Rel(absRoot, absRepo);
    if HasPrefix(rel, "..") then Err(NotUnderRoot(repoDir))
    else
      var parts := Split(rel, '/');
      if |parts| < 3 then Err(InvalidRepoDir(repoDir))
      else
        var host, owner, repo := parts[0], parts[1], parts[2];
        if host == "" || owner == "" || repo == "" || host == "." || owner == "." || repo == "." then
          Err(InvalidRepoDir(repoDir))
        else
          var url := HttpsRemote(host, owner, repo);
          assert url == "https://" + (host + "/" + owner + "/" + repo) + ".git";
          Ok(url)
  }

  /** The components of `p` below `top`, when `top` is `p` or one of its ancestors. */
  function Below(top: Path, p: Path): seq<string>
    requires IsAncestorOrSelf(top, p)
  {
    p.comps[|top.comps|..]
  }

  /**
   * The outcome BuildRemoteURLFromRepoDir should have for a directory whose
   * components below the root are `below`: the first three name host, owner
   * and repository; fewer than three is an invalid repo dir; a first
   * component starting with `..` reads as a path outside the root.
   */
  function RemoteForBelow(repoDir: string, below: seq<string>): Result<string> {
    if below != [] && HasPrefix(below[0], "..") then Err(NotUnderRoot(repoDir))
    else if |below| < 3 then Err(InvalidRepoDir(repoDir))
    else Ok(HttpsRemote(below[0], below[1], below[2]))
  }

  /** The components of an absolute clean path are all plain names. */
  lemma AbsoluteNames(p: Path)
    requires p.absolute && IsClean(p)
    ensures forall i :: 0 <= i < |p.comps| ==> IsName(p.comps[i])
  {
  }

  /** A '/'-joined list of names starts with `..` exactly when its first name does. */
  lemma JoinDotDot(names: seq<string>)
    requires |names| >= 1 && forall i :: 0 <= i < |names| ==> IsName(names[i])
    ensures HasPrefix(JoinWith(names, '/'), "..") <==> HasPrefix(names[0], "..")
  {
    JoinWithHead(names, '/');
    var j := JoinWith(names, '/');
    var n := names[0];
    if |n| >= 2 {
      assert j[..2] == n[..2];
    } else {
      assert n != ".";
      if |names| > 1 {
        assert j[0] == n[0];
        assert j[1] == '/';
      }
    }
  }

  /**
   * BuildRemoteURLFromRepoDir, completely: a directory that is not the root
   * or below it is rejected as outside; below the root the outcome is
   * `RemoteForBelow` of the components under it.  In particular the check
   * for empty and `.` components never fires, and components past the third
   * (`base`, a branch directory, anything inside them) are ignored.
   */
  lemma BuildRemoteUrlCases(repoDir: string, root: string, wd: Path)
    requires wd.absolute && IsClean(wd)
    ensures var repo := Abs(repoDir, wd);
            var top := Abs(root, wd);
            !IsAncestorOrSelf(top, repo) ==> BuildRemoteUrlFromRepoDir(repoDir, root, wd) == Err(NotUnderRoot(repoDir))
    ensures var repo := Abs(repoDir, wd);
            var top := Abs(root, wd);
            IsAncestorOrSelf(top, repo) ==>
              BuildRemoteUrlFromRepoDir(repoDir, root, wd) == RemoteForBelow(repoDir, Below(top, repo))
  {
    var repo := Abs(repoDir, wd);
    var top := Abs(root, wd);
    if !IsAncestorOrSelf(top, repo) {
      RelOutside(top, repo);
    } else if repo == top {
      RelUnder(top, repo);
      assert Below(top, repo) == [];
      SplitNoSep(".", '/');
    } else {
      RelUnder(top, repo);
      var below := Below(top, repo);
      AbsoluteNames(repo);
      assert forall i :: 0 <= i < |below| ==> IsName(below[i]) by {
        forall i | 0 <= i < |below| ensures IsName(below[i]) {
          assert below[i] == repo.comps[|top.comps| + i];
        }
      }
      JoinDotDot(below);
      SplitJoin(below, '/');
    }
  }

  /** Parsing the URL built from three names gives the names back. */
  lemma ParseHttpsRemote(host: string, owner: string, repo: string)
    requires '/' !in host
    requires owner != "" && '/' !in owner && repo != "" && '/' !in repo
    ensures ParseGitUrl(HttpsRemote(host, owner, repo)) == Ok(GitUrlParts(host, owner, repo))
  {
    var raw := HttpsRemote(host, owner, repo);
    var u := "https://" + host + "/" + owner + "/" + repo + "";
    assert raw == u + ".git";
    assert HasSuffix(raw, ".git");
    ParseHttp(raw, "https://", host, owner, repo, "");
  }

  /**
   * No character Go's url.Parse gives a meaning of its own inside a URL:
   * query, fragment, userinfo and percent-escapes.
   */
  predicate UrlPlain(s: string) {
    '?' !in s && '#' !in s && '@' !in s && '%' !in s
  }

  /** No ASCII control character, which url.Parse rejects anywhere in a URL. */
  predicate NoControl(s: string) {
    forall i :: 0 <= i < |s| ==> ' ' <= s[i] && s[i] != '\U{7F}'
  }

  /**
   * A host url.Parse takes as written: no `:` (a port would follow), no
   * character it refuses in a host, and no `[` opening an IPv6 literal.
   */
  predicate HostPlain(s: string) {
    UrlPlain(s) && NoControl(s) && (s == [] || s[0] != '[')
    && forall i :: 0 <= i < |s| ==> s[i] !in ":| {}\\^`\"<>"
  }

  /**
   * The round trip: the URL built from a repository directory parses back to
   * the directory's host, owner and repository components.
   */
  lemma BuildThenParse(repoDir: string, root: string, wd: Path)
    requires wd.absolute && IsClean(wd)
    requires IsAncestorOrSelf(Abs(root, wd), Abs(repoDir, wd))
    requires var below := Below(Abs(root, wd), Abs(repoDir, wd));
             |below| >= 3 && !HasPrefix(below[0], "..")
             && HostPlain(below[0])
             && UrlPlain(below[1]) && NoControl(below[1]) && UrlPlain(below[2]) && NoControl(below[2])
    ensures var below := Below(Abs(root, wd), Abs(repoDir, wd));
            var r := BuildRemoteUrlFromRepoDir(repoDir, root, wd);
            r == Ok(HttpsRemote(below[0], below[1], below[2]))
            && ParseGitUrl(r.value) == Ok(GitUrlParts(below[0], below[1], below[2]))
  {
    var repo := Abs(repoDir, wd);
    var top := Abs(root, wd);
    var below := Below(top, repo);
    BuildRemoteUrlCases(repoDir, root, wd);
    AbsoluteNames(repo);
    assert below[0] == repo.comps[|top.comps|];
    assert below[1] == repo.comps[|top.comps| + 1];
    assert below[2] == repo.comps[|top.comps| + 2];
    ParseHttpsRemote(below[0], below[1], below[2]);
  }

  /**
   * BuildRemoteURLFromRepoDir on the layout itself: for the directory
   * `root/below...`, the outcome depends only on `below`.  This covers the
   * cases of TestBuildRemoteURLFromRepoDir: `root/h/o/r` gives
   * `https://h/o/r.git`, `root/h/o` (what joining an empty component gives)
   * is an invalid repo dir, and `/` above a non-empty root is outside it.
   */
  lemma BuildAtLayout(top: Path, below: seq<string>, wd: Path)
    requires top.absolute && IsClean(top)
    requires forall i :: 0 <= i < |below| ==> IsName(below[i])
    requires wd.absolute && IsClean(wd)
    ensures var dir := Render(Path(true, top.comps + below));
            BuildRemoteUrlFromRepoDir(dir, Render(top), wd) == RemoteForBelow(dir, below)
  {
    var p := Path(true, top.comps + below);
    assert IsClean(p);
    AbsRender(p, wd);
    AbsRender(top, wd);
    assert p.comps[..|top.comps|] == top.comps;
    assert Below(top, p) == below;
    BuildRemoteUrlCases(Render(p), Render(top), wd);
  }

  /** The filesystem root is outside any root directory that has a component. */
  lemma BuildAtSlash(top: Path, wd: Path)
    requires top.absolute && IsClean(top) && top.comps != []
    requires wd.absolute && IsClean(wd)
    ensures BuildRemoteUrlFromRepoDir("/", Render(top), wd) == Err(NotUnderRoot("/"))
  {
    var slash := Path(true, []);
    assert Render(slash) == "/";
    AbsRender(slash, wd);
    AbsRender(top, wd);
    BuildRemoteUrlCases("/", Render(top), wd);
  }
}
