# git-replicator core, modelled in Dafny

git-replicator keeps one clone of each remote repository in a fixed layout:
`<root>/<host>/<owner>/<repo>/base`. Every branch the user works on gets a
separate clone beside `base`, in `<root>/<host>/<owner>/<repo>/<branch>`. This
project models the logic behind that layout and proves properties of it:

- `giturl.dfy` (module `GitUrl`) models `ParseGitURL`, which splits an SSH
  (`git@host:owner/repo`) or HTTP(S) (`https://host/owner/repo`) URL, with an
  optional `.git`, into host, owner and repository. It also models
  `BuildRemoteURLFromRepoDir`, which goes the other way: from a repository
  directory under the root to `https://host/owner/repo.git`. Both copies of
  the parser are modelled (`internal/utils/git.go` and `internal/utils/url.go`)
  and are proved to agree on every input.
- `repolocator.dfy` (module `RepoLocator`) models `FindRepoDir`, the upward walk
  from the working directory to the `<root>/<host>/<owner>/<repo>` level. It is
  a loop method proved to compute the specification `Located`.
- `workspace.dfy` (module `Handlers`) covers the two commands that change the
  tree, `Switch` and `Get`. They are methods of a `Workspace` class that holds
  the set of existing paths and the log of calls made. Each method is proved
  to have the effect its specification function describes (`SwitchRun`,
  `GetRun`/`GetAt`), and the error paths, call order and idempotence are
  lemmas about those functions.
- `listing.dfy` (module `Listing`) covers the two read-only commands, `List`
  and `ListBranchDirs`. Both are loop methods proved against specification
  functions (`Listed`, `BranchNames`).
- `gostrings.dfy`, `gofilepath.dfy` and `errors.dfy` hold what the core uses
  from Go's `strings` and `path/filepath` packages, and its errors with the
  texts `fmt.Errorf` gives them.
  - `path/filepath` is modelled lexically: `Clean`, `Join`, `Dir`, `Rel` and
    `Abs` work on a `Path(absolute, comps)` value, with render/clean round
    trips.
  - The working directory that `filepath.Abs` consults is a parameter.

Collaborators the source injects or calls into are function values that give
each call's outcome: the remote-URL lookup, clone and branch switch of
`Switch`, and go-git's open, remotes and clone in `Get`. Whatever
`filepath.Walk` and `os.ReadDir` deliver is an input sequence.

Where the code and its documentation differ, the model follows the code:

- The comment on `FindRepoDir` (internal/utils/filesystem.go:18) speaks of the
  second-level directory `owner/repo`. The code returns the third level,
  `host/owner/repo`: the directory whose third `filepath.Dir` is the root.
- In `BuildRemoteURLFromRepoDir`, the test for empty or `.` components
  (internal/utils/git.go:102) can never fire. `BuildRemoteUrlCases` shows that
  the outcome depends only on the clean components below the root, and those
  are never empty or `.`.
- A host directory whose name itself begins with `..` (such as `..cache`)
  makes the relative path begin with `..`. Such a directory is reported as
  not under the root.

## Model

| member | source | states |
|---|---|---|
| GitUrl.ParseGitUrl | internal/utils/git.go:49-82 | every error is one of the four parse errors quoting the raw input; "unsupported format" exactly when the input, less one `.git`, starts neither with `git@` nor with `http://`/`https://` |
| GitUrl.ParseGitUrlCheckedTrim | internal/utils/url.go:15-51 | the duplicate parser (trims `.git` only after testing for it) fails only with the same four errors |
| GitUrl.ParseCopiesAgree | internal/utils/url.go:18-20 | the two copies of ParseGitURL return the same result on every input |
| GitUrl.ParseIgnoresGitSuffix | internal/utils/git.go:51 | `X` and `X.git` are accepted together and give the same host, owner and repo |
| GitUrl.ParseTrimsSuffixOnce | internal/utils/git.go:51 | only one `.git` is removed: `https://h/o/r.git.git` parses to host h, owner o and repository `r.git` |
| GitUrl.UrlParse | internal/utils/git.go:68 | the URL is the scheme, then the host (no '/'), then the path (empty or starting with '/') |
| GitUrl.ParseSsh | internal/utils/git.go:52-65 | `git@H:O/R[/...]` parses to host H, owner O, repo R |
| GitUrl.ParseSshNoColon | internal/utils/git.go:53-56 | `git@` input without ':' is an invalid SSH URL |
| GitUrl.ParseSshShortPath | internal/utils/git.go:58-61 | an SSH path without '/' is an invalid SSH URL path |
| GitUrl.ParseHttp | internal/utils/git.go:67-79 | `http(s)://H/O/R[/...]` parses to host H, owner O, repo R; trailing slashes and extra segments are ignored |
| GitUrl.ParseHttpShortPath | internal/utils/git.go:72-75 | an HTTP(S) path that has no inner '/' after trimming slashes is an invalid URL path |
| GitUrl.ParseHttpOneSegment | internal/utils/git.go:72-75 | an HTTP(S) URL with a one-segment path is an invalid URL path |
| GitUrl.ParseExampleHttps | internal/utils/git_test.go:22-26 | `https://github.com/owner/repo` gives github.com, owner, repo |
| GitUrl.ParseExampleHttpsGit | internal/utils/git_test.go:27-31 | the same URL with `.git` gives the same parts |
| GitUrl.ParseExampleSsh | internal/utils/git_test.go:32-36 | `git@github.com:owner/repo` gives github.com, owner, repo |
| GitUrl.ParseExampleSshGit | internal/utils/git_test.go:37-41 | the same SSH URL with `.git` gives the same parts |
| GitUrl.ParseExampleSshOwnerOnly | internal/utils/git_test.go:42-46 | `git@github.com:owner` is an invalid SSH URL path |
| GitUrl.ParseExampleHttpsOwnerOnly | internal/utils/git_test.go:47-51 | `https://github.com/owner` is an invalid URL path |
| GitUrl.ParseExampleFtp | internal/utils/git_test.go:52-56 | an `ftp://` URL is an unsupported format |
| GitUrl.ParseHttpEmptyRepo | internal/utils/git.go:72-78 | empty segments are not rejected: `http(s)://H/O//X` parses to host H, owner O and an empty repo |
| GitUrl.ParseExampleEmptySegment | internal/utils/git.go:72-78 | empty segments are not rejected: `https://h/a//b` gives an empty repository name |
| GitUrl.BuildRemoteUrlFromRepoDir | internal/utils/git.go:84-106 | the only errors are "not under root" and "invalid repoDir" for the given directory; a result starts with `https://` and ends in `.git` |
| GitUrl.BuildRemoteUrlCases | internal/utils/git.go:93-105 | a directory that is not the root or below it is not under the root; below it, the first three components give the URL, fewer is invalid, and a first component starting with `..` is not under the root |
| GitUrl.ParseHttpsRemote | internal/utils/git.go:105 | the formatted `https://h/o/r.git` parses back to h, o, r |
| GitUrl.BuildThenParse | internal/utils/git.go:84-106 | round trip: the URL built from a repository directory parses back to its host, owner and repo components, for a host `url.Parse` takes as written (`HostPlain`) and owner and repo without URL-special or control characters |
| GitUrl.BuildAtLayout | internal/utils/git_test.go:90-109 | for `root/below...` the result depends only on `below`: `root/h/o/r` gives `https://h/o/r.git`, `root/h/o` is invalid |
| GitUrl.BuildAtSlash | internal/utils/git_test.go:110-114 | `/` is not under any root that has a component |
| RepoLocator.FindRepoDir | internal/utils/filesystem.go:19-33 | the loop returns `Located(cwd, root)`; on success three `Dir`s of the result are exactly the root; the only error is "could not find repo directory" |
| RepoLocator.LocatedAncestor | internal/utils/filesystem.go:20-31 | the result is `cwd` itself or an ancestor of the cleaned `cwd` |
| RepoLocator.LocateFromInside | internal/utils/filesystem_test.go:37-60 | from `root/h/o/r`, its `base`, anything inside it, or a branch directory, the result is `root/h/o/r` |
| RepoLocator.LocateAboveRepo | internal/utils/filesystem_test.go:61-78 | from the root, a host directory or an owner directory the walk fails |
| RepoLocator.LocateAtSlash | internal/utils/filesystem_test.go:79-84 | from `/` the walk fails for any root with a component |
| RepoLocator.LocateSlashInSlash | internal/utils/filesystem.go:25-30 | the match test comes before the stop test: with root `/`, `/` itself is returned |
| Handlers.SwitchRun | internal/handlers/switch.go:28-59 | success exactly when the arguments are present, the lookup succeeds, the branch dir is absent, and clone and switch succeed; paths change only by the new branch dir, and only after its clone was called; at most four calls |
| Handlers.SwitchNeedsArguments | internal/handlers/switch.go:35-37 | an empty repo dir or branch name is an error with no call made and nothing changed |
| Handlers.SwitchResolveFailure | internal/handlers/switch.go:39-42 | a failed lookup is wrapped as "failed to get remote url" and only the lookup was called |
| Handlers.SwitchBranchDirTaken | internal/handlers/switch.go:44-47 | an existing branch dir is "branch directory already exists", no clone is called, and the paths are unchanged |
| Handlers.SwitchClonesResolved | internal/handlers/switch.go:44-49 | once the lookup succeeded and the branch dir is absent, clone is called with the resolved URL and the branch dir |
| Handlers.DefaultGetRemoteUrl | internal/utils/git.go:34-36 | the default lookup of the switch command returns an `https://` URL ending in `.git`, or fails with NotUnderRoot or InvalidRepoDir for the given directory |
| Handlers.SwitchFromRepoDir | internal/utils/git.go:34-36 | with the default lookup (BuildRemoteURLFromRepoDir), Switch in `root/h/o/r` for a new branch clones `https://h/o/r.git` into `root/h/o/r/<branch>` |
| Handlers.SwitchCloneFailure | internal/handlers/switch.go:49-51 | a failed clone is wrapped as "failed to clone to branch dir", the switch is never called, and the paths are unchanged (a failed clone is taken to leave nothing behind) |
| Handlers.SwitchCheckoutFailure | internal/handlers/switch.go:53-55 | a failed switch is returned unwrapped and the fresh clone stays |
| Handlers.SwitchSuccess | internal/handlers/switch.go:39-58 | on success the calls are exactly lookup, stat, clone(resolved URL, branch dir), switch(branch dir, branch), in that order, and the branch dir is new |
| Handlers.BranchDirLayout | internal/handlers/switch.go:44 | the branch dir of a clean repo dir is that dir with the branch name appended |
| Handlers.Workspace.Switch | internal/handlers/switch.go:28-59 | the method's result, new paths and appended calls are those of `SwitchRun` on the old paths |
| Handlers.Workspace.Stat | internal/handlers/switch.go:45 | reports whether the path exists, logs the stat, and changes no path |
| Handlers.CloneUrl | internal/handlers/get.go:15-18 | the clone URL ends in `.git`; it is the input when the input already ends so, and the input plus `.git` otherwise |
| Handlers.CloneUrlIdempotent | internal/handlers/get.go:15-18 | adding `.git` to a clone URL changes nothing |
| Handlers.CloneUrlParsesAlike | internal/handlers/get.go:15-21 | the clone URL parses exactly when the input does, to the same parts |
| Handlers.FindRemoteUrl | internal/handlers/get.go:38-45 | the nested loop finds a match exactly when some URL of some remote equals the clone URL |
| Handlers.GetAt | internal/handlers/get.go:25-58 | paths are unchanged, or Get succeeded and only the target dir was added while absent; every clone call is of the clone URL into the absent target |
| Handlers.GetParseFailure | internal/handlers/get.go:21-24 | an unparsable URL is wrapped as "failed to parse git url" before any stat or clone |
| Handlers.GetRejectsExamples | internal/handlers/get_test.go:53-54 | `""` is an unsupported format and `http://` an invalid URL path |
| Handlers.GetAlreadyCloned | internal/handlers/get.go:38-43 | an existing clone with a remote URL equal to the clone URL is success, with no clone and no change |
| Handlers.GetRemoteMismatch | internal/handlers/get.go:46 | an existing clone whose remote URLs all differ is the mismatch error and changes nothing |
| Handlers.GetNotAGitRepo | internal/handlers/get.go:48 | an existing target without `.git/index` is "not a git repo" after two stats, with no clone |
| Handlers.GetClonesAbsent | internal/handlers/get.go:51-58 | an absent target is cloned from the clone URL; Get succeeds exactly when the clone does, and only then does the target exist |
| Handlers.RepoLayout | internal/handlers/get.go:25 | Get's target is `root/h/o/r/base`; FindRepoDir from there finds `root/h/o/r`; and the remote built from that is `https://h/o/r.git` |
| Handlers.TargetLocates | internal/handlers/get.go:25 | Get's target for plain names h, o, r is `root/h/o/r/base`, and FindRepoDir from there finds `root/h/o/r` |
| Handlers.GetLayoutAgrees | internal/handlers/get.go:21-25 | for a URL Get accepts whose host, owner and repo are plain names, FindRepoDir from Get's target finds the directory of the same host, owner and repo |
| Handlers.Workspace.Get | internal/handlers/get.go:14-59 | the method's result, new paths and appended calls are those of `GetRun` on the old paths |
| Handlers.Workspace.GetInto | internal/handlers/get.go:26-58 | the part after parsing matches `GetAt` |
| Listing.List | internal/handlers/list.go:19-57 | the loop returns `Listed`: the walk with below-`base` visits dropped after SkipDir, and the first failure wrapped as "failed to list repositories" |
| Listing.FoundFromCandidates | internal/handlers/list.go:26-46 | every reported repository comes from a visited directory whose relative path has exactly four parts, the fourth `base`, with `.git` a directory; host, owner and repo are the first three parts and the path is the walked path |
| Listing.ReportsCandidates | internal/handlers/list.go:37-46 | conversely, every such directory the walk visits is reported |
| Listing.NeverBelowBase | internal/handlers/list.go:48 | visits below a four-level `base` directory never change the result, whether or not that directory was reported |
| Listing.FoundGrows | internal/handlers/list.go:41 | results come in visit order: a prefix of the walk reports a prefix of the results |
| Listing.ListFailsWhole | internal/handlers/list.go:22-55 | a failed List carries the wrapped error of one failed visit and no results; a walk without failures always succeeds |
| Listing.FailureFails | internal/handlers/list.go:23-25 | a failure at most four levels down (such as a missing base directory) always fails List |
| Listing.ShallowTreeListsNothing | internal/handlers/list_test.go:72-76 | a tree without four-level directories lists nothing |
| Listing.ReportedPathIsGetTarget | internal/handlers/list.go:41-46 | the path List reports for `h/o/r/base` is the directory Get clones `h/o/r` into, and FindRepoDir from it finds `root/h/o/r` |
| Listing.ListBranchDirs | internal/handlers/branch.go:10-22 | a read failure is wrapped as "failed to read repo directory"; otherwise the result is `BranchNames` of the entries |
| Listing.BranchNamesMembers | internal/handlers/branch.go:16-20 | a name is listed exactly when some directory entry has it: files never, `base` always |
| Listing.BranchNamesConcat | internal/handlers/branch.go:16-18 | listing distributes over the entries read, so the output keeps their order |
| Listing.BranchNamesLength | internal/handlers/branch.go:16-20 | at most one name per entry, and every entry's name in order when all entries are directories |

## Left out

- `url.Parse` is modelled only as the split of an `http://`/`https://` URL into host and path. Userinfo, ports with validation, host validation, control-character checks, query, fragment and percent-decoding are not modelled. So the error return at internal/utils/git.go:69-71 has no counterpart: the model accepts hosts that `url.Parse` rejects, such as `a:b` (an invalid port), a host containing a space or one of `|{}\^`, or a host starting with `[`, and URLs holding a control character.
- GitUrl.BuildThenParse: the round trip is stated only where `url.Parse` takes the URL as written. The host component must satisfy `HostPlain`: no `?`, `#`, `@`, `%`, `:`, space, `|{}\^`, backtick, `"`, `<` or `>`, no control character, and no leading `[`. Owner and repository must have no `?`, `#`, `@`, `%` or control character. For a host directory such as `a:b`, Go's `ParseGitURL` fails on the URL built from it, and the model does not say so.
- GitUrl.ParseGitUrl: the zero `GitURLParts` returned beside an error is not represented, because a `Result` carries either a value or an error.
- GitUrl.BuildRemoteUrlFromRepoDir: the error branches of `filepath.Abs` (internal/utils/git.go:86-92) are not modelled. `Abs` is lexical against a given working directory and cannot fail; `os.Getwd` is that parameter.
- The go-git wrappers `DefaultCloneFunc`, `SwitchBranch` and `DefaultSwitchBranchFunc` (internal/utils/git.go:17-31, 38-41, 109-137) are not modelled. go-git is not part of this model, and the handlers receive these as function values. `DefaultGetRemoteURL` is modelled as `Handlers.DefaultGetRemoteUrl`.
- Handlers.GetLayoutAgrees: stated only for URLs whose host, owner and repo are plain names (not empty, `.` or `..`, no `/`). ParseGitURL also accepts URLs with an empty or `..` part, and for those Get's target is elsewhere. `https://h/../x` has owner `..`, and its target cleans to `root/x/base`. `https://h/a//b` has an empty repo, and its target is `root/h/a/base`, from which FindRepoDir returns that directory itself. The model does not state these cases.
- Handlers.SwitchRun, Handlers.GetAt: a failed clone is taken to leave no directory behind, as go-git removes what it created. A `CloneFunc` that leaves a partial directory after failing is not modelled, so the "paths unchanged after a failed clone" clauses of SwitchRun, GetAt, SwitchCloneFailure and GetClonesAbsent rest on that assumption.
- Handlers.Workspace.Switch: a successful clone adds only the branch directory to the modelled paths. The files a clone writes inside it, and the checkout's effect on them, are not tracked.
- Handlers.Workspace.Get: likewise, a successful clone adds only the target directory. The `.git/index` inside it is not added, so the model does not say that a second Get finds an index.
- `os.Stat` is a membership test on the set of paths. Errors other than "does not exist" are not distinguished and count as absence, as the source's `err == nil` tests do.
- `filepath.Walk`'s visit order and `os.ReadDir`'s sort order are inputs. Within `Walk`, only its reaction to `SkipDir` is modelled.
- Listing.List: the path handed to the callback is `Join(baseDir, rel...)`, and `filepath.Rel` is the '/'-join of the walked names. The error branch of `Rel` (internal/handlers/list.go:30-32) cannot arise for paths `Walk` builds below `baseDir`, and is not modelled.
- internal/handlers/delete.go is not part of this model: it joins a path and calls `utils.RemoveDir`, which is not shown.
- `GetGitReplicatorRoot` (internal/utils/filesystem.go:10-16) is not modelled; it only reads the home directory.
- The cobra commands in `cmd/`, `internal/config`, `internal/utils/log.go` and `main.go` are glue and output. They are left out, and so are the replicate command and its handler.
- `context.Context`, cancellation, progress output and the `fmt.Printf` of internal/handlers/switch.go:57 are not modelled.
- Concurrent changes to the filesystem between a stat and a clone are not modelled.
