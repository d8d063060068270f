/**
 * Errors of the repository's core, with the messages Go's `fmt.Errorf`
 * renders for them, and the two result shapes the Go code returns:
 * `(T, error)` as `Result<T>` and a bare `error` as `Outcome`.
 */
module Errors {

  datatype Error =
    | InvalidSshUrl(raw: string)              // "invalid ssh url: %s"
    | InvalidSshUrlPath(raw: string)          // "invalid ssh url path: %s"
    | InvalidUrlPath(raw: string)             // "invalid url path: %s"
    | UnsupportedUrl(raw: string)             // "unsupported git url format: %s"
    | NotUnderRoot(repoDir: string)           // "repoDir is not under gitReplicatorRoot: %s"
    | InvalidRepoDir(repoDir: string)         // "invalid repoDir: %s"
    | RepoDirNotFound                         // FindRepoDir's walk found no repo level
    | ArgumentsRequired                       // Switch called without repo dir or branch
    | BranchDirExists(branchDir: string)      // "branch directory already exists: %s"
    | RemoteMismatch(dir: string)             // Get: the clone there has other remotes
    | NotAGitRepo(dir: string)                // Get: the target exists without .git/index
    | External(message: string)               // an error produced by os, go-git or an injected function
    | Wrapped(context: string, cause: Error)  // fmt.Errorf("<context>: %w", cause)

  /** The text `err.Error()` returns in the Go code. */
  function Message(e: Error): string {
    match e
    case InvalidSshUrl(raw) => "invalid ssh url: " + raw
    case InvalidSshUrlPath(raw) => "invalid ssh url path: " + raw
    case InvalidUrlPath(raw) => "invalid url path: " + raw
    case UnsupportedUrl(raw) => "unsupported git url format: " + raw
    case NotUnderRoot(dir) => "repoDir is not under gitReplicatorRoot: " + dir
    case InvalidRepoDir(dir) => "invalid repoDir: " + dir
    case RepoDirNotFound => "could not find repo directory under git-replicator root"
    case ArgumentsRequired => "repo dir and branch name are required"
    case BranchDirExists(dir) => "branch directory already exists: " + dir
    case RemoteMismatch(dir) => "directory " + dir + " exists and is a git repo, but remote does not match"
    case NotAGitRepo(dir) => "directory " + dir + " exists but is not a git repo"
    case External(message) => message
    case Wrapped(context, cause) => context + ": " + Message(cause)
  }

  /** A Go `(T, error)` pair where exactly one side is meaningful. */
  datatype Result<T> = Ok(value: T) | Err(error: Error)

  /** A Go `error` return: nil is `Pass`. */
  datatype Outcome = Pass | Fail(error: Error)
}
