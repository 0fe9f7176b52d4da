/**
 * The `git` and `gh` processes the tool starts. Their outcomes come from the
 * outside world, so they are a parameter: an oracle saying which invocations
 * fail and with what text, and what `git status --porcelain` prints.
 */
module Git {
  import opened Wrappers
  import opened Paths

  /** Every invocation runs against the dotman directory. */
  datatype Command =
    | ConfigGet(key: string)      // git config <key>
    | Init                        // git init
    | RepoCreate(name: string)    // gh repo create <name> --public --source ... --remote origin
    | AddAll                      // git add .
    | AddForce(path: Path)        // git add -f <path>
    | Commit(message: string)     // git commit -m <message>
    | BranchMain                  // git branch -M main
    | PushUpstream(attempt: nat)  // git push -u origin main, the attempt-th time
    | Push                        // git push
    | Pull                        // git pull
    | Status                      // git status --porcelain
    | RemoteOrigin                // git remote get-url origin

  /** `run(cmd)` is None when `cmd` exits cleanly, else the text of its error. */
  datatype Oracle = Oracle(run: Command -> Option<string>, statusOutput: string)
}
