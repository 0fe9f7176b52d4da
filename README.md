# dotman, modelled in Dafny

dotman is a command-line dotfile manager. It keeps a store of configuration
files under `~/.dotman/configs`. Each stored file is mirrored into the home
directory as a symbolic link that points back into the store. The store is a
git repository that the tool creates, commits to, pushes and pulls, with the
`gh` CLI creating the GitHub remote. Besides that, dotman:

- takes timestamped backups of single files and restores them;
- runs an eight-part health check over the store, the links, the repository
  and the backups;
- generates Markdown and JSON documentation for every stored file.

The model covers the configuration (`config/config.go`), the manager
(`manager/manager.go`), the health check (`manager/health.go`) and the
documentation generator (`manager/docs.go`).

Modules:

- `Paths`: paths as sequences of segments, the parent function, and the
  lexical order in which `filepath.Walk` visits entries. That order is proved
  to be a strict total order, and `SortedEnum` enumerates a set in it.
- `FileSystem`: the file system as a map from paths to entries (file with
  bytes and mode, directory, or symbolic link). There are pure `...On`
  functions with the OS semantics of `MkdirAll`, `RemoveAll`, `Remove`,
  `Symlink`, `WriteFile`, `ReadFile`, `Readlink` and `ReadDir`. The class
  `Disk` holds the tree and updates it in place through methods proved equal
  to those functions. Errors are the OS error texts (`no such file or
  directory`, ...).
- `Walk`: the files a walk of a directory reports, and filtering them.
- `Config`: the three directories and their creation.
- `Git`: the `git` and `gh` invocations. Their outcomes come from an oracle
  parameter.
- `Manager`: listing, linking, copying and adding files.
- `Sync`: repository initialisation, commit-and-push, push, update.
- `Backup`: backup, listing and restore.
- `Health`: the eight checks and the overall verdict.
- `Docs`: tag and dependency detection, the page and README texts, and
  writing them.

Each operation that changes the file system is a method on `Disk` whose
`ensures` ties the new tree and the returned error to a pure function of the
old tree. The properties the tool promises are proved as lemmas about those
functions:

- linking leaves every stored file linked and the store untouched;
- restoring a backup right after taking it changes nothing, and on any later
  tree that still holds the backup's two files, where the file's place holds
  nothing or a regular file under directories only, it brings back the file's
  bytes, or its link if it was one;
- a backup shows up in the listing;
- the generated README lists exactly the stored files, one link line each;
- a freshly linked store passes the link, permission and conflict checks.

## Model

| member | source | states |
|---|---|---|
| Config.NewWithoutDirectories | config/config.go:17-31 | fails exactly when the home directory is unknown, with the "error getting home directory: " prefix; otherwise home < dotman dir < configs dir, each one segment below the last |
| Config.EnsureMakesDirs | config/config.go:48-56 | creating the directories keeps the tree valid and every existing entry; on success each listed directory exists |
| Config.EnsureIdempotent | config/config.go:48-56 | when the directories already exist, creating them changes nothing and succeeds |
| Config.EnsureStopsAtFirstFailure | config/config.go:50-54 | a failure is the first directory whose MkdirAll fails, after all earlier ones succeeded, and that error is returned |
| Config.EnsureDirectories | config/config.go:48-56 | new tree and error are those of MkdirAll on the dotman and configs directories in turn, stopping at the first error |
| Config.New | config/config.go:34-45 | a home-directory error leaves the disk untouched; otherwise the config is returned exactly when both directories were created, and they are directories afterwards |
| Paths.SortedEnumSpec | manager/manager.go:30 | the walk enumeration is sorted in lexical order, has no repeats, and holds exactly the members of the set |
| Paths.PathLessTotal | manager/manager.go:30 | any two distinct paths are ordered by the walk's lexical order |
| Paths.PathLessTransitive | manager/manager.go:30 | the walk's lexical order is transitive |
| Paths.PrefixComesFirst | manager/manager.go:30 | a directory is visited before everything below it |
| Paths.Enumerate | manager/manager.go:30 | returns the set in walk order |
| Walk.WalkFiles | manager/manager.go:30-48 | a walk fails exactly when the root is missing, with the root's lstat error: ENOENT exactly when only directories lie on the way down, else ENOTDIR; otherwise it reports the non-directory entries below the root, relative to it, in lexical order |
| Walk.TrackedMember | manager/manager.go:36-46 | a relative path is reported exactly when the entry under the root exists and is not a directory |
| Walk.TrackedAntichain | manager/manager.go:36-46 | no reported file lies below another reported file |
| Walk.Collect | manager/health.go:159-170 | collects, in order, exactly the walked files the predicate flags |
| Walk.FilterEmpty | manager/health.go:184-199 | nothing is flagged exactly when no walked file satisfies the predicate |
| FileSystem.MkdirAllSpec | manager/manager.go:248 | MkdirAll keeps the tree valid and every entry; it adds only directories on the way to the path; on success the path is a directory; on failure nothing changes |
| FileSystem.MkdirAllSucceeds | manager/manager.go:248 | MkdirAll succeeds when every prefix of the path is absent or a directory |
| FileSystem.RemoveAllSpec | manager/manager.go:264 | RemoveAll always succeeds and removes exactly the path and everything below it |
| FileSystem.RemoveSpec | manager/manager.go:547 | Remove either fails and changes nothing, or removes exactly that one existing entry |
| FileSystem.SymlinkSpec | manager/manager.go:269 | Symlink succeeds exactly when the path is free and its parent is a directory; then only that link is added |
| FileSystem.WriteFileSpec | manager/manager.go:405 | WriteFile either fails and changes nothing, or makes the path read back as the data, touching only the entry it writes (the link's target when the path is a link) |
| FileSystem.WriteKeepsReadable | manager/manager.go:540 | writing over a readable file succeeds and reads back as the new data |
| FileSystem.LstatNotExistSpec | manager/health.go:118 | lstat reports "no such file" exactly when the path is absent and every prefix of it is absent or a directory |
| FileSystem.BlockedIsNotDirectory | manager/manager.go:30 | below a regular file nothing exists, and lstat there reports "not a directory", not "no such file" |
| FileSystem.NotExistFails | manager/manager.go:236 | a path lstat reports missing is reported missing by stat too, and a path stat reports missing does not resolve |
| FileSystem.ReadFileOn | manager/manager.go:400 | a successful read returns the file's content; an existing file that cannot be read fails with EACCES |
| FileSystem.Resolve | manager/manager.go:394 | a path resolves, through at most one link, to an entry that is not a link |
| FileSystem.ReadlinkOn | manager/manager.go:447 | Readlink succeeds exactly on a symbolic link |
| FileSystem.ReadDirOn | manager/manager.go:482 | ReadDir succeeds exactly on a directory |
| FileSystem.Disk.constructor | manager/manager.go:21-25 | the disk starts with the given tree |
| FileSystem.Disk.MkdirAll | manager/manager.go:248 | updates the tree and returns the error of MkdirAllOn |
| FileSystem.Disk.RemoveAll | manager/manager.go:264 | updates the tree and returns the error of RemoveAllOn |
| FileSystem.Disk.Remove | manager/manager.go:547 | updates the tree and returns the error of RemoveOn |
| FileSystem.Disk.Symlink | manager/manager.go:269 | updates the tree and returns the error of SymlinkOn |
| FileSystem.Disk.WriteFile | manager/manager.go:405 | updates the tree and returns the error of WriteFileOn |
| Manager.ListFiles | manager/manager.go:28-51 | fails exactly when the store is missing, with ENOENT exactly when lstat says there is no such file there (ENOTDIR when a file blocks the way); otherwise returns, sorted and without repeats, exactly the relative paths of the stored non-directory entries |
| Manager.LinkOneSpec | manager/manager.go:324-339 | linking one file keeps the tree valid, on success leaves a link at home + rel pointing to store + rel, and changes nothing that is not at or below that place |
| Manager.LinkEachFrame | manager/manager.go:307-343 | linking a list of files changes only entries at or below their home places |
| Manager.LinkEachLinks | manager/manager.go:307-343 | every file whose linking step succeeded is still correctly linked at the end |
| Manager.LinkEachPrefix | manager/manager.go:307-343 | if linking all files succeeds, linking any prefix of them succeeds |
| Manager.LinkEstablishesLinks | manager/manager.go:306-344 | after a successful Link every stored file has a link in the home directory pointing to its stored copy |
| Manager.LinkKeepsStore | manager/manager.go:306-344 | when no home place of a stored file lies in the store, Link leaves the store's entries exactly as they were |
| Manager.Link | manager/manager.go:306-344 | updates the tree and returns the error of LinkOn |
| Manager.CopyFileSpec | manager/manager.go:399-406 | a copy either fails and changes nothing, or makes the destination read as the source's content, touching only the written entry |
| Manager.CopyFile | manager/manager.go:399-406 | updates the tree and returns the error of CopyFileOn |
| Manager.GitRepoByExistence | manager/manager.go:392-396 | the dotman directory counts as a repository exactly when `.git` can be stat'ed: a file counts, a missing or dangling entry does not |
| Manager.StoreTarget | manager/manager.go:241-253 | a path gets a place in the store exactly when it lies in the home directory; that place is the store followed by the path relative to home |
| Manager.AddFileRefusals | manager/manager.go:236-244 | when stat reports no such file, the add is refused with "file does not exist: " and nothing changes, and that message appears exactly then; a file outside the home directory is refused and nothing changes |
| Manager.AddFileStepsFail | manager/manager.go:247-271 | every failure of the five adopting steps is reported with an "error ..." prefix |
| Manager.AddFileBelowFile | manager/manager.go:236-256 | a path below a regular file is not reported missing (stat fails with "not a directory"): the store directory is made and the copy fails with "error copying file: not a directory" |
| Manager.AdoptStepsSucceed | manager/manager.go:247-271 | for a readable regular file and a copy place with only directories on the way down, the five steps succeed, the copy holds the file's bytes and the file becomes a link to it |
| Manager.AddFileAdopts | manager/manager.go:228-271 | after a successful add, the file's place holds a link into the store; the stored copy and the link read as the original content; the file is now in the store's walk |
| Manager.CopyOntoDirectoryFails | manager/manager.go:247-256 | copying onto a path that is a directory fails |
| Manager.AddFile | manager/manager.go:228-303 | the tree is that of the modelled file-system steps; their error is returned, otherwise the outcome of the git add, status and commit |
| Manager.AdoptFile | manager/manager.go:247-271 | updates the tree and returns the error of the five file-system steps, each error with its own prefix |
| Manager.RecordFile | manager/manager.go:279-300 | returns the git outcome: add failure, status failure, nothing to commit, or commit failure, with their prefixes |
| Manager.AddFileOutsideHomeAsWritten | manager/manager.go:241-253 | for /etc/hosts with home /home/u, the relative path climbs out and the copy target /home/u/etc/hosts lies outside the store |
| Manager.AsWrittenAgreesInsideHome | manager/manager.go:228-303 | for clean paths in the home directory, the as-written AddFile and the corrected one agree |
| Manager.AddFileOutsideHomeLands | manager/manager.go:241-271 | with `/etc/hosts` a readable file and `/home/u/etc` absent, the code as written makes `/home/u/etc`, copies the file to `/home/u/etc/hosts` and replaces `/etc/hosts` by a link to it, while the corrected model refuses and changes nothing |
| Manager.JoinCleanPlain | manager/manager.go:253 | joining a path without `..` segments is plain concatenation |
| Sync.RunStepsSpec | manager/manager.go:189-204 | commands run in order until the first failure; the run succeeds exactly when every command does; a failure reports the first failing command's error with its prefix |
| Sync.CommitAndPush | manager/manager.go:347-372 | outside a repository nothing runs and the "not a git repository" error is returned; success exactly when add, commit and push all succeed; a push only runs after add and commit succeeded |
| Sync.PushChanges | manager/manager.go:561-574 | succeeds exactly in a repository whose push succeeds; a push failure reports "error pushing changes: " and the error |
| Sync.Update | manager/manager.go:375-389 | outside a repository, or when the pull fails, nothing changes and the error is returned; otherwise the result is Link on the pulled tree |
| Sync.PushWithRetries | manager/manager.go:206-224 | at most three attempts, stopping at the first success; success exactly when some attempt succeeds; the waits are 1, 2, ... seconds; after three failures the last error is reported |
| Sync.InitMakesRepository | manager/manager.go:163-181 | successful initialisation leaves a repository with the README content written |
| Sync.InitFiles | manager/manager.go:163-181 | updates the tree as git init, .gitignore and README.md creation do, stopping at the first error; success leaves a repository |
| Sync.RemoteStepsSpec | manager/manager.go:183-204 | the remote set-up succeeds exactly when repo create, add, commit and branch all succeed |
| Sync.PublishedSpec | manager/manager.go:183-222 | the repository is published exactly when the set-up commands succeed and one of the three push attempts does |
| Sync.Publish | manager/manager.go:183-224 | succeeds exactly when the repository is published; a set-up failure returns that command's error |
| Sync.CreateRepository | manager/manager.go:163-224 | the tree is that of the initialisation; success exactly when initialisation succeeds and the repository is published, leaving a repository |
| Sync.InitializeGitRepo | manager/manager.go:148-225 | a missing user.name or user.email is reported first and changes nothing; otherwise as CreateRepository |
| Backup.Snapshot | manager/manager.go:437-449 | the metadata names the file and the id, and records a link target exactly when the file is a symbolic link |
| Backup.SaveBackupSpec | manager/manager.go:451-470 | saving creates the backup directory with exactly the content and metadata files and keeps everything else |
| Backup.BackupSpec | manager/manager.go:423-473 | a successful backup adds only the backup directory, its content file holding the file's content and its metadata file holding the encoded metadata |
| Backup.BackupFile | manager/manager.go:423-473 | updates the tree and returns the error of BackupOn |
| Backup.RestoreSpec | manager/manager.go:511-558 | a successful restore read a backup and left the original path holding its content, or, for a link, a link to the recorded target |
| Backup.BackupReadsBack | manager/manager.go:423-473 | reading back a fresh backup yields the snapshot metadata and the file's content |
| Backup.RewriteChangesNothing | manager/manager.go:534-555 | restoring a file to the content and link it already has changes nothing |
| Backup.RestoreAfterBackup | manager/manager.go:423-558 | restoring a fresh backup succeeds and leaves the tree exactly as the backup left it |
| Backup.RestoreBringsBack | manager/manager.go:423-558 | after a backup, on any later tree that still holds the backup's two files, with nothing or a regular file at the original place and only directories on the way down, the restore succeeds and brings back the bytes, or the recorded link |
| Backup.RestoreTailSucceeds | manager/manager.go:534-555 | making the parents, writing the content and relinking all succeed where the original place holds nothing or a regular file under directories only |
| Backup.RestoreBackup | manager/manager.go:511-558 | updates the tree and returns the error of RestoreOn |
| Backup.CollectMetadataMember | manager/manager.go:488-505 | a metadata record is listed exactly when some directory entry yields it |
| Backup.ListBackups | manager/manager.go:476-508 | returns the listing of ListOn: when stat reports no such backups directory the list is empty, a backups path that cannot be read as a directory is an error, unreadable or invalid entries are skipped |
| Backup.ListOnFile | manager/manager.go:478-485 | a backups path that is a regular file is not "missing": listing fails with "failed to read backups directory: not a directory" |
| Backup.ListedAfterBackup | manager/manager.go:423-508 | after a successful backup, listing succeeds and contains its metadata |
| Health.Report | manager/health.go:184-199 | a check reports Info exactly when nothing was flagged, never Error, and attaches its error exactly when something was flagged |
| Health.NoneFlagged | manager/health.go:184-199 | nothing is flagged in walk order exactly when no stored file is flagged |
| Health.StoreCheck | manager/health.go:97-200 | a store check is Error exactly when the store is missing, and Warning exactly when some stored file is flagged |
| Health.CheckBrokenSymlinks | manager/health.go:97-150 | attaches an error exactly when lstat reports no such file at some stored file's home place |
| Health.BelowFileNotFlagged | manager/health.go:118-120 | a home place below a regular file (where lstat fails with "not a directory") is neither broken nor in conflict |
| Health.CheckFilePermissions | manager/health.go:153-200 | attaches an error exactly when some stored file lacks the owner-read bit |
| Health.UnreadableMeansRefused | manager/health.go:167-170 | lacking the owner-read bit is exactly what makes reading the stored file fail with EACCES |
| Health.CheckFileConflicts | manager/health.go:322-379 | attaches an error exactly when some stored file's home place holds something other than the right link |
| Health.BrokenExcludesConflict | manager/health.go:339-349 | no file is both broken and in conflict |
| Health.CheckOutdatedConfigs | manager/health.go:382-427 | errs only when the store is missing; warns exactly when some stored file is older than thirty days |
| Health.CheckGitStatus | manager/health.go:203-255 | Info exactly in a repository with a clean status and an origin remote; Warning exactly for uncommitted changes; an error whenever not Info |
| Health.CheckFileChanges | manager/health.go:464-501 | an error exactly when the status command fails in a repository; Warning exactly for uncommitted changes |
| Health.CheckBackupIntegrity | manager/health.go:258-319 | when the backups directory exists, Info exactly when no backup lacks its metadata or content file; an error whenever not Info |
| Health.BackupCheckOnFile | manager/health.go:258-281 | a backups path that is a regular file is not "no backups directory": the check reports the failed read of the directory |
| Health.BackupIsValid | manager/health.go:258-319 | a fresh backup passes the integrity check |
| Health.HealthCheck | manager/health.go:24-74 | runs the eight checks in order, saves their results, and fails with "health check found issues" exactly when some check attached an error |
| Health.SaveResults | manager/health.go:77-94 | updates the tree as creating the health directory and writing the results file do |
| Health.Summarize | manager/health.go:57-71 | the verdict fails exactly when some result carries an error |
| Health.LinkedStoreIsHealthy | manager/health.go:97-150 | after a successful Link the store's walk is unchanged and no stored file is broken or in conflict |
| Health.LinkedStoreChecksClear | manager/health.go:97-200 | after a successful Link of readable files, the link, permission and conflict checks attach no error |
| Health.HealthyAfterLink | manager/health.go:24-74 | after a successful Link, with a clean repository, valid backups and enough disk space, no check attaches an error |
| Docs.Ext | manager/docs.go:119 | the extension is the suffix from the last dot, or empty when the name has no dot |
| Docs.TypeTag | manager/docs.go:119-132 | a type tag exists exactly for the nine recognised extensions |
| Docs.DetectTagsSpec | manager/docs.go:117-146 | the type tag comes first when the extension is known; i3, tmux and neovim appear exactly when the name contains i3, tmux or nvim, in that order |
| Docs.DetectDependenciesSpec | manager/docs.go:149-169 | lua, vim-plug and shell appear, in that order, exactly when the file reads and contains require, plugin or source |
| Docs.ConfigDocLines | manager/docs.go:172-210 | the page is exactly its heading, metadata lines and sections, one per line |
| Docs.GeneratedDocSections | manager/docs.go:93-98 | a generated page has a Tags section exactly when there are tags, a Dependencies section exactly when there are dependencies, and never Description or Notes |
| Docs.GeneratedHeading | manager/docs.go:180-207 | the section headings of a generated page are exactly those of its non-empty lists |
| Docs.MainReadmeLines | manager/docs.go:52-70 | the README has the six header lines, then one link line per stored file in walk order, then the twelve fixed closing lines, exactly; the link lines are exactly the middle ones |
| Docs.DocPathInjective | manager/docs.go:101 | distinct stored files get distinct page paths |
| Docs.PagesAndRecordsDiffer | manager/docs.go:101-107 | a page path is never a metadata path |
| Docs.PageOnReadme | manager/docs.go:101 | a page lands on the docs README exactly for a stored top-level file named README |
| Docs.RenderConfigDoc | manager/docs.go:180-207 | returns the page text, whose lines Docs.ConfigDocLines fixes |
| Docs.WriteConfigDoc | manager/docs.go:172-210 | updates the tree as writing the page does |
| Docs.SaveConfigMetadata | manager/docs.go:213-225 | updates the tree as writing the encoded metadata does |
| Docs.AppendLinks | manager/docs.go:58-60 | appends one link line per stored file, in order |
| Docs.GenerateMainReadme | manager/docs.go:43-73 | updates the tree and returns the error of MainReadmeOn |
| Docs.GenerateConfigDocs | manager/docs.go:76-114 | updates the tree and returns the error of writing each stored file's page and metadata in walk order, stopping at the first error |
| Docs.GenerateDocs | manager/docs.go:23-40 | updates the tree and returns the error of GenerateDocsOn |
| Docs.WriteUnderSpec | manager/docs.go:175-209 | writing a page creates its parent directories and the file with exactly the given bytes, keeps every other entry, and adds only directories on the way |
| Docs.DocsEachSpec | manager/docs.go:76-114 | after writing every file's pages, each file has its page and metadata, and every other entry is kept |
| Docs.GenerateDocsWrites | manager/docs.go:23-40 | after successful generation every stored file has its page and metadata, and the docs README is a file |

## Left out

- `InitializeFromExistingRepo` (manager/manager.go:54-145) is not modelled. It clones a remote repository, and what a clone writes is outside this model.
- `main.go` is not part of this model: command-line parsing and printing.
- checkDiskSpace (manager/health.go:430-461) calls `Statfs` and computes in floating point. Its result is a parameter of `Health.HealthCheck`.
- Time: the backup id, timestamps, the generated-on line, modification times and file ages are parameters. Time formatting is not modelled.
- JSON encoding and decoding of backup metadata, page metadata and health results are parameters. Round-trip lemmas assume the decoder inverts the encoder. `json.MarshalIndent` failures are not modelled, because these plain structs never fail to encode.
- `git` and `gh` are an oracle: each command's success or error text, and the porcelain status output. `git init` is modelled as the creation of the `.git` directory. `git pull` is a function on the tree.
- Sync.PushWithRetries: the detailed output after the last failed push is always empty. The source calls `CombinedOutput` on a command that already ran, which fails without output. `time.Sleep` becomes the list of waits.
- Only Stat, Lstat (including the first Lstat of a walk's root), ReadFile, ReadDir, Readlink and Remove tell "not a directory" from "no such file" for a path whose way down is blocked by a non-directory. Mkdir, WriteFile and Symlink look only at the immediate parent, so when the blocking entry lies higher up they report "no such file" where the OS reports "not a directory".
- AddFile: the argument is taken as an absolute, clean path. `filepath.Abs` (manager/manager.go:230), the working directory and the cleaning of `..` and `.` segments are not modelled; `AsWrittenAgreesInsideHome` requires a clean path.
- BackupFile: the recorded original path is the absolute path the model is given. The source records the argument as typed (manager/manager.go:439), so a relative path restores against the working directory of the later restore; that difference is not captured.
- Snapshot: link targets are paths relative to the root. A relative or unclean link text, which `os.Readlink` returns as written, is not represented.
- CheckFileConflicts: a link is in conflict when its target differs from the store path. Since link targets are always absolute here, a relative link text that health.go:345 compares as a string and flags cannot be represented.
- Error values are their message texts. OS errors are the bare errno texts, without the "op path:" prefix Go adds.
- File modes other than the owner-read bit are not modelled. Neither are ownership, the umask or file sizes.
- Symbolic links are followed one level, at the last path component only. A link in the middle of a path is not traversed: every operation on a path below a linked directory (Mkdir, MkdirAll, Symlink, WriteFile, Stat, ReadFile) fails, with "not a directory" directly below the link. So Link fails for a stored file whose home place lies below a linked directory (`~/cfg` linking to `/d`), where the OS would create the link inside `/d`.
- WalkFiles: directories carry no mode, so a subdirectory of the store that cannot be read is not modelled; the source's walk then returns the `readDirNames` error through its callback, while the model's walk fails only at its root.
- Link and GenerateConfigDocs: the walk is taken as a snapshot before the loop changes the tree. This agrees with `filepath.Walk` as long as the mirrored home places lie outside the store, which `Manager.LinkKeepsStore` requires.
- Strings are bytes one-for-one (`FileSystem.Ascii`). No UTF-8 encoding is modelled.
- Printing to standard output is left out.

## Findings

| source | as written | input that shows it | evidently intended | confidence | as-written member | corrected member |
|---|---|---|---|---|---|---|
| manager/manager.go:241-253 | `filepath.Rel(HomeDir, absPath)` succeeds for a path outside the home directory and returns a path that climbs out with `..`. `filepath.Join(ConfigsDir, relPath)` then resolves to a place outside the store. | `dotman add /etc/hosts` with home `/home/u`: the relative path is `../../etc/hosts`, so the copy is written to `/home/u/etc/hosts`, not into `/home/u/.dotman/configs`. | A file outside the home directory is refused, and nothing is written outside the store. | not executed | Manager.AddFileOutsideHomeLands | Manager.AddFileRefusals |
