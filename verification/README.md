# vmdocker runtime: a verified model

This project models the parts of vmdocker that must not lose or mix up an agent's state: the
checkpoint and restore transaction of a VM, the two runtime managers with their ports, the
streaming reader that finds the image inside a module file, the `public` allowlist from glob to
exported module and back into a fresh workspace, and the codecs in between. `dafny verify
dfyconfig.toml` checks all of it.

Each Go component is one module. What changes in place there is a class here (`VmDocker`,
`DockerManager`, `SandboxManager`, `Allocator`, `StringReader`, `Collector`, `Disk`, `Host`,
`ImageStore`), with methods proved against functions; what computes a value is a function with
lemmas about it.

* **Failures.** Docker, the sandbox CLI, the agent, the clock and the operating system are
  nondeterministic: the calls the model makes to them may fail, the `Stat` of a declared file
  included, and the contracts hold for every choice. The ghost flag `faulted` says that the system
  failed a call for a reason of its own, so that a contract can say which errors come from the input
  alone. `cleanupFailed` says that an action the code runs
  as a clean-up, and whose error it drops, has failed: the staging directory's removal, the
  rollback, the relaunch of the previous runtime, or the removal of an instance that did not come
  up. What a restore leaves of the runtime, and ownership, are about runs without such a failure;
  that the old tree survives each step is about all runs.
* **Files.** `HostFiles.Host` maps absolute directory paths to trees and keeps the history of its
  steps; `FileTrees.Disk` is one directory. A tree maps element lists to folders and regular files.
* **Formats.** tar, gzip, zip, base64 and TOML are lists of members and lossless library functions.
  A JSON document is a tree with its tokens, and in `ModuleText` the bytes of a file.
  Strings are sequences of code points, file contents sequences of bytes.

Where the code does something other than its documentation or callers expect, the model follows
the code, and a lemma says exactly when the expectation is met:

* A sandbox that is stopped and then cannot be removed leaves the VM with a dead agent, after
  which every checkpoint and restore fails: the one error of a restore after which a VM is not as it
  was (`VmDocker.VmDocker.Restore`, `VmDocker.VmDocker.CallsWhileDown`).
* `Run` does not look for an instance the VM already has; with one, two managers can end up
  holding the VM (`VmDocker.VmDocker.Run`, at an input: `VmDocker.VmDocker.SecondRunExample`).
* A failed walk of the workspace is reported only when it leaves a file incomplete; otherwise the
  checkpoint silently holds a part (`WorkspaceArchive.CompressDirectory`).
* `*` and `?` in a `public` entry never match a newline (`PublicGlob.AgreesEverywhereIffLiteral`;
  `PublicGlob.StarMissesNewline`).
* An exact `public` entry whose file the system cannot `Stat` is dropped with a warning, and an
  export succeeds without the file (`PublicCollection.CompleteExact`, `ModuleExport.ExportComplete`;
  `PublicCollection.StatExample`).
* An exact `public` entry with an empty or `.` element selects files the filter does not accept,
  or selects them twice (`PublicCollection.CollectionExact`; `PublicCollection.UncleanExample`).
  A glob whose base directory runs through a regular file makes the whole collection fail
  (`PublicCollection.CollectPublic`; `PublicCollection.BlockedExample`).
* The module reader takes some array elements `data` for the key (`ModuleTokens.FindsKeyExact`;
  `ModuleTokens.DecoyExample`) and then refuses the file (`ModuleText.DataTextExact`), and takes
  some truncated files for finished ones (`JsonStringGrammar.TruncatedEofExact`;
  `JsonStringGrammar.TruncatedExample`).
* A sandbox answer with a blank body loses its status (`StatusMarker.TrimmedOutputExact`;
  `StatusMarker.EmptyBodyIsLost`).
* Creating a registered sandbox again leaks its port
  (`SandboxManager.SandboxManager.CreateInstance`; `SandboxManager.LeakExample`).
* A VM spawned without a backend tag cannot be restored from its own checkpoint, and one with an
  empty environment comes back with that of the tags (`LaunchConfig.OwnCheckpointResolves`;
  `LaunchConfig.NoBackendExample`).
* A process id of several path elements can lose the workspace root
  (`WorkspacePaths.RootRoundTripExact`; `WorkspacePaths.PidExample`).

## Model

| member | source | states |
|---|---|---|
| `VmDocker.VmDocker.Restore` | vmdocker/vmdocker.go:411-534 | For every pattern of failing calls in which the clean-ups succeed. Success: the workspace is the unpacked archive plus layout directories, no staging directory is left, the backup is gone unless this call's removal of it failed, which leaves a part of the old tree there, and an instance is running with the checkpoint's agent state: in the old workspace, or for a VM without an instance in the one below the root its tags name; image, sandbox fields and environment are the checkpoint's where it has them and the tags' where it has none. Error: every directory is what it was, the workspace and the `-tmp` directory beside it up to layout directories added by relaunching, and a VM whose instance was running with a known agent state has it running in the same configuration, manager and agent state, if and only if the error is not that a sandbox was stopped and then could not be removed, which happens on the sandbox only; after that error it is registered as before with its agent down. For every pattern whatsoever: the old tree is whole under the workspace or the backup path at each step until the restored runtime is up, and to the end on an error. A VM whose agent is down cannot be restored; when no system call fails, a failed staging has the error the snapshot causes; a checkpoint of another format, of a backend that its specification contradicts, that is missing or that no manager serves, or for tags that give no specification, is refused with that error and changes nothing |
| `VmDocker.VmDocker.PlanMeans` | vmdocker/vmdocker.go:411-440 | Which checkpoints are refused before anything is touched, and with which error; for the others, the place and the specification a restore launches: the old workspace, or without an instance the one below the root of the tags |
| `VmDocker.SiblingNames` | vmdocker/runtimemanager/env.go:244-299 | The names the code gives the staging and the backup directory of any workspace other than the root are different from each other, from the workspace and from the `-tmp` directory: the conditions of a restore on its temporary names come down to their not being in use |
| `VmDocker.VmDocker.RestoreAndClean` | vmdocker/vmdocker.go:442-470 | The clean-up deferred first runs last: after it the staging directory is gone, in success and failure alike; on an error the VM is as it was, running if it was, except for the half-removed sandbox |
| `VmDocker.VmDocker.RestoreStaged` | vmdocker/vmdocker.go:457-534 | After a failure past staging, the swap is undone before the old runtime is brought back, so the relaunch finds the old tree; then what ran runs again in the same agent state. The half-removed sandbox is the one exception |
| `VmDocker.VmDocker.SwapAndLaunch` | vmdocker/vmdocker.go:499-534 | A failure before the swap leaves the directories alone; a failure after it leaves the old tree whole under the backup name and no instance of the VM |
| `VmDocker.VmDocker.LaunchAndCommit` | vmdocker/vmdocker.go:505-534 | After the swap: a launched runtime and a committed workspace, or no instance and the old tree whole under the backup name |
| `VmDocker.VmDocker.StopCurrent` | vmdocker/vmdocker.go:471-497 | Takes the agent state before removing the instance. On an error the instance is kept, running and in its agent state if it was, except that one whose sandbox was stopped and not removed has a dead agent; on success no manager holds the VM and the saved launch data is what was recorded. A dead agent gives no state and so changes nothing |
| `VmDocker.VmDocker.HandleRestoreFailure` | vmdocker/vmdocker.go:55-67 | Undoes the swap if there was one, and brings the previous runtime back, running, exactly when one was removed; whatever fails, the old tree survives each step |
| `VmDocker.VmDocker.RestoreRuntimeLaunch` | vmdocker/vmdocker.go:354-381 | Success: a running instance of the given configuration with the given agent state. Failure at any step: no manager holds the VM. Only the workspace and the `-tmp` directory beside it are touched, and only by adding layout directories |
| `VmDocker.RollbackTouched` | vmdocker/vmdocker.go:457-518 | Rolling back after a failed launch gives the workspace exactly its old tree, or its absence, whatever directories the failed launch had added to the new one |
| `VmDocker.CommitRestored` | vmdocker/vmdocker.go:528-534 | After the commit only the workspace, the `-tmp` directory beside it and the backup can differ from before; the backup is there exactly when there was an old tree and its removal failed, and is then a part of it |
| `VmDocker.VmDocker.TakeCheckpoint` | vmdocker/vmdocker.go:264-302 | Success: the checkpoint holds the recorded configuration, the agent state the agent answered and a snapshot of the workspace, and the VM runs again in the same configuration and in that agent state. A VM that was running well is as it was if and only if the call succeeded, or its error is neither that of the half-removed sandbox, which happens on the sandbox only, nor one of relaunching, after which it has no instance. A dead agent gives an error and no change |
| `VmDocker.VmDocker.ArchiveAndRelaunch` | vmdocker/vmdocker.go:383-409 | The archive is taken while no instance runs, and the instance is relaunched from the saved configuration and state whether or not the archive could be made; the archive's error, reported if and only if the walk left a file incomplete, says whether the relaunch succeeded |
| `VmDocker.VmDocker.Run` | vmdocker/vmdocker.go:164-246 | For any tags, on each call. Without an instance: success gives a running one on the backend the tags name (for an empty backend the sandbox on macOS and Windows, and Docker elsewhere), with the tags' environment, in the workspace of that root and process id, which holds what seeding makes of it; any failure leaves none. With an instance: one manager still holds the VM if and only if the tags name no manager, or name the one that holds it and that refuses or fails to create another; then the call fails and changes nothing. In every case nothing on the host outside that workspace and the `-tmp` directory beside it changes, and these only by layout directories when no instance was created |
| `VmDocker.VmDocker.Spawn` | vmdocker/vmdocker.go:186-246 | An instance whose workspace cannot be seeded, or that cannot be started, polled or spawned, is removed again; what is seeded is the new instance's workspace and nothing else |
| `VmRuntimes.Runtimes.HolderRefuses` | vmdocker/vmdocker.go:186-204 | A manager that holds the VM refuses another instance of it: Docker always, the sandbox when the tags ask for the name it has |
| `VmDocker.VmDocker.SecondRunExample` | vmdocker/vmdocker.go:164-205 | A VM restored from a sandbox checkpoint: every second `Run` with tags for Docker loses ownership, and a successful one leaves the VM on both managers |
| `VmDocker.VmDocker.RunCalls` | vmdocker/vmdocker.go:164-534 | Over every sequence of Run, each with its own tags, Checkpoint and Restore with any failing steps, up to the first failed clean-up or the first `Run` that the condition above calls unsafe: `instanceInfo` is set exactly when one manager holds the process id, never both, other VMs' instances are untouched, and an instance is running with a known agent state unless a sandbox was stopped and could not be removed |
| `VmDocker.VmDocker.CallsWhileDown` | vmdocker/vmdocker.go:264-534 | After that, every sequence of Checkpoint and Restore fails and changes nothing about the instance |
| `VmDocker.VmDocker.Round` | vmdocker/vmdocker.go:264-534 | A checkpoint and the restore of it, for a running VM with an explicit backend and a non-empty environment: the same configuration, manager and agent state, and, when the walk was complete, every file and folder of the workspace with at most layout directories more |
| `VmDocker.VmDocker.Rounds` | vmdocker/vmdocker.go:264-534 | The same for any number of rounds, each with its own temporary names |
| `VmDocker.FreshlyRecorded` | vmdocker/vmdocker.go:98-104 | A newly created instance is recorded with the root its own path gives back, so relaunching it resolves to the same workspace |
| `LaunchConfig.CurrentIsRecorded` | vmdocker/vmdocker.go:304-325 | The current configuration of a recorded instance is the recorded one; the tags play no part |
| `LaunchConfig.OwnCheckpointResolves` | vmdocker/vmdocker.go:327-352 | A VM's own checkpoint resolves if and only if its recorded backend is not empty; it then gives back the recorded specification, and the recorded environment if and only if that is not empty or the tags give none |
| `LaunchConfig.NoBackendExample` | vmdocker/vmdocker.go:327-352 | An instance recorded without a backend whose checkpoint is refused for its empty backend, whatever the tags give |
| `LaunchConfig.RoundKeepsConfig` | vmdocker/vmdocker.go:304-352 | One checkpoint and restore round keeps backend, image, sandbox fields, environment and workspace path |
| `LaunchConfig.RoundsKeepConfig` | vmdocker/vmdocker.go:304-352 | The same for any number of rounds |
| `LaunchConfig.RelaunchSameWorkspace` | vmdocker/vmdocker.go:934-957 | From any root, relative or absolute, resolving the root of a workspace's path gives that workspace again |
| `WorkspacePaths.RootRoundTripExact` | vmdocker/runtimemanager/env.go:71-93 | Root-from-path undoes workspace resolution for every root if and only if the process id cleans to one ordinary element, or to two below `..` |
| `WorkspacePaths.PidLosesRoot` | vmdocker/runtimemanager/env.go:71-93 | For every other process id, a root that is lost |
| `WorkspacePaths.PidExample` | vmdocker/runtimemanager/env.go:71-93 | The process id `a/b` turns the root `/r` into another directory |
| `WorkspacePaths.SingleElementFits` | vmdocker/runtimemanager/env.go:71-93 | An ordinary single path element is such a process id |
| `WorkspacePaths.ResolveElements` | vmdocker/runtimemanager/env.go:71-85 | The elements of the workspace path for every root and process id, the ones with `..` included |
| `WorkspacePaths.PlainWorkspace` | vmdocker/runtimemanager/env.go:71-85 | The path of a workspace for a process id of one element and any root: below the working directory without a root, below the root, or below it taken from the working directory |
| `WorkspacePaths.TmpDirBeside` | vmdocker/runtimemanager/env.go:91-97 | The directory for temporary files lies beside the workspace, under its name with `-tmp`, and is another directory |
| `WorkspaceRestore.Promote` | vmdocker/runtimemanager/env.go:289-319 | Success: the staged tree is at the workspace path and the old one at the backup path. Failure: nothing has changed. At every step in between, the old tree is whole under one of the two paths |
| `WorkspaceRestore.SwapIn` | vmdocker/runtimemanager/env.go:300-319 | The same for the renames alone, a failing second rename and the move back included |
| `WorkspaceRestore.Rollback` | vmdocker/runtimemanager/env.go:321-330 | Success: the backup, or nothing, is at the workspace path. At every step, failing ones included, the backed-up tree is whole under one of the two paths |
| `WorkspaceRestore.Commit` | vmdocker/runtimemanager/env.go:332-338 | Success: the backup is gone and nothing else changed. A failed removal changes nothing but the backup, of which a part is left |
| `WorkspaceRestore.RollbackUndoesPromote` | vmdocker/runtimemanager/env.go:289-340 | Promote and then rollback gives every directory as before promote, except the staged one |
| `WorkspaceRestore.RollbackUndoesLaterWrites` | vmdocker/runtimemanager/env.go:321-330 | The same whatever the workspace path holds at the time of the rollback |
| `WorkspaceRestore.CommitKeepsStaged` | vmdocker/runtimemanager/env.go:332-338 | Promote and then commit leaves exactly the staged tree at the workspace path and no backup |
| `WorkspaceRestore.CommitAfterRollback` | vmdocker/runtimemanager/env.go:289-340 | A commit after a rollback changes nothing |
| `WorkspaceRestore.StageRestore` | vmdocker/runtimemanager/env.go:234-265 | Success: a new sibling directory holds what the snapshot unpacks to. Failure: nothing is left, and without a system fault the error is the first of those the snapshot and a missing parent directory cause, in the order of the code; the root directory is refused |
| `WorkspaceRestore.DecodeExact` | vmdocker/runtimemanager/env.go:204-230 | Which snapshots are unpacked under a name and which error each of the others is refused with: another format, another name once blank names stand for `workspace`, no text, no archive |
| `WorkspaceRestore.CheckpointWorkspace` | vmdocker/runtimemanager/env.go:177-194 | The errors are exactly a blank path and a walk that left a file incomplete; otherwise the envelope holds the name itself, or `workspace` for a blank one, and, for a complete walk, an archive of exactly the workspace |
| `WorkspaceRestore.CheckpointStageRoundTrip` | vmdocker/runtimemanager/env.go:177-263 | Checkpoint and then stage under the same name, or two names that are both blank or `workspace`, gives the same tree plus layout directories, except when a regular file has a layout directory's name; any other name is refused |
| `WorkspaceRestore.RestoreWorkspace` | vmdocker/runtimemanager/env.go:271-287 | Success: exactly the unpacked tree at the workspace path, nothing else changed. Failure: nothing changed, or, when the backup could not be removed completely, what was left of it is back |
| `WorkspaceRestore.EnsureDirs` | vmdocker/runtimemanager/env.go:158-168 | Succeeds, short of faults, exactly when no directory's path runs through a regular file; it only adds layout directories |
| `WorkspaceRestore.LayoutExact` | vmdocker/runtimemanager/env.go:145-156 | The paths a workspace has after its layout is made, and which regular files are in the way |
| `WorkspaceRestore.NormalizeExact` | vmdocker/runtimemanager/env.go:196-205 | A path is refused if and only if it is the root directory under some spelling; any other is made absolute and clean |
| `WorkspaceRestore.SiblingPaths` | vmdocker/runtimemanager/env.go:244-246 | The staging and the backup directory lie beside the workspace, each under a name of its own |
| `VmDocker.NormalizedName` | vmdocker/runtimemanager/env.go:170-175 | Normalising a checkpoint name twice is normalising it once, so the name the VM passes on decodes the same snapshot |
| `WorkspaceArchive.CompressDirectory` | vmdocker/utils/zip.go:19-83 | A walk that goes through gives one member for each path below the directory, folders as folders and files with their bytes. An error is reported if and only if the walk stopped with bytes of a file missing that its header had announced; any other failure of the walk gives a part of the archive and no error |
| `WorkspaceArchive.DecompressToDirectory` | vmdocker/utils/zip.go:85-160 | Without faults, exactly the tree, or exactly the first error, of extracting the members in order |
| `WorkspaceArchive.ExtractMember` | vmdocker/utils/zip.go:107-157 | One member, through both path guards |
| `WorkspaceArchive.ArchiveRoundTrip` | vmdocker/utils/zip.go:19-160 | Every tree of folders, empty ones included, and regular files is rebuilt exactly in an empty directory, for every order of its members |
| `GoPaths.TarGuardExact` | vmdocker/utils/zip.go:118-123 | The first guard lets a name through if and only if it is relative and cleans to ordinary elements only |
| `GoPaths.TarTargetInside` | vmdocker/utils/zip.go:118-130 | The joined target of such a name is below every clean absolute destination, and its relative path is the cleaned name: the second guard never fires |
| `GoPaths.ZipGuardExact` | vmdocker/capability/zip.go:72-75 | The zip guard lets a name through if and only if it is relative and cleans to a non-empty list of ordinary elements |
| `GoPaths.ZipTargetInside` | vmdocker/capability/zip.go:72-79 | The joined target of such a name is strictly below every clean non-root destination, without `..`: the second guard never fires |
| `GoPaths.CleanRules` | vmdocker/capability/zip.go:72-76 | The rules by which Go documents `Clean`: empty and `.` elements go, an inner `..` goes with the element in front of it, and a `..` at the root goes |
| `GoPaths.CleanIdempotent` | vmdocker/capability/zip.go:72-76 | Cleaning a cleaned path changes nothing |
| `GoPaths.TextSegments` | vmdocker/utils/zip.go:118-124 | A clean path reads back as its own elements |
| `PortAllocator.Allocator.Allocate` | vmdocker/runtimemanager/portallocator.go:24-35 | The least usable port, which is then in use; fails if and only if no port is usable |
| `PortAllocator.Allocator.Release` | vmdocker/runtimemanager/portallocator.go:37-41 | The port is no longer in use, and no other changes |
| `DockerManager.DockerManager.CreateInstance` | vmdocker/runtimemanager/docker.go:148-208 | Success: the new instance is recorded with the least usable port, its container is there, and its workspace has the whole layout and the `-tmp` directory beside it. Every error path gives the port back and leaves instances, containers and ports as before. A registered process id is always an error, since the daemon refuses its container name |
| `DockerManager.DockerManager.RemoveInstance` | vmdocker/runtimemanager/docker.go:221-238 | Success removes exactly this instance and its container and frees exactly its port; an error changes nothing; "not found" if and only if it is not registered |
| `DockerManager.DockerManager.StartInstance` | vmdocker/runtimemanager/docker.go:240-252 | Success changes exactly the status; an error changes nothing |
| `DockerManager.DockerManager.StopInstance` | vmdocker/runtimemanager/docker.go:254-271 | Success changes exactly the status; an error changes nothing |
| `DockerManager.RunOperations` | vmdocker/runtimemanager/docker.go:148-271 | Over every run with any failing calls, the ports in use are exactly those of the registered instances, all different and in range |
| `SandboxManager.SandboxManager.CreateInstance` | vmdocker/runtimemanager/sandbox.go:47-124 | As for Docker, but a registered process id is not refused: after a success the ports balance if and only if they did before and the id was not registered; otherwise the old instance's port is in use with no instance to it. What the instance will be launched with is recorded with it |
| `SandboxManager.LeakExample` | vmdocker/runtimemanager/sandbox.go:47-124 | One process id created twice under two sandbox names: two successes lose the first port |
| `SandboxManager.DefaultNamesCollide` | vmdocker/runtimemanager/sandbox.go:126-132 | Without names of their own, two instances ask for the same sandbox if and only if they are one process or their ids share the first ten characters |
| `VmRuntimes.Runtimes.ManagerExact` | vmdocker/runtimemanager/runtime.go:35-85 | Which backend names each manager serves on each system; every other name has none |
| `SandboxManager.SandboxManager.RemoveInstance` | vmdocker/runtimemanager/sandbox.go:208-231 | Success removes the instance, its launch specification and its port; every error leaves these as they are, and a removal that fails after the sandbox was stopped leaves it stopped |
| `SandboxManager.SandboxManager.StartInstance` | vmdocker/runtimemanager/sandbox.go:145-190 | What is run in the instance's sandbox is the entry point of the recorded image, in the recorded environment and workspace; success changes exactly the status, and an image with neither entry point nor command, and every other error, changes nothing |
| `SandboxManager.SandboxManager.StopInstance` | vmdocker/runtimemanager/sandbox.go:192-206 | Success changes exactly the status; an error changes nothing |
| `SandboxManager.RunOperations` | vmdocker/runtimemanager/sandbox.go:47-231 | Over every run that creates no registered id again: the ports in use are exactly those of the instances, no two share one, and each instance has a launch specification with its image, environment and workspace |
| `ShellQuoting.EscapeCommand` | vmdocker/runtimemanager/sandbox.go:410-416 | The append loop gives the quoted arguments joined by blanks, whose tokens are exactly the arguments |
| `ShellQuoting.BuildLaunchCommand` | vmdocker/runtimemanager/sandbox.go:400-408 | An error if and only if there is nothing to run; otherwise the shell reads the whole text as a background list: `mkdir -p` of the temporary directory, and if that succeeds one command of exactly the entry point followed by the arguments, with output to the log file there and error output to the same place |
| `ShellQuoting.LaunchReadsBack` | vmdocker/runtimemanager/sandbox.go:407 | The same for every non-empty list of arguments, read by sections 2.2, 2.3, 2.6.2, 2.7 and 2.9 of the Shell Command Language (IEEE Std 1003.1-2017) |
| `ShellQuoting.CommandRoundTrip` | vmdocker/runtimemanager/sandbox.go:410-423 | Tokenising the quoted command gives exactly the arguments, whatever they contain |
| `ShellQuoting.ArgReadsBack` | vmdocker/runtimemanager/sandbox.go:418-423 | A quoted argument in front of any text is read as one word with the argument's characters |
| `StatusMarker.ParseCurlOutput` | vmdocker/vmdocker.go:873-885 | Splits at the last marker; errors for a missing marker and for a code that is no number |
| `StatusMarker.AtoiExact` | vmdocker/vmdocker.go:878-882 | The status is read exactly from the decimal numbers of 64 bits, with any leading zeros and an optional sign |
| `GoStrings.SpaceTable` | vmdocker/runtimemanager/sandbox.go:339-346 | White space is the Unicode property `White_Space` |
| `GoStrings.TrimSpaceExact` | vmdocker/runtimemanager/sandbox.go:339-346 | Trimming takes exactly the white space at both ends away |
| `StatusMarker.SuffixParsesBack` | vmdocker/vmdocker.go:864-885 | For every body, one that contains the marker included, parsing body, marker and decimal code gives back code and body |
| `StatusMarker.TrimmedOutputParse` | vmdocker/runtimemanager/sandbox.go:346 | What the trim of the command output makes of it: white space in front of the body is lost, and a blank body loses the marker with it |
| `StatusMarker.TrimmedOutputExact` | vmdocker/runtimemanager/sandbox.go:346 | Trim and parse give back code and body if and only if the body starts with a character that is no white space |
| `StatusMarker.EmptyBodyIsLost` | vmdocker/runtimemanager/sandbox.go:333-353 | An answer with status 200 and no body is read as one without a status |
| `JsonStringReader.StringReader.Read` | vmdocker/module_image.go:410-471 | For every buffer: fills it with the next bytes of the pure decoding and keeps the rest, or delivers all that is left with the error that ends the text; at the end of the string the file stands right behind the quote |
| `JsonStringReader.StringReader.ReadThrough` | vmdocker/module_image.go:410-471 | For every sequence of buffer sizes, the outputs together are a prefix of the pure decoding, all of it if and only if an error is reported |
| `JsonStringReader.StringReader.DecodeEscape` | vmdocker/module_image.go:517-540 | One escape, as the pure decoder takes it |
| `JsonStringReader.StringReader.ReadUnicodeEscape` | vmdocker/module_image.go:542-581 | One `\u` escape, a surrogate pair included, as the pure decoder takes it |
| `JsonStringReader.StringReader.ConsumeStart` | vmdocker/module_image.go:484-515 | Accepts exactly a colon and an opening quote with white space around, and leaves the reader at the first character of the string |
| `JsonStringGrammar.ClosedExact` | vmdocker/module_image.go:410-471 | The decoder reaches a closing quote if and only if the text is a sequence of the grammar's pieces and a quote, and then delivers exactly their meaning |
| `JsonStringGrammar.PrintDecodes` | vmdocker/module_image.go:410-581 | Every legal spelling of every string (section 7 of RFC 8259) decodes to the UTF-8 of its characters |
| `JsonStringGrammar.PrintReadsBack` | vmdocker/module_image.go:410-581 | Reading back what was printed, in any spelling, is the identity |
| `JsonStringGrammar.TruncatedEofExact` | vmdocker/module_image.go:517-581 | Without a closing quote the reader reports a normal end if and only if the file stops right after `\u`, or between a surrogate half and its partner's digits |
| `JsonStringGrammar.TruncatedExample` | vmdocker/module_image.go:542-581 | A file that ends in `a\u` reads as the finished string `a` |
| `Unicode.PairRoundTrip` | vmdocker/module_image.go:556-576 | The two halves of every supplementary character combine to it (section 2.2 of RFC 2781) |
| `Unicode.Utf8RoundTrip` | vmdocker/module_image.go:450-468 | UTF-8 encoding (section 3 of RFC 3629) is undone by decoding, for every list of characters |
| `ModuleTokens.FindDataKey` | vmdocker/module_image.go:353-401 | The two-variable loop stops where the scan over the tokens first stops |
| `ModuleTokens.ScanExact` | vmdocker/module_image.go:353-401 | The scan of every object document stops at its first key `data` or first decoy, whichever is earlier, or not at all when it has neither. A decoy is an array element `data` behind an odd run of strings at the start of its array, or behind an even one that follows another element |
| `ModuleTokens.FindsKeyExact` | vmdocker/module_image.go:353-401 | It stops right behind the first key `data` in document order, and reports "not found" when there is none, if and only if no decoy comes first |
| `ModuleTokens.FindsKeyWithoutDataElements` | vmdocker/module_image.go:353-401 | That holds of every document whose arrays have no direct element `data`, at any depth, which covers the bundle items |
| `ModuleTokens.DecoyExample` | vmdocker/module_image.go:384-394 | A document whose decoy is taken for the key |
| `ModuleTokens.KeysTracked` | vmdocker/module_image.go:353-401 | In every document whose arrays have no direct string elements, a key is expected at every key and at no string value |
| `ModuleText.NewModuleDataReader` | vmdocker/module_image.go:353-482 | A reader exactly when a colon and a quote follow the token the scan stops at, in front of the first character of that string |
| `ModuleText.DataTextExact` | vmdocker/module_image.go:353-515 | For every object document written as bytes, with any white space between its tokens and any legal spelling of its strings, keys included: a string is found if and only if the first key `data` in document order has a string value and no decoy comes before it, and decoding it gives the UTF-8 of exactly that value |
| `ModuleText.ReadModuleData` | vmdocker/module_image.go:353-482 | Opening such a file and reading it with any buffer sizes delivers exactly those bytes, or a prefix of them when the buffers are too small; a decoy before the key makes the opening fail |
| `PublicGlob.CompilerExact` | vmdocker/capability/publicmatch.go:85-90 | For every glob and path, quoting and the two text replacements give a regexp that accepts exactly what the glob means when wildcards do not match a newline |
| `PublicGlob.CompiledItems` | vmdocker/capability/publicmatch.go:85-90 | For every glob, with backslashes and metacharacters, the rewritten text always parses, to one item for each character between the anchors |
| `PublicGlob.CompilerPreservesMeaning` | vmdocker/capability/publicmatch.go:85-90 | On newline-free paths, the regexp accepts exactly what the documented glob means |
| `PublicGlob.AgreesEverywhereIffLiteral` | vmdocker/capability/publicmatch.go:85-90 | It does so on all paths if and only if the glob has no wildcard |
| `PublicGlob.StarMissesNewline` | vmdocker/capability/publicmatch.go:12-14 | `a*` does not select the file named `a` and a newline, against its documentation |
| `PublicPatterns.CompilePatterns` | vmdocker/capability/publicmatch.go:30-71 | Accepted patterns and warnings are those of each entry, in order |
| `PublicPatterns.ClassifyExact` | vmdocker/capability/publicmatch.go:30-71 | Which entries are accepted, as which pattern, and with which warning each other one is skipped: no leading `~/`, nothing behind it and its further slashes, a `..` element, or a wildcard in the first element |
| `PublicPatterns.AcceptedProper` | vmdocker/capability/publicmatch.go:30-71 | Each entry gives one pattern or one warning; no accepted pattern is empty, absolute, has a `..` element, or is a glob at the level of HOME |
| `PublicPatterns.ComputeLiteralBaseDir` | vmdocker/capability/publicmatch.go:96-105 | The elements in front of the first one with a wildcard |
| `PublicPatterns.MatchUnderBase` | vmdocker/capability/publicmatch.go:96-115 | Every path a glob accepts starts with the elements of its literal base and has at least one more |
| `PublicPatterns.GlobStaysBelow` | vmdocker/capability/publicmatch.go:48-57 | An accepted glob selects no file directly in HOME: what it accepts lies strictly below its base, which is not HOME |
| `PublicPatterns.MatchesAnyPublic` | vmdocker/capability/publicmatch.go:107-116 | True if and only if some pattern accepts the path |
| `PublicCollection.CollectPublic` | vmdocker/capability/collect.go:50-67 | One entry for each remembered key of the entries that took part, with the path, size and hash of its file, sorted by path, their sizes summing to the total; an exact entry whose `Stat` fails does not take part and is said to match nothing. The warnings are exactly those of the rejected, the failed and the fruitless entries. An error only when a glob's base runs through a regular file, and then always, or when another system call fails |
| `PublicCollection.CompleteExact` | vmdocker/capability/collect.go:74-90 | What was collected in spite of failing `Stat` calls is the collection of all entries if and only if every file whose `Stat` failed is selected by an entry that took part |
| `PublicCollection.MissingIsWarned` | vmdocker/capability/collect.go:60-62 | Every selected file that is missing belongs to an exact entry with a "matched no files" warning; without such a warning none is missing |
| `PublicCollection.StatExample` | vmdocker/capability/collect.go:77-79 | The declared file `a` is there, its `Stat` fails, and the collection succeeds without it |
| `PublicCollection.BlockedExample` | vmdocker/capability/collect.go:92-122 | A home whose only file is `a`, and an accepted glob below `a/b`, for which the collection fails |
| `PublicCollection.Collector.CollectGlob` | vmdocker/capability/collect.go:92-122 | The pruned walk remembers exactly the files the glob accepts, and reports a match if and only if there is one |
| `PublicCollection.Collector.CollectExact` | vmdocker/capability/collect.go:73-90 | Remembers the file under the entry's own text; a directory is a warning and no match, and a failing `Stat` is no match and no error |
| `PublicCollection.Collector.CollectOne` | vmdocker/capability/collect.go:125-151 | Appends the path, size and hash of exactly this file and adds its size |
| `PublicCollection.WalkFindsAll` | vmdocker/capability/collect.go:92-122 | Walking only below the literal base misses no file the glob accepts |
| `PublicCollection.CollectionExact` | vmdocker/capability/collect.go:50-123 | The entries are exactly the files `matchesAnyPublic` accepts, each once, strictly sorted by path, if and only if no exact entry with an empty or `.` element selects a file |
| `PublicCollection.UncleanExample` | vmdocker/capability/collect.go:84-87 | `~/a//b` selects the file `a/b`, which the filter built from it does not accept |
| `PublicCollection.CollectionsAgree` | vmdocker/capability/collect.go:50-123 | The result depends on the selected files alone, not on the order of the walk |
| `PublicEntries.SortFacts` | vmdocker/capability/collect.go:65 | Sorting by path keeps the entries and their total size |
| `GoStrings.LessExact` | vmdocker/capability/collect.go:65 | The order of the paths: a text is less than another if and only if it is a proper beginning of it or is less at the first difference |
| `PublicEntries.OneOrder` | vmdocker/capability/collect.go:65 | When paths tell the entries apart, there is only one sorted order |
| `PublicZip.BuildPublicZip` | vmdocker/capability/zip.go:19-43 | A zip of exactly the files this collection found, by path and in order, with their contents; its collection can lack a file of a failing `Stat` as well |
| `PublicZip.UnpackPublicZip` | vmdocker/capability/zip.go:56-95 | On every run at most `max + 1` bytes are written. Success: the tree is that of unpacking the members in order, the bytes written are their sizes, at most `max` in all, and every member that is no directory is no symlink and has a relative name of ordinary elements. Without faults, an error is the first one the members cause |
| `PublicZip.UnpackMember` | vmdocker/capability/zip.go:66-93 | One member: folders are skipped, symlinks and escaping names are refused, and the budget that is left never becomes negative |
| `PublicZip.WritePublicFile` | vmdocker/capability/zip.go:97-114 | Copies at most one byte more than the budget; "too large" only for contents above it |
| `PublicZip.UnpackedContents` | vmdocker/capability/zip.go:66-93 | After a success each target holds the data of the last member written to it, every other file is unchanged, and the only new paths are targets and folders above them |
| `PublicZip.UnpackedSum` | vmdocker/capability/zip.go:65-93 | After a success the expanded sizes sum to at most the limit |
| `ModuleExport.PackModule` | vmdocker/modulebuild/module.go:47-81 | Image, profile and, when there is one, public.zip, in this order; an empty image or profile is refused |
| `ModuleExport.Export` | vmdocker/capability/export.go:44-92 | Without faults other than a failing `Stat`, an error if and only if a check refuses the workspace, and then that of the first such check: no profile, an unreadable one, no image, a malformed entry, a blocked walk, an empty profile. Otherwise the module holds image, profile and a zip of exactly what the second collection found, beside the first collection and its warnings |
| `ModuleExport.ExportComplete` | vmdocker/capability/export.go:65-92 | The module holds every declared file if and only if the second collection lost none to a failing `Stat`, and it is the complete module the preview describes if and only if neither did |
| `ModuleExport.PackedWithoutFailures` | vmdocker/capability/export.go:65-92 | Without a failing `Stat` it is, and the zip holds exactly the entries of the preview |
| `ModuleExport.MembersReadBack` | vmdocker/module_image.go:235-319 | Image and profile of an exported module read back byte for byte, if and only if they are within their limits |
| `ModuleExport.ExtractMember` | vmdocker/module_image.go:277-319 | The first member of the name, unless it exceeds the limit or its copy through the temporary file fails |
| `ModuleExport.SeedWorkspaceFromModule` | vmdocker/module_image.go:603-666 | Without faults, exactly the tree, or exactly the first error, of writing the profile and unpacking the zip in the order of the members; a module without a profile is an error; other formats change nothing |
| `SeededWorkspace.SeedExactly` | vmdocker/module_image.go:603-666 | A workspace whose files, if any, are those of the exported one, and whose folders are arbitrary, is seeded from an exported module if and only if profile, zip and expanded files are within their limits and no folder stands where a file is to be written; it then gains exactly the profile, the collected files and the folders above them. Otherwise, the limit that is reported |
| `SeededWorkspace.ExportSeedFixedPoint` | vmdocker/capability/export.go:44-92 | For every complete module of a workspace and every such workspace seeded from it: the seeded one is accepted too, and a complete export of it with the same image gives the same entries, hashes and sizes and the same module |
| `SeededWorkspace.LayoutFits` | vmdocker/runtimemanager/env.go:145-156 | A new workspace with its layout directories is one of these, whether or not the exported one has them |
| `ModuleImage.ImageStore.EnsureAvailable` | vmdocker/module_image.go:30-65 | In every local image store and for every failing command: success for a module image means that the name resolves to the expected ID; a load is attempted only when the name did not match and tagging by ID failed; without a load no other name changes. An image without source and format is available as it is, and one of another source, another format or without a Docker CLI is refused with its own error, with the store untouched. Without faults, the outcome for every store |
| `ModuleImage.ImageStore.EnsureTaggedByID` | vmdocker/module_image.go:92-112 | Success means that the name resolves to the ID; only this name may change |
| `ModuleImage.TagByIDExact` | vmdocker/module_image.go:92-112 | When tagging by ID can succeed |
| `ModuleImage.GoodArchiveSuffices` | vmdocker/module_image.go:30-65 | A module whose archive holds the expected image always becomes available, when no command fails and the image's name is not itself an ID |

## Left out

- VmDocker.VmDocker.Restore: what is left of the runtime is stated for runs in which the clean-up actions themselves succeed, because the code drops their errors; after a failure that relaunched the old runtime the workspace may have gained layout directories, as creating an instance makes them.
- VmDocker.VmDocker.TakeCheckpoint: when the relaunch after archiving fails the VM is left without an instance, as in the code; the snapshot is complete only for a walk that goes through.
- VmDocker.VmDocker.RunCalls: `Close` is not part of a run; runs end before it. Tags are taken to give a specification with some field that is not blank (the code asks for an image name that is not empty), the working directory to be absolute and clean, and a restore whose temporary names are in use already is skipped, since the operating system and the clock give new ones. A run ends with a failed clean-up, and with a `Run` that is not safe.
- VmDocker.VmDocker.Run: seeding is any function of the workspace's tree here; what the code's does is what `ModuleExport.SeedWorkspaceFromModule` says.
- VmDocker.VmDocker.Rounds: the conditions are those `LaunchConfig.OwnCheckpointResolves` shows to be needed.
- Instances that fail or are changed from outside while no call is running: an agent goes down only through the calls of this VM. A command that reports failure is taken to have had no effect, except where two commands make one step. So a forced removal of a Docker container that kills it and then fails is not modelled: that a VM on Docker is as it was after every failed call rests on this.
- LaunchConfig.RoundsKeepConfig: for an explicit backend and a non-empty environment, the conditions `LaunchConfig.OwnCheckpointResolves` shows to be needed.
- WorkspaceArchive.ArchiveRoundTrip: for walks that go through, because the code drops the error of most others.
- SandboxManager.RunOperations: for runs that create no registered process id again, the condition `SandboxManager.SandboxManager.CreateInstance` shows to be needed.
- PublicZip.UnpackPublicZip: a member whose stored bytes are damaged (a failing open or checksum) counts as a zip that does not parse or as a failing write.
- ModuleExport.Export: tags, signing, the SHA-256 tag and the creation time of a module; files the agent changes between the two collections of one export.
- ModuleExport.SeedWorkspaceFromModule: resolving the module file by its ID, and the base64 and container layers between the string that `ModuleText` reads and the members.
- ModuleText.DataTextExact: what the JSON library makes of malformed documents, of lone surrogates and of invalid UTF-8; numbers are written as any run of their characters.
- ModuleImage.ImageStore.EnsureAvailable: the store changes only through the commands of this call.
- Aliasing of `InstanceInfo` values between a manager and the VM: statuses are updated in the manager's map.
- Nesting of host directories: the paths of one transaction are taken to be different directories none of which contains another, and temporary names to be unused (`VmDocker.SiblingNames`).
- Timeouts, polling intervals, tickers, contexts, mutexes and concurrent calls.
- The sandbox request file, written and removed again below `.tmp`: only its directory is modelled.
- File modes, ownership, symlinks, timestamps and special files; reader errors other than the end of the file.
- Size limits of the regexp library, and the byte formats of tar, gzip, zip, base64 and TOML.
- Container and sandbox configuration, mounts, environment defaults, image pulling and the node confinement check.
- `Apply` and the capability actions, `CreateAt`, logging, `cmd/`, scripts and configuration loading: no further state of the kind proved here.
