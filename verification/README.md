# py-all-in-one build script: bundle and relink model

`packages/build.py` builds a relocatable Python environment. It compiles an
interpreter under an install prefix and creates a virtual environment next
to it. It copies the host shared libraries the environment needs, together
with the host dynamic linker, into a bundled `system_lib/<project>` directory.
Then it rewrites the library search path (rpath) and the program interpreter
of every shared object, interpreter and third-party program so that they load
from that bundle. Finally it writes an install script from a template.

This project models the decisions inside that plumbing:

- **Paths.** How a builder derives its paths from the prefix, the version,
  the project name and the machine (`PythonBuildBase.__init__`): the bundled
  library directory, the host linker and its bundled copy, the main and
  virtual environments, and the archive names (`BundleLayout`, on top of
  `posixpath`'s `dirname`, `basename` and `join` in `PosixPath`).
- **ELF check.** `_is_elf_file` over an abstract file system, a map from path
  to `File(bytes, mode) | Dir | Symlink(target)` (`ElfDetect`, `FileSystem`).
- **Library collection.** The line loop of `pack_library`: blank lines are
  skipped and links are followed one level; every other line is copied,
  content and permission bits, into the bundle under its own file name
  (`Collector`). The loop is a method updating the tree.
- **Relinking.** `_patchelf_operator` and the three loops of
  `change_elf_property`, each a method appending to a log of `patchelf`
  commands and proved equal to a recursive specification (`Relinker`).
- **Small string functions.** The version list (`get_python_version`), the
  builder chosen by version (the script's entry point), and the placeholder
  substitution of the install script (`Versions`). They rest on Python 2
  string semantics in `Text`: `find`, `rfind`, slicing with negative bounds,
  `strip`, `readlines`, `join`, `split` and `replace`.

Where the model follows the code rather than a description of it:

- **Short files in `_is_elf_file`.** The check compares `magic[0] != 127 or
  magic[1] != ord('E') or ...` from left to right and stops at the first
  mismatch. A file shorter than four bytes therefore raises `IndexError`
  only when every byte it has matches the start of the magic; the empty file
  is one of these. Any other short file is simply not ELF. `IsElf` returns
  `Err(MagicIndexError)` or `Ok(false)` accordingly.
- **The linker line.** The host linker path is appended to the pipeline's
  output without a newline of its own, so it becomes the last line only
  when that output is empty or ends in a newline (`LinkerProcessedLast`).
- **The doubled join.** The third-party loop relinks
  `join(bin, join(bin, name))` exactly as written. It is the path the ELF
  check looked at whenever `bin` is absolute (`ThirdPartyAbsolute`).

## Model

| member | source | states |
|---|---|---|
| Text.SplitLines | packages/build.py:232 | `readlines`; its properties are SplitLinesConcat, SplitLinesNonEmpty, SplitLinesEnds, SplitLinesInner, SplitLinesSingle and SplitLinesAppendLast |
| Text.JoinWith | packages/build.py:274 | `':'.join`; its inverse is stated by SplitJoinWith and JoinWithSplit |
| Text.ReplaceAll | packages/build.py:379-381 | `str.replace`; its properties are ReplaceAbsent, ReplaceKeeps and ReplaceFirst |
| PosixPath.Join | packages/build.py:130 | `posixpath.join`; its properties are BaseNameJoin, DirNameJoin, JoinKeepsAbsolute, JoinAbsoluteSecond and JoinWithSeparator |
| ElfDetect.IsElf | packages/build.py:288-307 | `_is_elf_file`; its contract is stated by IsElfClassifies |
| BundleLayout.LinkerSource | packages/build.py:134-137 | the host linker by machine; stated by LinkerChoice and LinkerName |
| BundleLayout.SystemLibDir | packages/build.py:130 | the bundled library directory; stated by SystemLibShape, LinkerCopyPlacement and AbsolutePrefix |
| BundleLayout.LinkerCopy | packages/build.py:138 | the bundled linker's path; stated by LinkerCopyPlacement |
| BundleLayout.EnvRootDir | packages/build.py:141 | the version directory; stated by EnvironmentPaths and MainInsideVirtual |
| BundleLayout.VirtualEnvDir | packages/build.py:144 | the virtual environment; stated by EnvironmentPaths, VirtualInRoot and MainInsideVirtual |
| BundleLayout.MainEnvDir | packages/build.py:147 | the main environment; stated by EnvironmentPaths and MainInVirtual |
| BundleLayout.MainLibDir | packages/build.py:148 | the main environment's library directory; stated by EnvironmentPaths and AbsolutePrefix |
| BundleLayout.MakeLayout | packages/build.py:103-161 | the paths a builder derives; stated by the BundleLayout lemmas (SystemLibShape, EnvironmentPaths, LinkerCopyPlacement among them), PackagePathLists, VirtualArchiveName, SystemLibArchiveName and LinkerDestinationAgrees |
| Versions.VersionOf | packages/build.py:80 | the version cut out of a package name; stated by VersionOfPackageFile and VersionOfWithoutExtension |
| Versions.InstallScript | packages/build.py:377-381 | the three replacements in order; stated by InstallScriptNoPlaceholders, InstallScriptFillsArchive and InstallScriptFillsDirectory |
| Collector.CopySource | packages/build.py:239-243 | the copy source: a link followed one level, anything else in place; stated through CopyLine and CollectLastWriter |
| Collector.CopyDestination | packages/build.py:247 | the bundle path named after the line; stated by LinkerDestinationAgrees and CollectCopiesEvery |
| Collector.Collect | packages/build.py:232-249 | the collection loop as a recursion; stated by PackLibrary, CollectAppend, CollectFrame, CollectCopiesEvery and CollectLastWriter |
| Relinker.Patchelf | packages/build.py:253-286 | `_patchelf_operator`; its contract is stated by PatchelfCommands |
| Relinker.SoLine | packages/build.py:322-331 | one line of the `.so` pass; stated by SoLineRelinks |
| Relinker.SoPass | packages/build.py:320-331 | the `.so` pass; stated by RelinkSharedObjects, SoPassTargets and SoPassComplete |
| Relinker.InterpreterRun | packages/build.py:335-337 | one `bin` listing of the interpreter pass; stated by RelinkListing, InterpreterRunTargets and InterpreterRunComplete |
| Relinker.ThirdPartyEntry | packages/build.py:342-344 | one entry of the third-party pass; stated by ThirdPartyEntryRelinks |
| Relinker.ThirdPartyRun | packages/build.py:341-344 | the third-party pass; stated by RelinkThirdPartyBinaries, ThirdPartyTargets and ThirdPartyComplete |
| Relinker.ChangeElf | packages/build.py:310-344 | `change_elf_property`; stated by ChangeElfProperty, ChangeElfPointsAtBundle and ChangeElfStartsWithSharedObjects |
| Text.FindChar | packages/build.py:80 | `find` of a character: -1 or an index holding it, with no earlier index holding it |
| Text.RFindChar | packages/build.py:138 | `rfind` of a character: -1 or an index holding it, with no later index holding it |
| Text.RFind | packages/build.py:80 | `rfind('.tgz')`: -1 or a start of an occurrence, with no occurrence starting later |
| Text.RFindAbsent | packages/build.py:80 | a name without ".tgz" makes `rfind` return -1 |
| Text.SliceBound | packages/build.py:80 | a slice bound is counted from the end when negative and clamped into the text |
| Text.Slice | packages/build.py:80 | an in-range slice is the subsequence between its bounds; no slice is longer than the text |
| Text.SliceToLast | packages/build.py:80 | unfolding of `Slice`: a slice ending at -1 stops one character before the end |
| Text.Strip | packages/build.py:234 | `strip()` gives the empty text exactly for all-whitespace input, and otherwise starts and ends with a non-space |
| Text.StripPiece | packages/build.py:234 | what `strip()` keeps is the piece of the line between a whitespace prefix and a whitespace suffix; with `Strip`'s non-space ends this fixes the stripped path |
| Text.StripTrimmed | packages/build.py:234 | a text with no whitespace at either end is its own `strip()` |
| Text.SplitLinesConcat | packages/build.py:232 | the lines `readlines` gives concatenate back to the file's text |
| Text.SplitLinesNonEmpty | packages/build.py:232 | no line `readlines` gives is empty |
| Text.SplitLinesEnds | packages/build.py:232 | every line but the last ends in a newline |
| Text.SplitLinesInner | packages/build.py:232 | no line holds a newline before its last character |
| Text.SplitLinesSingle | packages/build.py:229 | a non-empty text without a newline reads back as one line |
| Text.SplitLinesAppendLast | packages/build.py:228-232 | a newline-free text written after a text that is empty or ends in a newline is read back as exactly one extra last line |
| Text.Split | packages/build.py:274 | `split`, the reference inverse used to read back the colon-joined search path (the script itself never splits): splitting always gives at least one piece |
| Text.SplitPiece | packages/build.py:274 | `split`, the reference inverse used to read back the colon-joined search path (the script itself never splits): no piece of a split holds the separator |
| Text.SplitPlain | packages/build.py:274 | `split`, the reference inverse used to read back the colon-joined search path (the script itself never splits): a text without the separator splits into itself alone |
| Text.SplitAfter | packages/build.py:274 | `split`, the reference inverse used to read back the colon-joined search path (the script itself never splits): the first piece of a split ends at the first separator |
| Text.SplitJoinWith | packages/build.py:274 | a colon-joined search path splits back into its directories when none holds a colon (the script only joins; the split is the reference inverse) |
| Text.JoinWithSplit | packages/build.py:274 | joining the pieces of a split with the separator gives back the text |
| Text.ReplaceAbsent | packages/build.py:379-381 | `replace` leaves a text without the placeholder unchanged |
| Text.ReplaceKeeps | packages/build.py:379-381 | `replace` keeps a prefix in which no occurrence starts, and carries on after it |
| Text.ReplaceHit | packages/build.py:379-381 | unfolding of `ReplaceAll`: an occurrence at the start is replaced, and scanning resumes after it |
| Text.ReplaceFirst | packages/build.py:379-381 | `replace` keeps the text before the first occurrence, puts the replacement in its place, and resumes after it |
| Text.ReplaceMiss | packages/build.py:379-381 | unfolding of `ReplaceAll`: where no occurrence starts, the first character is kept and scanning moves on by one |
| PosixPath.RStripSlashes | packages/build.py:239 | the result is a prefix of the input, only slashes were removed, and it does not end in a slash |
| PosixPath.BaseName | packages/build.py:138 | `basename` is a slash-free suffix of the path, preceded by a slash unless it is the whole path |
| PosixPath.DirName | packages/build.py:239 | `dirname` is a prefix of the path, empty exactly when the path has no slash |
| PosixPath.DirNameValue | packages/build.py:239 | `dirname` is the text before the base name with its trailing slashes removed, kept whole when it is made of slashes only |
| PosixPath.BaseNameJoin | packages/build.py:138 | the last component of a join is the joined slash-free name |
| PosixPath.BaseNameAfterSlash | packages/build.py:135-138 | the basename of a name written after a slash is that name |
| PosixPath.DirNameJoin | packages/build.py:144-147 | the directory of a joined path is the directory joined onto |
| PosixPath.JoinKeepsAbsolute | packages/build.py:130 | joining onto an absolute path gives an absolute path |
| PosixPath.JoinAbsoluteSecond | packages/build.py:344 | unfolding of `Join`: joining an absolute second path gives back that path |
| PosixPath.JoinWithSeparator | packages/build.py:141 | unfolding of `Join`: joining a relative name onto a directory without a trailing slash inserts exactly one slash |
| FileSystem.Follow | packages/build.py:327 | resolving links ends at an existing entry that is not a link; a missing path fails; a non-link resolves to itself |
| FileSystem.FollowLink | packages/build.py:241-248 | a link whose target is an existing non-link resolves to that target, taken relative to the link's directory |
| ElfDetect.CompareMagic | packages/build.py:302-307 | the magic comparison raises exactly when the bytes read are fewer than four and all match the magic so far, and accepts exactly four matching bytes |
| ElfDetect.IsElfClassifies | packages/build.py:295-307 | links and directories are never ELF; a missing path fails to open; four or more bytes are ELF exactly when they start with 7F 'E' 'L' 'F'; a shorter file is never ELF and raises exactly when its bytes are a prefix of the magic |
| BundleLayout.LinkerChoice | packages/build.py:134-137 | the aarch64 linker is chosen exactly for "aarch64", the x86-64 linker for every other machine |
| BundleLayout.LinkerName | packages/build.py:134-138 | either linker is `/lib64/` followed by its non-empty file name |
| BundleLayout.LinkerFileName | packages/build.py:135-138 | the basename of a linker path is the linker's file name |
| BundleLayout.JoinPlain | packages/build.py:130 | a path joined with a plain name ends in that name and not in a slash |
| BundleLayout.LinkerCopyPlacement | packages/build.py:130-138 | the bundled linker sits directly in the bundled library directory, under the host linker's file name |
| BundleLayout.SystemLibShape | packages/build.py:130 | with a prefix without a trailing slash and a plain project name, the bundled library directory is `<prefix>/system_lib/<project>` and its parent is `<prefix>/system_lib` |
| BundleLayout.NestedPlainJoin | packages/build.py:130 | joining two plain names under a directory without a trailing slash puts one slash before each, and the parent of the result is the directory joined with the first name |
| BundleLayout.EnvironmentPaths | packages/build.py:141-148 | the version, virtual, main and library directories are the textual nesting `<prefix>/<version>/<project>/main/lib` |
| BundleLayout.MainInsideVirtual | packages/build.py:141-147 | the main environment's parent is the virtual environment, whose parent is the version directory, whose parent is the prefix |
| BundleLayout.VirtualInRoot | packages/build.py:141-144 | the virtual environment's parent is the version directory, and its path has no trailing slash |
| BundleLayout.MainInVirtual | packages/build.py:144-147 | the main environment's parent is the virtual environment |
| BundleLayout.DirNameJoinPlain | packages/build.py:141-147 | a plain name joined onto a directory has that directory as its parent and no trailing slash |
| BundleLayout.AbsolutePrefix | packages/build.py:130-148 | an absolute prefix makes the bundle, the bundled linker, the virtual environment and the main library directory absolute |
| Versions.GetPythonVersion | packages/build.py:74-82 | one version per package file, in listing order, each cut out of its name |
| Versions.VersionOfPackageFile | packages/build.py:80 | the version read from `Python-<v>.tgz` is `<v>` |
| Versions.PackagePathLists | packages/build.py:127 | the package a builder unpacks is listed under the builder's own version |
| Versions.VersionOfWithoutExtension | packages/build.py:80 | a name without ".tgz" loses its last character instead of an extension |
| Versions.Dispatch | packages/build.py:508-526 | a version starting with '3' picks the venv builder, '2' the virtualenv builder, anything else, the empty version included, the error exit |
| Versions.InstallScriptNoPlaceholders | packages/build.py:377-381 | a template without the three placeholders is written out unchanged |
| Versions.InstallScriptFillsArchive | packages/build.py:379 | a template whose only placeholder is one environment-archive marker gets the archive's file name in its place and keeps the text around it, when that name brings in no other marker |
| Versions.InstallScriptFillsDirectory | packages/build.py:377-381 | a template whose only placeholder is one virtual-environment marker gets the virtual environment's directory in its place and keeps the text around it |
| Versions.VirtualArchiveName | packages/build.py:156 | the install script names the environment archive `<project>_env_virtual.tar.gz` |
| Versions.SystemLibArchiveName | packages/build.py:157 | the install script names the library archive `system_lib.tar.gz` |
| Collector.CopyFile | packages/build.py:248-249 | the copy succeeds exactly when the source resolves to a regular file, is not the destination, and the destination is not a directory; the destination then gets the source's content and mode and nothing else changes |
| Collector.CopyLine | packages/build.py:232-249 | a blank line changes nothing; any other line is copied exactly when its path resolves to a regular file that is not what the destination resolves to and the destination is not a directory, and the copy puts the resolved file under the bundle path named after the line and changes nothing else |
| Collector.PackLibrary | packages/build.py:228-249 | the loop ends with the tree and the exception of copying the dependency lines one after another, the linker last |
| Collector.CollectAppend | packages/build.py:232-249 | running the loop over more lines continues from where the shorter run stopped, or stops with it |
| Collector.CollectFrame | packages/build.py:232-249 | a path no line's destination names keeps its entry |
| Collector.CollectKeepsFile | packages/build.py:232-249 | a regular file stays a regular file, whatever the loop copies over it |
| Collector.CollectCopiesEvery | packages/build.py:232-249 | when the loop finishes, every non-blank line's library is a regular file in the bundle under the name the line ends in |
| Collector.CollectLastWriter | packages/build.py:232-249 | when the loop finishes, a destination no later line names holds what that line's path resolved to when it was read: a later copy to the same name overwrites an earlier one |
| Collector.CopyThroughLink | packages/build.py:238-249 | a line naming a link to a regular file (a soname link) puts the target's content and mode into the bundle under the link's own file name |
| Collector.LinkerProcessedLast | packages/build.py:228-232 | the linker is the last line read when the pipeline's output is empty or ends in a newline |
| Collector.LinkerPathIsOneLine | packages/build.py:134-137 | either linker path reads back as a line of its own, unchanged by `strip` |
| Collector.LinkerConstantIsOneLine | packages/build.py:135-137 | each linker constant is non-empty, newline-free and its own `strip()` |
| Collector.LinkerCopiedLast | packages/build.py:228-249 | when the loop finishes, its last step copied the linker onto the tree the other lines left |
| Collector.CollectOne | packages/build.py:232-249 | unfolding of `Collect`: the loop over one line finishes exactly when that line's copy succeeds |
| Collector.LinkerCollected | packages/build.py:228-249 | when the loop finishes, the bundle holds the linker under its file name with the content of the file it resolved to |
| Collector.LinkerDestinationAgrees | packages/build.py:247 | the linker's copy lands on the bundled linker path the relinking uses |
| Relinker.RpathDirs | packages/build.py:269-271 | no search path list, or an empty one, means the bundled library directory alone |
| Relinker.PatchelfCommands | packages/build.py:269-286 | one command per switch that is on, all naming the file, search path first; the search path is the colon-joined list and splits back into it; the interpreter is the bundled linker |
| Relinker.DefaultRelink | packages/build.py:269-286 | unfolding of `Patchelf`: the default arguments set the bundled directory as the search path, then the bundled linker |
| Relinker.PrivateFirstRelink | packages/build.py:337 | the interpreters' search path is the main library directory, a colon, then the bundled directory |
| Relinker.PrivateFirstRoundTrip | packages/build.py:337 | that search path reads back as the two directories when neither holds a colon |
| Relinker.SoLineRelinks | packages/build.py:322-331 | a listed line is skipped exactly when it is blank, not a regular file, or the bundled linker; otherwise it gets the default relink |
| Relinker.RelinkSharedObjects | packages/build.py:319-331 | the first loop issues the commands of the lines' relinks, in listing order |
| Relinker.SoPassAppend | packages/build.py:320-331 | the commands of two listings in a row are those of the first followed by those of the second |
| Relinker.SoPassTargets | packages/build.py:320-331 | every command of the first loop names a listed regular file other than the bundled linker, and sets the bundled directory or the bundled linker |
| Relinker.SoPassComplete | packages/build.py:320-331 | every listed regular file other than the bundled linker gets both commands, at the place its line holds |
| Relinker.InterpreterEntry | packages/build.py:336-337 | a `bin` entry is relinked exactly when its name starts with "python", private directory first, then the bundled linker |
| Relinker.InterpreterPass | packages/build.py:334-337 | main `bin` first, then the virtual `bin`; a directory that cannot be listed stops the step after the commands already issued |
| Relinker.RelinkListing | packages/build.py:335-337 | the inner loop issues each `python*` entry's commands in listing order |
| Relinker.InterpreterRunAppend | packages/build.py:335-337 | the commands of two listings in a row are those of the first followed by those of the second |
| Relinker.RelinkInterpreters | packages/build.py:334-337 | the two nested loops give the interpreter pass's commands and failure |
| Relinker.InterpreterRunTargets | packages/build.py:335-337 | every interpreter command names a `python*` entry joined to its directory and sets the private-first search path or the bundled linker |
| Relinker.InterpreterRunComplete | packages/build.py:335-337 | every `python*` entry gets the private-first search path and the bundled linker |
| Relinker.RelinkThirdPartyBinaries | packages/build.py:340-344 | the third loop issues the ELF entries' commands in listing order and stops at the first ELF check that raises |
| Relinker.ThirdPartyEntryRelinks | packages/build.py:342-344 | an entry's ELF check exception is passed on; a non-ELF entry issues nothing; an ELF entry gets the private-first relink under the doubled join |
| Relinker.ThirdPartyTargets | packages/build.py:341-344 | every third-party command names an entry the ELF check accepted, under the doubled join, and sets the private-first search path or the bundled linker |
| Relinker.ThirdPartyAbsolute | packages/build.py:342-344 | under an absolute `bin` directory every relinked path is one the ELF check accepted |
| Relinker.ThirdPartyComplete | packages/build.py:341-344 | a finished loop gave every accepted entry the private-first search path and pointed it at the bundled linker; a stopped one raised some entry's ELF check exception |
| Relinker.ChangeElfProperty | packages/build.py:310-344 | the step's commands and failure are the three passes in order, stopping at the first failure |
| Relinker.ChangeElfPointsAtBundle | packages/build.py:310-344 | every command of the step sets the bundled linker or a search path ending in the bundled directory |
| Relinker.SoPassPointsAtBundle | packages/build.py:320-331 | every command of the first loop points into the bundle |
| Relinker.InterpreterRunPointsAtBundle | packages/build.py:334-337 | every command of the interpreter loop points into the bundle |
| Relinker.ThirdPartyPointsAtBundle | packages/build.py:340-344 | every command of the third-party loop points into the bundle |
| Relinker.ChangeElfStartsWithSharedObjects | packages/build.py:319-331 | the shared-object commands come first in the step's log |

## Left out

- Every shell command the script runs through `os.system`: `configure`, `make`, `pip`, `venv`/`virtualenv`, `tar`, `rm -rf`, `chmod` and `patchelf` itself. What `patchelf` does to a file is not modelled, only the commands requested. The script ignores the exit status of the `patchelf` calls only, so the tree is unchanged by relinking.
- Any other command that fails makes `run_local_cmd` raise. This includes the `find` before the `.so` pass, which then aborts `change_elf_property`, and the pipeline before `pack_library`. The model assumes those commands succeeded.
- The `find ... | xargs ldd | grep | awk | sort | uniq` pipeline and the `find -name '*.so*'` listing are inputs, as text. Deduplication is the shell's, not the script's.
- `os.listdir` in `change_elf_property` is an input map from directory to its entries in listing order. A directory missing from the map raises, as `listdir` does.
- Versions.GetPythonVersion: takes the package directory's listing as a plain sequence, so the `listdir` failure at that point is not modelled.
- Read permission is not modelled. An `open` in `_is_elf_file` or a `copyfile` that would fail for lack of permission succeeds in the model.
- `platform.machine()` and the script's own directory are parameters.
- `Printer`, the coloured output, `rate_log_wrapper` and its `sleep`, and the `raw_input` confirmation are left out as output and interaction.
- `get_args` and argparse's `choices` check are left out. `Dispatch` takes the version as given.
- `clean`, `build_main_env`, `build_virtual_env`, `pip_install`, the tarballs and the file reads and writes of `archive` are left out as shell commands and I/O. Only the three `replace` calls are kept.
- The `os.makedirs` calls in `__init__` are left out. `CopyFile` assumes the destination's directory exists.
- Special files (devices, sockets, pipes) are not entries of the tree.
- Path normalisation is left out. Links inside intermediate directories of a path are not resolved.
- Writing through a destination that is itself a link is left out. `CopyFile` puts the copy at the destination path.
- The temporary files `/tmp/system_lds` and `/tmp/env_lds` are left out. Their contents are the text inputs above.
- Versions.Dispatch: the error exit's message and exit code are not modelled, only that no builder runs.
- Relinker.ThirdPartyAbsolute: states that the doubled join is harmless only for an absolute `bin` directory. For a relative one the relinked path differs from the checked one, and the model keeps the code's doubled join as written.
- Versions.PackagePathLists: holds only for versions without a slash, since `basename` would cut such a version.
