/** Relinking (`_patchelf_operator` and `change_elf_property`): which files
    get a new library search path and a new interpreter, in which order, and
    with which values. The `patchelf` commands are recorded as actions; what
    `patchelf` does to the files is not part of this model, and its own
    failures are ignored by the script, so the tree never changes here. */
module Relinker {
  import opened Outcomes
  import opened Text
  import opened PosixPath
  import opened FileSystem
  import opened ElfDetect
  import opened BundleLayout

  /** One `patchelf` command: `--set-rpath <rpath> <target>` or
      `--set-interpreter <interpreter> <target>`. */
  datatype Action =
    | SetRpath(target: string, rpath: string)
    | SetInterpreter(target: string, interpreter: string)

  /** The search path list used: the given one, or the bundled library
      directory alone when none (or an empty one) is given. */
  function RpathDirs(l: Layout, dirs: seq<string>): (r: seq<string>)
    ensures r != []
    ensures dirs != [] ==> r == dirs
    ensures dirs == [] ==> r == [l.sysLib]
  {
    if dirs == [] then [l.sysLib] else dirs
  }

  /** `_patchelf_operator(elfPath, runpathSwitch, runpathDirs, ldSwitch)`:
      the rpath command first, then the interpreter command, each only when
      its switch is on; both name `elfPath`. */
  function Patchelf(l: Layout, elfPath: string, runpathSwitch: bool, runpathDirs: seq<string>, ldSwitch: bool): seq<Action>
  {
    (if runpathSwitch then [SetRpath(elfPath, JoinWith(':', RpathDirs(l, runpathDirs)))] else []) +
    (if ldSwitch then [SetInterpreter(elfPath, l.ldDst)] else [])
  }

  /** What `_patchelf_operator` issues: one command per switch that is on,
      all naming the given file, the search path first; the search path is
      the list joined with colons, and it splits back into that list when
      no directory holds a colon; the interpreter is the bundled linker. */
  lemma PatchelfCommands(l: Layout, elfPath: string, runpathSwitch: bool, runpathDirs: seq<string>, ldSwitch: bool)
    ensures var r := Patchelf(l, elfPath, runpathSwitch, runpathDirs, ldSwitch);
      |r| == (if runpathSwitch then 1 else 0) + (if ldSwitch then 1 else 0) &&
      (forall k :: 0 <= k < |r| ==> r[k].target == elfPath) &&
      (runpathSwitch ==> r[0].SetRpath? && r[0].rpath == JoinWith(':', RpathDirs(l, runpathDirs))) &&
      (runpathSwitch && NoneContains(RpathDirs(l, runpathDirs), ':') ==>
        Split(r[0].rpath, ':') == RpathDirs(l, runpathDirs)) &&
      (ldSwitch ==> r[|r| - 1] == SetInterpreter(elfPath, l.ldDst))
  {
    var dirs := RpathDirs(l, runpathDirs);
    if runpathSwitch && NoneContains(dirs, ':') {
      SplitJoinWith(dirs, ':');
    }
  }

  /** With the default arguments a file is pointed at the bundled library
      directory and at the bundled linker. */
  lemma DefaultRelink(l: Layout, p: string)
    ensures Patchelf(l, p, true, [], true) == [SetRpath(p, l.sysLib), SetInterpreter(p, l.ldDst)]
  {
  }

  /** The rpath given to the interpreters and third-party programs: the main
      environment's private library directory first, then the bundled one. */
  function PrivateFirst(l: Layout): seq<string>
  {
    [l.mainLib, l.sysLib]
  }

  /** The interpreters' relink writes the private directory before the
      bundled one and points them at the bundled linker. */
  lemma PrivateFirstRelink(l: Layout, p: string)
    ensures Patchelf(l, p, true, PrivateFirst(l), true) ==
              [SetRpath(p, l.mainLib + ":" + l.sysLib), SetInterpreter(p, l.ldDst)]
  {
    var dirs := PrivateFirst(l);
    assert dirs[1..] == [l.sysLib];
    assert JoinWith(':', dirs) == l.mainLib + ":" + l.sysLib;
  }

  /** The private-first search path reads back as its two directories when
      neither holds a colon. */
  lemma PrivateFirstRoundTrip(l: Layout)
    requires ':' !in l.mainLib && ':' !in l.sysLib
    ensures Split(l.mainLib + ":" + l.sysLib, ':') == [l.mainLib, l.sysLib]
  {
    var dirs := PrivateFirst(l);
    assert dirs[1..] == [l.sysLib];
    assert JoinWith(':', dirs) == l.mainLib + ":" + l.sysLib;
    SplitJoinWith(dirs, ':');
  }

  /** The run of `change_elf_property` so far: the commands issued, and the
      exception that ended it if any. */
  datatype Relinked = Relinked(log: seq<Action>, failure: Option<Failure>)

  /** A run that issued `log` and then went on as `rest`. */
  function After(log: seq<Action>, rest: Relinked): Relinked
  {
    Relinked(log + rest.log, rest.failure)
  }

  /** Issuing `a` and then `b` before a run is issuing `a + b` before it. */
  lemma AfterAfter(a: seq<Action>, b: seq<Action>, rest: Relinked)
    ensures After(a, After(b, rest)) == After(a + b, rest)
  {
    assert (a + b) + rest.log == a + (b + rest.log);
  }

  // ---------------------------------------------------------------- .so pass

  /** One line of the `find` listing: a blank line, a path that is not a
      regular file (after following links) and the bundled linker itself are
      skipped; any other path gets the default relink. */
  function SoLine(fs: Tree, l: Layout, line: string): seq<Action>
  {
    var p := Strip(line);
    if p == [] then []
    else if !IsFile(fs, p) || l.ldDst == p then []
    else Patchelf(l, p, true, [], true)
  }

  lemma SoLineRelinks(fs: Tree, l: Layout, line: string)
    ensures var p := Strip(line); var r := SoLine(fs, l, line);
      (r == [] <==> p == [] || !IsFile(fs, p) || p == l.ldDst) &&
      (r != [] ==> r == [SetRpath(p, l.sysLib), SetInterpreter(p, l.ldDst)])
  {
    DefaultRelink(l, Strip(line));
  }

  /** The loop over the listing's lines, in order. */
  function SoPass(fs: Tree, l: Layout, lines: seq<string>): seq<Action>
  {
    if lines == [] then [] else SoLine(fs, l, lines[0]) + SoPass(fs, l, lines[1..])
  }

  /** The first loop of `change_elf_property`, over the lines of the `find`
      listing of every `*.so*` path under the environments' parent directory. */
  method RelinkSharedObjects(fs: Tree, l: Layout, lines: seq<string>) returns (log: seq<Action>)
    ensures log == SoPass(fs, l, lines)
  {
    log := [];
    for i := 0 to |lines|
      invariant log == SoPass(fs, l, lines[..i])
    {
      SoPassSnoc(fs, l, lines, i);
      log := log + SoLine(fs, l, lines[i]);
    }
    assert lines[..|lines|] == lines;
  }

  /** The pass over the first `i + 1` lines: the pass over the first `i`,
      then line `i`. */
  lemma SoPassSnoc(fs: Tree, l: Layout, lines: seq<string>, i: nat)
    requires i < |lines|
    ensures SoPass(fs, l, lines[..i + 1]) == SoPass(fs, l, lines[..i]) + SoLine(fs, l, lines[i])
  {
    SoPassAppend(fs, l, lines[..i], [lines[i]]);
    SoPassOne(fs, l, lines[i]);
    assert lines[..i + 1] == lines[..i] + [lines[i]];
  }

  lemma SoPassOne(fs: Tree, l: Layout, line: string)
    ensures SoPass(fs, l, [line]) == SoLine(fs, l, line)
  {
    assert [line][1..] == [];
  }

  /** Listing order is kept: the pass over two listings one after the other
      is the pass over the first followed by the pass over the second. */
  lemma {:induction false} SoPassAppend(fs: Tree, l: Layout, a: seq<string>, b: seq<string>)
    ensures SoPass(fs, l, a + b) == SoPass(fs, l, a) + SoPass(fs, l, b)
    decreases |a|
  {
    if a == [] {
      assert a + b == b;
    } else {
      var ab := a + b;
      assert ab[0] == a[0] && ab[1..] == a[1..] + b;
      SoPassAppend(fs, l, a[1..], b);
      SoPassCons(fs, l, ab);
      SoPassCons(fs, l, a);
      SeqAssoc(SoLine(fs, l, a[0]), SoPass(fs, l, a[1..]), SoPass(fs, l, b));
    }
  }

  lemma SoPassCons(fs: Tree, l: Layout, lines: seq<string>)
    requires lines != []
    ensures SoPass(fs, l, lines) == SoLine(fs, l, lines[0]) + SoPass(fs, l, lines[1..])
  {
  }

  lemma SeqAssoc(x: seq<Action>, y: seq<Action>, z: seq<Action>)
    ensures x + (y + z) == (x + y) + z
  {
  }

  /** Every command of the pass names a regular file other than the bundled
      linker, taken from a line of the listing, and sets the bundled library
      directory or the bundled linker. */
  lemma {:induction false} SoPassTargets(fs: Tree, l: Layout, lines: seq<string>, k: nat)
    requires k < |SoPass(fs, l, lines)|
    ensures var a := SoPass(fs, l, lines)[k];
      a.target != [] && IsFile(fs, a.target) && a.target != l.ldDst &&
      (exists j :: 0 <= j < |lines| && Strip(lines[j]) == a.target) &&
      (a.SetRpath? ==> a.rpath == l.sysLib) &&
      (a.SetInterpreter? ==> a.interpreter == l.ldDst)
    decreases |lines|
  {
    var head := SoLine(fs, l, lines[0]);
    SoLineRelinks(fs, l, lines[0]);
    var r := SoPass(fs, l, lines);
    if k < |head| {
      assert head == [SetRpath(Strip(lines[0]), l.sysLib), SetInterpreter(Strip(lines[0]), l.ldDst)];
      assert r[k] == head[k];
    } else {
      SoPassTargets(fs, l, lines[1..], k - |head|);
      assert r[k] == SoPass(fs, l, lines[1..])[k - |head|];
      var j :| 0 <= j < |lines[1..]| && Strip(lines[1..][j]) == r[k].target;
      assert lines[j + 1] == lines[1..][j];
    }
  }

  /** Every listed regular file other than the bundled linker is relinked
      with the default arguments, at the place its line holds in the listing. */
  lemma SoPassComplete(fs: Tree, l: Layout, lines: seq<string>, j: nat)
    requires j < |lines|
    requires Strip(lines[j]) != [] && IsFile(fs, Strip(lines[j])) && Strip(lines[j]) != l.ldDst
    ensures var before := |SoPass(fs, l, lines[..j])|;
      var r := SoPass(fs, l, lines);
      before + 1 < |r| &&
      r[before] == SetRpath(Strip(lines[j]), l.sysLib) &&
      r[before + 1] == SetInterpreter(Strip(lines[j]), l.ldDst)
  {
    SoPassAround(fs, l, lines, j);
    SoLineRelinks(fs, l, lines[j]);
    var p := Strip(lines[j]);
    PairAt(SoPass(fs, l, lines[..j]), SetRpath(p, l.sysLib), SetInterpreter(p, l.ldDst), SoPass(fs, l, lines[j + 1..]));
  }

  /** The pass over a listing: the lines before `j`, line `j`, the lines after. */
  lemma SoPassAround(fs: Tree, l: Layout, lines: seq<string>, j: nat)
    requires j < |lines|
    ensures SoPass(fs, l, lines) ==
      SoPass(fs, l, lines[..j]) + (SoLine(fs, l, lines[j]) + SoPass(fs, l, lines[j + 1..]))
  {
    var pre, mid := lines[..j], lines[j..];
    assert lines == pre + mid;
    SoPassAppend(fs, l, pre, mid);
    assert mid[0] == lines[j] && mid[1..] == lines[j + 1..];
    SoPassCons(fs, l, mid);
  }

  lemma PairAt(a: seq<Action>, x: Action, y: Action, b: seq<Action>)
    ensures var r := a + ([x, y] + b); |a| + 1 < |r| && r[|a|] == x && r[|a| + 1] == y
  {
  }

  // ------------------------------------------------------- interpreter pass

  /** The two directories whose `python*` entries are relinked, main first. */
  function InterpreterBinDirs(l: Layout): seq<string>
  {
    [l.mainDir + "/bin", l.virtualDir + "/bin"]
  }

  /** One entry of a `bin` listing: a name starting with "python" is
      relinked with the private library directory first. */
  function InterpreterEntry(l: Layout, binDir: string, name: string): (r: seq<Action>)
    ensures r == [] <==> !StartsWith(name, "python")
    ensures r != [] ==> r == [SetRpath(Join(binDir, name), l.mainLib + ":" + l.sysLib),
                              SetInterpreter(Join(binDir, name), l.ldDst)]
  {
    if StartsWith(name, "python") then
      PrivateFirstRelink(l, Join(binDir, name));
      Patchelf(l, Join(binDir, name), true, PrivateFirst(l), true)
    else []
  }

  /** The loop over one `bin` listing, in listing order. */
  function InterpreterRun(l: Layout, binDir: string, names: seq<string>): seq<Action>
  {
    if names == [] then [] else InterpreterEntry(l, binDir, names[0]) + InterpreterRun(l, binDir, names[1..])
  }

  /** The loop over the `bin` directories; `listdir` holds each listable
      directory's entries in listing order, and a directory it lacks raises. */
  function InterpreterDirsRun(l: Layout, listdir: map<string, seq<string>>, dirs: seq<string>): Relinked
  {
    if dirs == [] then Relinked([], None)
    else if dirs[0] !in listdir then Relinked([], Some(NoSuchDirectory(dirs[0])))
    else After(InterpreterRun(l, dirs[0], listdir[dirs[0]]), InterpreterDirsRun(l, listdir, dirs[1..]))
  }

  /** The second loop of `change_elf_property`: the main environment's `bin`
      first, then the virtual environment's; a missing one stops the run. */
  function InterpreterPass(l: Layout, listdir: map<string, seq<string>>): (r: Relinked)
    ensures var main, virtual := l.mainDir + "/bin", l.virtualDir + "/bin";
      (main !in listdir ==> r == Relinked([], Some(NoSuchDirectory(main)))) &&
      (main in listdir && virtual !in listdir ==>
        r == Relinked(InterpreterRun(l, main, listdir[main]), Some(NoSuchDirectory(virtual)))) &&
      (main in listdir && virtual in listdir ==>
        r == Relinked(InterpreterRun(l, main, listdir[main]) + InterpreterRun(l, virtual, listdir[virtual]), None))
  {
    var dirs := InterpreterBinDirs(l);
    var main, virtual := l.mainDir + "/bin", l.virtualDir + "/bin";
    assert dirs[0] == main && dirs[1..] == [virtual];
    assert dirs[1..][0] == virtual && dirs[1..][1..] == [];
    var last := InterpreterDirsRun(l, listdir, dirs[1..][1..]);
    assert last == Relinked([], None);
    if main in listdir && virtual in listdir then
      var ml, vl := InterpreterRun(l, main, listdir[main]), InterpreterRun(l, virtual, listdir[virtual]);
      assert InterpreterDirsRun(l, listdir, dirs[1..]) == After(vl, last);
      assert vl + [] == vl;
      InterpreterDirsRun(l, listdir, dirs)
    else if main in listdir then
      var ml := InterpreterRun(l, main, listdir[main]);
      assert InterpreterDirsRun(l, listdir, dirs[1..]) == Relinked([], Some(NoSuchDirectory(virtual)));
      assert ml + [] == ml;
      InterpreterDirsRun(l, listdir, dirs)
    else
      InterpreterDirsRun(l, listdir, dirs)
  }

  /** The loop over one `bin` listing. */
  method RelinkListing(l: Layout, dir: string, names: seq<string>) returns (log: seq<Action>)
    ensures log == InterpreterRun(l, dir, names)
  {
    log := [];
    for j := 0 to |names|
      invariant log == InterpreterRun(l, dir, names[..j])
    {
      InterpreterRunSnoc(l, dir, names, j);
      log := log + InterpreterEntry(l, dir, names[j]);
    }
    assert names[..|names|] == names;
  }

  /** The loop over the first `j + 1` names: the loop over the first `j`,
      then name `j`. */
  lemma InterpreterRunSnoc(l: Layout, dir: string, names: seq<string>, j: nat)
    requires j < |names|
    ensures InterpreterRun(l, dir, names[..j + 1]) == InterpreterRun(l, dir, names[..j]) + InterpreterEntry(l, dir, names[j])
  {
    InterpreterRunAppend(l, dir, names[..j], [names[j]]);
    InterpreterRunOne(l, dir, names[j]);
    assert names[..j + 1] == names[..j] + [names[j]];
  }

  lemma InterpreterRunOne(l: Layout, dir: string, name: string)
    ensures InterpreterRun(l, dir, [name]) == InterpreterEntry(l, dir, name)
  {
    assert [name][1..] == [];
  }

  lemma {:induction false} InterpreterRunAppend(l: Layout, dir: string, a: seq<string>, b: seq<string>)
    ensures InterpreterRun(l, dir, a + b) == InterpreterRun(l, dir, a) + InterpreterRun(l, dir, b)
    decreases |a|
  {
    if a == [] {
      assert a + b == b;
    } else {
      assert (a + b)[0] == a[0];
      assert (a + b)[1..] == a[1..] + b;
      var head, tail, later := InterpreterEntry(l, dir, a[0]), InterpreterRun(l, dir, a[1..]), InterpreterRun(l, dir, b);
      assert InterpreterRun(l, dir, a + b) == head + InterpreterRun(l, dir, a[1..] + b);
      InterpreterRunAppend(l, dir, a[1..], b);
      assert head + (tail + later) == (head + tail) + later;
    }
  }

  /** The interpreter loops, as the script runs them: one loop over the
      directories, one over each listing. */
  method RelinkInterpreters(l: Layout, listdir: map<string, seq<string>>) returns (log: seq<Action>, failure: Option<Failure>)
    ensures Relinked(log, failure) == InterpreterPass(l, listdir)
  {
    var dirs := InterpreterBinDirs(l);
    log := [];
    var i := 0;
    while i < |dirs|
      invariant 0 <= i <= |dirs|
      invariant After(log, InterpreterDirsRun(l, listdir, dirs[i..])) == InterpreterDirsRun(l, listdir, dirs)
    {
      var dir := dirs[i];
      InterpreterDirsRunStep(l, listdir, dirs, i);
      if dir !in listdir {
        return log, Some(NoSuchDirectory(dir));
      }
      var step := RelinkListing(l, dir, listdir[dir]);
      AfterAfter(log, step, InterpreterDirsRun(l, listdir, dirs[i + 1..]));
      log := log + step;
      i := i + 1;
    }
    assert dirs[i..] == [];
    assert log + [] == log;
    failure := None;
  }

  /** The run over the directories from `i` on: that directory's listing
      loop, then the run from `i + 1`; a directory that cannot be listed
      stops it. */
  lemma InterpreterDirsRunStep(l: Layout, listdir: map<string, seq<string>>, dirs: seq<string>, i: nat)
    requires i < |dirs|
    ensures InterpreterDirsRun(l, listdir, dirs[i..]) ==
      if dirs[i] !in listdir then Relinked([], Some(NoSuchDirectory(dirs[i])))
      else After(InterpreterRun(l, dirs[i], listdir[dirs[i]]), InterpreterDirsRun(l, listdir, dirs[i + 1..]))
  {
    assert dirs[i..][0] == dirs[i] && dirs[i..][1..] == dirs[i + 1..];
  }

  /** Every command of an interpreter listing's loop names a `python*` entry
      of the listing joined to its directory, sets the private-first search
      path or sets the bundled linker. */
  lemma {:induction false} InterpreterRunTargets(l: Layout, binDir: string, names: seq<string>, k: nat)
    requires k < |InterpreterRun(l, binDir, names)|
    ensures var a := InterpreterRun(l, binDir, names)[k];
      (exists j :: 0 <= j < |names| && StartsWith(names[j], "python") && a.target == Join(binDir, names[j])) &&
      (a.SetRpath? ==> a.rpath == l.mainLib + ":" + l.sysLib) &&
      (a.SetInterpreter? ==> a.interpreter == l.ldDst)
    decreases |names|
  {
    var head := InterpreterEntry(l, binDir, names[0]);
    var r := InterpreterRun(l, binDir, names);
    if k < |head| {
      assert r[k] == head[k];
    } else {
      InterpreterRunTargets(l, binDir, names[1..], k - |head|);
      assert r[k] == InterpreterRun(l, binDir, names[1..])[k - |head|];
      var j :| 0 <= j < |names[1..]| && StartsWith(names[1..][j], "python") && r[k].target == Join(binDir, names[1..][j]);
      assert names[j + 1] == names[1..][j];
    }
  }

  /** Every `python*` entry of a listing is relinked, pointed at the bundled
      linker. */
  lemma {:induction false} InterpreterRunComplete(l: Layout, binDir: string, names: seq<string>, j: nat)
    requires j < |names| && StartsWith(names[j], "python")
    ensures SetRpath(Join(binDir, names[j]), l.mainLib + ":" + l.sysLib) in InterpreterRun(l, binDir, names)
    ensures SetInterpreter(Join(binDir, names[j]), l.ldDst) in InterpreterRun(l, binDir, names)
    decreases j
  {
    var head := InterpreterEntry(l, binDir, names[0]);
    assert InterpreterRun(l, binDir, names) == head + InterpreterRun(l, binDir, names[1..]);
    if j > 0 {
      assert names[1..][j - 1] == names[j];
      InterpreterRunComplete(l, binDir, names[1..], j - 1);
    }
  }

  // ------------------------------------------------------ third-party pass

  /** The loop over the virtual environment's `bin` listing: every entry that
      `_is_elf_file` accepts is relinked with the private library directory
      first, under the path `join(binDir, join(binDir, name))` the script
      builds; the first classification that raises ends the run. */
  function ThirdPartyRun(fs: Tree, l: Layout, binDir: string, names: seq<string>): Relinked
  {
    if names == [] then Relinked([], None)
    else
      match ThirdPartyEntry(fs, l, binDir, names[0])
      case Err(e) => Relinked([], Some(e))
      case Ok(step) => After(step, ThirdPartyRun(fs, l, binDir, names[1..]))
  }

  /** One entry of the third-party loop: the ELF check's exception, or the
      commands issued for the entry. */
  function ThirdPartyEntry(fs: Tree, l: Layout, binDir: string, name: string): Result<seq<Action>>
  {
    var p := Join(binDir, name);
    match IsElf(fs, p)
    case Err(e) => Err(e)
    case Ok(elf) => Ok(if elf then Patchelf(l, Join(binDir, p), true, PrivateFirst(l), true) else [])
  }

  /** The third loop of `change_elf_property`. */
  method RelinkThirdPartyBinaries(fs: Tree, l: Layout, binDir: string, names: seq<string>) returns (log: seq<Action>, failure: Option<Failure>)
    ensures Relinked(log, failure) == ThirdPartyRun(fs, l, binDir, names)
  {
    log := [];
    var i := 0;
    while i < |names|
      invariant 0 <= i <= |names|
      invariant After(log, ThirdPartyRun(fs, l, binDir, names[i..])) == ThirdPartyRun(fs, l, binDir, names)
    {
      var entry := ThirdPartyEntry(fs, l, binDir, names[i]);
      ThirdPartyRunStep(fs, l, binDir, names, i);
      if entry.Err? {
        return log, Some(entry.error);
      }
      AfterAfter(log, entry.value, ThirdPartyRun(fs, l, binDir, names[i + 1..]));
      log := log + entry.value;
      i := i + 1;
    }
    assert names[i..] == [];
    failure := None;
  }

  /** The run from entry `i` on: that entry's step, then the run from `i + 1`. */
  lemma ThirdPartyRunStep(fs: Tree, l: Layout, binDir: string, names: seq<string>, i: nat)
    requires i < |names|
    ensures var rest := ThirdPartyRun(fs, l, binDir, names[i + 1..]);
      ThirdPartyRun(fs, l, binDir, names[i..]) ==
        match ThirdPartyEntry(fs, l, binDir, names[i])
        case Err(e) => Relinked([], Some(e))
        case Ok(step) => After(step, rest)
  {
    assert names[i..][0] == names[i] && names[i..][1..] == names[i + 1..];
  }

  /** One entry: the ELF check's exception is passed on; a non-ELF entry
      issues nothing; an ELF entry gets the private-first relink under the
      doubled join. */
  lemma ThirdPartyEntryRelinks(fs: Tree, l: Layout, binDir: string, name: string)
    ensures var p := Join(binDir, name); var r := ThirdPartyEntry(fs, l, binDir, name);
      (r.Err? <==> IsElf(fs, p).Err?) &&
      (r.Err? ==> r.error == IsElf(fs, p).error) &&
      (r == Ok([]) <==> IsElf(fs, p) == Ok(false)) &&
      (IsElf(fs, p) == Ok(true) ==>
        r == Ok([SetRpath(Join(binDir, p), l.mainLib + ":" + l.sysLib), SetInterpreter(Join(binDir, p), l.ldDst)]))
  {
    PrivateFirstRelink(l, Join(binDir, Join(binDir, name)));
  }

  /** Every command of the third-party loop names, under the doubled join,
      an entry the ELF check accepted, and sets the private-first search
      path or the bundled linker. */
  lemma {:induction false} ThirdPartyTargets(fs: Tree, l: Layout, binDir: string, names: seq<string>, k: nat)
    requires k < |ThirdPartyRun(fs, l, binDir, names).log|
    ensures var a := ThirdPartyRun(fs, l, binDir, names).log[k];
      (exists j :: 0 <= j < |names| && IsElf(fs, Join(binDir, names[j])) == Ok(true) &&
                   a.target == Join(binDir, Join(binDir, names[j]))) &&
      (a.SetRpath? ==> a.rpath == l.mainLib + ":" + l.sysLib) &&
      (a.SetInterpreter? ==> a.interpreter == l.ldDst)
    decreases |names|
  {
    var entry := ThirdPartyEntry(fs, l, binDir, names[0]);
    ThirdPartyEntryRelinks(fs, l, binDir, names[0]);
    var rest := ThirdPartyRun(fs, l, binDir, names[1..]);
    var r := ThirdPartyRun(fs, l, binDir, names);
    var head := entry.value;
    assert r.log == head + rest.log;
    if k < |head| {
      var p := Join(binDir, names[0]);
      assert IsElf(fs, p) == Ok(true);
      assert r.log[k] == head[k];
      assert head[k].target == Join(binDir, p);
    } else {
      ThirdPartyTargets(fs, l, binDir, names[1..], k - |head|);
      assert r.log[k] == rest.log[k - |head|];
      var j :| 0 <= j < |names[1..]| && IsElf(fs, Join(binDir, names[1..][j])) == Ok(true) &&
               r.log[k].target == Join(binDir, Join(binDir, names[1..][j]));
      assert names[j + 1] == names[1..][j];
    }
  }

  /** Under an absolute `bin` directory the doubled join is harmless: the
      path relinked is the very path the ELF check accepted. */
  lemma ThirdPartyAbsolute(fs: Tree, l: Layout, binDir: string, names: seq<string>, k: nat)
    requires IsAbsolute(binDir)
    requires k < |ThirdPartyRun(fs, l, binDir, names).log|
    ensures IsElf(fs, ThirdPartyRun(fs, l, binDir, names).log[k].target) == Ok(true)
  {
    ThirdPartyTargets(fs, l, binDir, names, k);
    var j :| 0 <= j < |names| && IsElf(fs, Join(binDir, names[j])) == Ok(true) &&
             ThirdPartyRun(fs, l, binDir, names).log[k].target == Join(binDir, Join(binDir, names[j]));
    JoinKeepsAbsolute(binDir, names[j]);
    JoinAbsoluteSecond(binDir, Join(binDir, names[j]));
  }

  /** When the loop finishes, every entry the ELF check accepted was given
      the private-first search path and pointed at the bundled linker; when it stops, the exception is the one the
      ELF check raised for some entry. */
  lemma {:induction false} ThirdPartyComplete(fs: Tree, l: Layout, binDir: string, names: seq<string>)
    ensures var r := ThirdPartyRun(fs, l, binDir, names);
      (r.failure == None ==>
        forall j :: 0 <= j < |names| && IsElf(fs, Join(binDir, names[j])) == Ok(true) ==>
          SetRpath(Join(binDir, Join(binDir, names[j])), l.mainLib + ":" + l.sysLib) in r.log &&
          SetInterpreter(Join(binDir, Join(binDir, names[j])), l.ldDst) in r.log) &&
      (r.failure.Some? ==> exists j :: 0 <= j < |names| && IsElf(fs, Join(binDir, names[j])) == Err(r.failure.value))
    decreases |names|
  {
    if names != [] {
      var entry := ThirdPartyEntry(fs, l, binDir, names[0]);
      ThirdPartyEntryRelinks(fs, l, binDir, names[0]);
      var rest := ThirdPartyRun(fs, l, binDir, names[1..]);
      var r := ThirdPartyRun(fs, l, binDir, names);
      ThirdPartyComplete(fs, l, binDir, names[1..]);
      if entry.Ok? {
        assert r.log == entry.value + rest.log;
        assert r.failure == rest.failure;
        if r.failure == None {
          forall j | 0 <= j < |names| && IsElf(fs, Join(binDir, names[j])) == Ok(true)
            ensures SetRpath(Join(binDir, Join(binDir, names[j])), l.mainLib + ":" + l.sysLib) in r.log
            ensures SetInterpreter(Join(binDir, Join(binDir, names[j])), l.ldDst) in r.log
          {
            if j == 0 {
              assert r.log[0] == entry.value[0];
              assert r.log[1] == entry.value[1];
            } else {
              assert names[1..][j - 1] == names[j];
            }
          }
        } else {
          var j :| 0 <= j < |names[1..]| && IsElf(fs, Join(binDir, names[1..][j])) == Err(r.failure.value);
          assert names[j + 1] == names[1..][j];
        }
      }
    }
  }

  // ------------------------------------------------------------ whole step

  /** `change_elf_property` from the point where the `find` listing and the
      `bin` listings are known: the `.so` pass, the interpreter pass, and the
      third-party pass over the virtual environment's `bin`. */
  function ChangeElf(fs: Tree, l: Layout, findOutput: string, listdir: map<string, seq<string>>): Relinked
  {
    var so := SoPass(fs, l, SplitLines(findOutput));
    var interp := InterpreterPass(l, listdir);
    if interp.failure.Some? then After(so, interp)
    else
      var binDir := l.virtualDir + "/bin";
      if binDir !in listdir then Relinked(so + interp.log, Some(NoSuchDirectory(binDir)))
      else After(so + interp.log, ThirdPartyRun(fs, l, binDir, listdir[binDir]))
  }

  method ChangeElfProperty(fs: Tree, l: Layout, findOutput: string, listdir: map<string, seq<string>>) returns (log: seq<Action>, failure: Option<Failure>)
    ensures Relinked(log, failure) == ChangeElf(fs, l, findOutput, listdir)
  {
    log := RelinkSharedObjects(fs, l, SplitLines(findOutput));
    var interpLog: seq<Action>;
    interpLog, failure := RelinkInterpreters(l, listdir);
    log := log + interpLog;
    if failure.Some? {
      return;
    }
    var binDir := l.virtualDir + "/bin";
    if binDir !in listdir {
      return log, Some(NoSuchDirectory(binDir));
    }
    var thirdLog: seq<Action>;
    thirdLog, failure := RelinkThirdPartyBinaries(fs, l, binDir, listdir[binDir]);
    log := log + thirdLog;
  }

  /** A command that points a file at the bundled linker, or sets a search
      path ending in the bundled library directory: the bundled directory
      alone, or the main environment's library directory first. */
  predicate Bundled(l: Layout, a: Action)
  {
    match a
    case SetInterpreter(_, interpreter) => interpreter == l.ldDst
    case SetRpath(_, rpath) => rpath == l.sysLib || rpath == l.mainLib + ":" + l.sysLib
  }

  predicate PointsAtBundle(l: Layout, log: seq<Action>)
  {
    forall a :: a in log ==> Bundled(l, a)
  }

  /** Every command of the step points into the bundle. */
  lemma ChangeElfPointsAtBundle(fs: Tree, l: Layout, findOutput: string, listdir: map<string, seq<string>>)
    ensures PointsAtBundle(l, ChangeElf(fs, l, findOutput, listdir).log)
  {
    SoPassPointsAtBundle(fs, l, SplitLines(findOutput));
    var main, virtual := l.mainDir + "/bin", l.virtualDir + "/bin";
    if main in listdir {
      InterpreterRunPointsAtBundle(l, main, listdir[main]);
      if virtual in listdir {
        InterpreterRunPointsAtBundle(l, virtual, listdir[virtual]);
        ThirdPartyPointsAtBundle(fs, l, virtual, listdir[virtual]);
      }
    }
  }

  lemma SoPassPointsAtBundle(fs: Tree, l: Layout, lines: seq<string>)
    ensures PointsAtBundle(l, SoPass(fs, l, lines))
  {
    var log := SoPass(fs, l, lines);
    forall a | a in log ensures Bundled(l, a) {
      var k :| 0 <= k < |log| && log[k] == a;
      SoPassTargets(fs, l, lines, k);
    }
  }

  lemma InterpreterRunPointsAtBundle(l: Layout, binDir: string, names: seq<string>)
    ensures PointsAtBundle(l, InterpreterRun(l, binDir, names))
  {
    var log := InterpreterRun(l, binDir, names);
    forall a | a in log ensures Bundled(l, a) {
      var k :| 0 <= k < |log| && log[k] == a;
      InterpreterRunTargets(l, binDir, names, k);
    }
  }

  lemma ThirdPartyPointsAtBundle(fs: Tree, l: Layout, binDir: string, names: seq<string>)
    ensures PointsAtBundle(l, ThirdPartyRun(fs, l, binDir, names).log)
  {
    var log := ThirdPartyRun(fs, l, binDir, names).log;
    forall a | a in log ensures Bundled(l, a) {
      var k :| 0 <= k < |log| && log[k] == a;
      ThirdPartyTargets(fs, l, binDir, names, k);
    }
  }

  /** The `.so` pass comes first: its commands open the step's log. */
  lemma ChangeElfStartsWithSharedObjects(fs: Tree, l: Layout, findOutput: string, listdir: map<string, seq<string>>)
    ensures var so := SoPass(fs, l, SplitLines(findOutput));
      var log := ChangeElf(fs, l, findOutput, listdir).log;
      |so| <= |log| && log[..|so|] == so
  {
  }
}
