/** Library collection (`pack_library`, after its shell pipeline): every
    non-blank line of the dependency list, with the host linker appended,
    names a library that is copied, content and permission bits, into the
    bundled library directory under the name the line itself ends in. */
module Collector {
  import opened Outcomes
  import opened Text
  import opened PosixPath
  import opened FileSystem
  import opened BundleLayout

  /** `"{sysLib}/{basename(orig)}"`: the destination is built by formatting,
      not by `os.path.join`. */
  function CopyDestination(sysLib: string, orig: string): string
  {
    sysLib + "/" + BaseName(orig)
  }

  /** Where the copy is read from: a link is followed exactly one level, by
      joining its target to the link's directory; anything else is read in
      place. (Opening that path may follow further links.) */
  function CopySource(fs: Tree, orig: string): string
  {
    if IsLink(fs, orig) then LinkTarget(orig, fs[orig].target) else orig
  }

  /** `shutil.copyfile` followed by `shutil.copymode`: the destination path
      becomes a regular file with the content and the permission bits of the
      file the source resolves to. */
  function CopyFile(fs: Tree, src: string, dst: string): (r: Result<Tree>)
    ensures r.Ok? <==>
      Stat(fs, src).Some? && fs[Stat(fs, src).value].File? &&
      Stat(fs, dst) != Stat(fs, src) &&
      !(Stat(fs, dst).Some? && fs[Stat(fs, dst).value].Dir?)
    ensures r.Ok? ==>
      r.value.Keys == fs.Keys + {dst} &&
      r.value[dst] == fs[Stat(fs, src).value] &&
      forall k :: k in fs && k != dst ==> r.value[k] == fs[k]
  {
    var from := Stat(fs, src);
    var to := Stat(fs, dst);
    if from.Some? && to == from then Err(SameFile(src, dst))
    else if from.None? then Err(OpenFailed(src))
    else if fs[from.value].Dir? then Err(IsADirectory(src))
    else if to.Some? && fs[to.value].Dir? then Err(IsADirectory(dst))
    else Ok(fs[dst := fs[from.value]])
  }

  /** One iteration of the loop: a blank line changes nothing; any other line
      copies its library into the bundled directory, and does so exactly
      when the path resolves to a regular file that is not what the
      destination resolves to, and the destination is not a directory. */
  function CopyLine(fs: Tree, sysLib: string, line: string): (r: Result<Tree>)
    ensures Strip(line) == [] ==> r == Ok(fs)
    ensures Strip(line) != [] ==>
      var dst := CopyDestination(sysLib, Strip(line));
      var resolved := Stat(fs, CopySource(fs, Strip(line)));
      (r.Ok? <==> resolved.Some? && fs[resolved.value].File? && Stat(fs, dst) != resolved &&
                  !(Stat(fs, dst).Some? && fs[Stat(fs, dst).value].Dir?))
    ensures Strip(line) != [] && r.Ok? ==>
      var orig := Strip(line);
      var dst := CopyDestination(sysLib, orig);
      var resolved := Stat(fs, CopySource(fs, orig));
      resolved.Some? && fs[resolved.value].File? &&
      r.value.Keys == fs.Keys + {dst} && r.value[dst] == fs[resolved.value] &&
      forall k :: k in fs && k != dst ==> r.value[k] == fs[k]
  {
    var orig := Strip(line);
    if orig == [] then Ok(fs)
    else CopyFile(fs, CopySource(fs, orig), CopyDestination(sysLib, orig))
  }

  /** The tree after the loop, and the exception that stopped it if any;
      copies made before the exception stay in place. */
  datatype Collected = Collected(tree: Tree, failure: Option<Failure>)

  /** The loop over the lines, one `CopyLine` after another. */
  function Collect(fs: Tree, sysLib: string, lines: seq<string>): Collected
    decreases |lines|
  {
    if lines == [] then Collected(fs, None)
    else match CopyLine(fs, sysLib, lines[0])
      case Err(e) => Collected(fs, Some(e))
      case Ok(next) => Collect(next, sysLib, lines[1..])
  }

  /** The lines the loop reads: the pipeline's output with the host linker's
      path written after it, without a newline of its own. */
  function DependencyLines(lddOutput: string, l: Layout): seq<string>
  {
    SplitLines(lddOutput + l.ldSrc)
  }

  /** `pack_library` from the point where the pipeline's output is known. */
  method PackLibrary(fs: Tree, lddOutput: string, l: Layout) returns (tree: Tree, failure: Option<Failure>)
    ensures Collected(tree, failure) == Collect(fs, l.sysLib, DependencyLines(lddOutput, l))
  {
    var lines := DependencyLines(lddOutput, l);
    tree := fs;
    var i := 0;
    while i < |lines|
      invariant 0 <= i <= |lines|
      invariant Collect(tree, l.sysLib, lines[i..]) == Collect(fs, l.sysLib, lines)
    {
      assert lines[i..][1..] == lines[i + 1..];
      var step := CopyLine(tree, l.sysLib, lines[i]);
      if step.Err? {
        return tree, Some(step.error);
      }
      tree := step.value;
      i := i + 1;
    }
    failure := None;
  }

  /** Running the loop over more lines continues from where the shorter run
      stopped. */
  lemma {:induction false} CollectAppend(fs: Tree, sysLib: string, a: seq<string>, b: seq<string>)
    ensures var first := Collect(fs, sysLib, a);
      Collect(fs, sysLib, a + b) ==
        if first.failure.Some? then first else Collect(first.tree, sysLib, b)
    decreases |a|
  {
    if a == [] {
      assert a + b == b;
    } else {
      assert (a + b)[1..] == a[1..] + b;
      assert (a + b)[0] == a[0];
      var step := CopyLine(fs, sysLib, a[0]);
      if step.Ok? {
        CollectAppend(step.value, sysLib, a[1..], b);
      }
    }
  }

  /** Only the destinations named by the lines change: every other path
      keeps its entry, whether the loop finishes or stops early. */
  lemma {:induction false} CollectFrame(fs: Tree, sysLib: string, lines: seq<string>, k: string)
    requires k in fs
    requires forall i :: 0 <= i < |lines| && Strip(lines[i]) != [] ==> k != CopyDestination(sysLib, Strip(lines[i]))
    ensures var c := Collect(fs, sysLib, lines); k in c.tree && c.tree[k] == fs[k]
    decreases |lines|
  {
    if lines != [] {
      match CopyLine(fs, sysLib, lines[0])
      case Err(_) =>
      case Ok(next) =>
        assert k in next && next[k] == fs[k];
        forall i | 0 <= i < |lines[1..]| && Strip(lines[1..][i]) != []
          ensures k != CopyDestination(sysLib, Strip(lines[1..][i]))
        {
          assert lines[1..][i] == lines[i + 1];
        }
        CollectFrame(next, sysLib, lines[1..], k);
    }
  }

  /** A regular file stays a regular file, whatever the loop copies over it. */
  lemma {:induction false} CollectKeepsFile(fs: Tree, sysLib: string, lines: seq<string>, k: string)
    requires k in fs && fs[k].File?
    ensures var c := Collect(fs, sysLib, lines); k in c.tree && c.tree[k].File?
    decreases |lines|
  {
    if lines != [] {
      match CopyLine(fs, sysLib, lines[0])
      case Err(_) =>
      case Ok(next) =>
        CollectKeepsFile(next, sysLib, lines[1..], k);
    }
  }

  /** When the loop finishes, every non-blank line's library is a regular
      file in the bundled directory, under the name the line ends in. */
  lemma {:induction false} CollectCopiesEvery(fs: Tree, sysLib: string, lines: seq<string>, j: nat)
    requires j < |lines| && Strip(lines[j]) != []
    ensures var c := Collect(fs, sysLib, lines);
      var dst := CopyDestination(sysLib, Strip(lines[j]));
      c.failure == None ==> dst in c.tree && c.tree[dst].File?
    decreases j
  {
    match CopyLine(fs, sysLib, lines[0])
    case Err(_) =>
    case Ok(next) =>
      if j == 0 {
        CollectKeepsFile(next, sysLib, lines[1..], CopyDestination(sysLib, Strip(lines[0])));
      } else {
        assert lines[1..][j - 1] == lines[j];
        CollectCopiesEvery(next, sysLib, lines[1..], j - 1);
      }
  }

  /** The last line naming a destination decides it: when the loop finishes
      and no later line has the same destination, the bundled file holds
      what line `j`'s path resolved to when that line was read. */
  lemma CollectLastWriter(fs: Tree, sysLib: string, lines: seq<string>, j: nat)
    requires j < |lines| && Strip(lines[j]) != []
    requires forall i :: j < i < |lines| && Strip(lines[i]) != [] ==>
      CopyDestination(sysLib, Strip(lines[i])) != CopyDestination(sysLib, Strip(lines[j]))
    ensures var before := Collect(fs, sysLib, lines[..j]).tree;
      var c := Collect(fs, sysLib, lines);
      var dst := CopyDestination(sysLib, Strip(lines[j]));
      var resolved := Stat(before, CopySource(before, Strip(lines[j])));
      c.failure == None ==> resolved.Some? && dst in c.tree && c.tree[dst] == before[resolved.value]
  {
    var pre, post := lines[..j], lines[j..];
    assert pre + post == lines;
    CollectAppend(fs, sysLib, pre, post);
    var first := Collect(fs, sysLib, pre);
    if first.failure == None {
      assert post[0] == lines[j] && post[1..] == lines[j + 1..];
      match CopyLine(first.tree, sysLib, lines[j])
      case Err(_) =>
      case Ok(next) =>
        var dst := CopyDestination(sysLib, Strip(lines[j]));
        var rest := lines[j + 1..];
        forall i | 0 <= i < |rest| && Strip(rest[i]) != []
          ensures dst != CopyDestination(sysLib, Strip(rest[i]))
        {
          assert rest[i] == lines[j + 1 + i];
        }
        CollectFrame(next, sysLib, rest, dst);
    }
  }

  /** A line naming a link to a regular file, as a library's soname link
      does: when its copy succeeds, the bundle holds the target's content
      and mode under the link's own file name. */
  lemma CopyThroughLink(fs: Tree, sysLib: string, line: string)
    requires Strip(line) != [] && IsLink(fs, Strip(line))
    requires var t := LinkTarget(Strip(line), fs[Strip(line)].target); t in fs && fs[t].File?
    ensures var orig := Strip(line);
      var t := LinkTarget(orig, fs[orig].target);
      var c := Collect(fs, sysLib, [line]);
      c.failure == None ==>
        CopyDestination(sysLib, orig) in c.tree && c.tree[CopyDestination(sysLib, orig)] == fs[t]
  {
    CollectOne(fs, sysLib, line);
  }

  /** The host linker is always the last line processed: when the pipeline's
      output is empty or ends in a newline, the loop runs over the
      pipeline's lines and then copies the linker. */
  lemma LinkerProcessedLast(lddOutput: string, l: Layout)
    requires lddOutput == [] || lddOutput[|lddOutput| - 1] == '\n'
    requires OneLine(l.ldSrc)
    ensures DependencyLines(lddOutput, l) == SplitLines(lddOutput) + [l.ldSrc]
  {
    SplitLinesAppendLast(lddOutput, l.ldSrc);
  }

  /** A path that reads back as one line of its own: no newline in it, and
      nothing for `strip` to remove. */
  predicate OneLine(s: string)
  {
    s != [] && '\n' !in s && Strip(s) == s
  }

  /** Either linker path is one line. */
  lemma LinkerPathIsOneLine(machine: string)
    ensures OneLine(LinkerSource(machine))
  {
    if machine == "aarch64" {
      LinkerConstantIsOneLine(AArch64Linker);
    } else {
      LinkerConstantIsOneLine(X86Linker);
    }
  }

  lemma LinkerConstantIsOneLine(s: string)
    requires s == AArch64Linker || s == X86Linker
    ensures OneLine(s)
  {
    assert s[0] == '/';
    StripTrimmed(s);
  }

  /** When the loop finishes, its last step was the linker's copy, made on
      the tree the pipeline's lines left behind. */
  lemma {:induction false} LinkerCopiedLast(fs: Tree, lddOutput: string, l: Layout)
    requires lddOutput == [] || lddOutput[|lddOutput| - 1] == '\n'
    requires OneLine(l.ldSrc)
    ensures var before := Collect(fs, l.sysLib, SplitLines(lddOutput));
      var after := Collect(fs, l.sysLib, DependencyLines(lddOutput, l));
      after.failure == None ==>
        before.failure == None && CopyLine(before.tree, l.sysLib, l.ldSrc) == Ok(after.tree)
  {
    LinkerProcessedLast(lddOutput, l);
    var lines := SplitLines(lddOutput);
    CollectAppend(fs, l.sysLib, lines, [l.ldSrc]);
    CollectOne(Collect(fs, l.sysLib, lines).tree, l.sysLib, l.ldSrc);
  }

  /** The loop over a single line is that line's step. */
  lemma CollectOne(fs: Tree, sysLib: string, line: string)
    ensures var c := Collect(fs, sysLib, [line]);
      c.failure == None <==> CopyLine(fs, sysLib, line) == Ok(c.tree)
  {
    assert [line][0] == line && [line][1..] == [];
  }

  /** When the loop finishes, the bundled directory holds the linker under
      its own file name, with the content and permission bits of the file
      its path resolves to at that point. */
  lemma LinkerCollected(fs: Tree, lddOutput: string, l: Layout)
    requires lddOutput == [] || lddOutput[|lddOutput| - 1] == '\n'
    requires OneLine(l.ldSrc)
    ensures var before := Collect(fs, l.sysLib, SplitLines(lddOutput)).tree;
      var after := Collect(fs, l.sysLib, DependencyLines(lddOutput, l));
      var dst := CopyDestination(l.sysLib, l.ldSrc);
      var resolved := Stat(before, CopySource(before, l.ldSrc));
      after.failure == None ==>
        resolved.Some? && before[resolved.value].File? &&
        dst in after.tree && after.tree[dst] == before[resolved.value]
  {
    LinkerCopiedLast(fs, lddOutput, l);
  }

  /** The pack destination of the linker is the path the relinking passes
      treat as the bundled linker, when the project name is plain. */
  lemma LinkerDestinationAgrees(root: string, prefix: string, version: string, project: string, machine: string)
    requires PlainName(project)
    ensures var l := MakeLayout(root, prefix, version, project, machine);
      CopyDestination(l.sysLib, l.ldSrc) == l.ldDst
  {
    LinkerCopyPlacement(prefix, project, machine);
  }
}
