/** The interpreter versions the script offers (`get_python_version`), the
    choice of builder by version (the script's entry point), and the
    install script it writes from a template (`archive`). */
module Versions {
  import opened Outcomes
  import opened Text
  import opened PosixPath
  import opened BundleLayout

  /** `name[name.find('-') + 1 : name.rfind('.tgz')]`. */
  function VersionOf(name: string): string
  {
    Slice(name, FindChar(name, '-') + 1, RFind(name, ".tgz"))
  }

  /** `get_python_version`: one version per entry of the package directory,
      in listing order. */
  method GetPythonVersion(packages: seq<string>) returns (versions: seq<string>)
    ensures |versions| == |packages|
    ensures forall i :: 0 <= i < |packages| ==> versions[i] == VersionOf(packages[i])
  {
    versions := [];
    for i := 0 to |packages|
      invariant |versions| == i
      invariant forall j :: 0 <= j < i ==> versions[j] == VersionOf(packages[j])
    {
      versions := versions + [VersionOf(packages[i])];
    }
  }

  /** The version listed for a package file is the version that file was
      named after: `Python-<v>.tgz` gives back `<v>`, whatever `<v>` is. */
  lemma {:induction false} VersionOfPackageFile(v: string)
    ensures VersionOf(PackageFileName(v)) == v
  {
    var name := PackageFileName(v);
    assert name == "Python-" + v + ".tgz";
    assert name[6] == '-';
    assert name[..6] == "Python";
    assert FindChar(name, '-') == 6;
    assert OccursAt(name, ".tgz", |name| - 4) by {
      assert name[|name| - 4..] == ".tgz";
    }
    assert RFind(name, ".tgz") == |name| - 4;
    assert name[7..|name| - 4] == v;
  }

  /** The package a builder unpacks is one whose listed version is the
      builder's version, provided the version contains no slash. */
  lemma PackagePathLists(root: string, prefix: string, version: string, project: string, machine: string)
    requires '/' !in version
    ensures VersionOf(BaseName(MakeLayout(root, prefix, version, project, machine).packagePath)) == version
  {
    var file := PackageFileName(version);
    assert '/' !in file by {
      assert file == "Python-" + version + ".tgz";
      assert forall k :: 0 <= k < |file| ==> file[k] != '/' by {
        forall k | 0 <= k < |file| ensures file[k] != '/' {
          if 7 <= k < 7 + |version| {
            assert file[k] == version[k - 7];
          }
        }
      }
    }
    BaseNameJoin(Join(root, "Python"), file);
    VersionOfPackageFile(version);
  }

  /** A file name without ".tgz" loses its last character instead, since
      `rfind` gives -1 and the slice ends one before the end. */
  lemma {:induction false} VersionOfWithoutExtension(name: string)
    requires forall j {:trigger OccursAt(name, ".tgz", j)} :: !OccursAt(name, ".tgz", j)
    requires FindChar(name, '-') + 1 <= |name| - 1
    ensures VersionOf(name) == name[FindChar(name, '-') + 1..|name| - 1]
  {
    RFindAbsent(name, ".tgz");
    SliceToLast(name, FindChar(name, '-') + 1);
  }

  /** The two ways of creating the virtual environment. */
  datatype Builder = Python3Venv | Python2Virtualenv

  /** The entry point's choice of builder: by the version's first character;
      `None` is the error exit for any other version, the empty one included. */
  function Dispatch(version: string): (r: Option<Builder>)
    ensures r == Some(Python3Venv) <==> |version| > 0 && version[0] == '3'
    ensures r == Some(Python2Virtualenv) <==> |version| > 0 && version[0] == '2'
    ensures r == None <==> |version| == 0 || (version[0] != '2' && version[0] != '3')
  {
    if StartsWith(version, "3") then Some(Python3Venv)
    else if StartsWith(version, "2") then Some(Python2Virtualenv)
    else None
  }

  const VirtualEnvPackage: string := "__virtual_env_package__"
  const SystemLibPackage: string := "__system_lib_package__"
  const VirtualEnvActive: string := "__virtual_env_active__"

  /** The install script written from the template: the three placeholders
      are replaced, in this order, by the two archive file names and the
      virtual environment's directory. */
  function InstallScript(template: string, l: Layout): string
  {
    var s1 := ReplaceAll(template, VirtualEnvPackage, BaseName(l.virtualArchive));
    var s2 := ReplaceAll(s1, SystemLibPackage, BaseName(l.systemLibArchive));
    ReplaceAll(s2, VirtualEnvActive, l.virtualDir)
  }

  /** A template without placeholders is written out unchanged. */
  lemma InstallScriptNoPlaceholders(template: string, l: Layout)
    requires Absent(template, VirtualEnvPackage)
    requires Absent(template, SystemLibPackage)
    requires Absent(template, VirtualEnvActive)
    ensures InstallScript(template, l) == template
  {
    ReplaceAbsent(template, VirtualEnvPackage, BaseName(l.virtualArchive));
    ReplaceAbsent(template, SystemLibPackage, BaseName(l.systemLibArchive));
    ReplaceAbsent(template, VirtualEnvActive, l.virtualDir);
  }

  /** A template whose only placeholder is one occurrence of the virtual
      environment's marker gets that marker replaced by the virtual
      environment's directory, and the text around it kept. */
  lemma InstallScriptFillsDirectory(a: string, b: string, l: Layout)
    requires Absent(a + VirtualEnvActive + b, VirtualEnvPackage)
    requires Absent(a + VirtualEnvActive + b, SystemLibPackage)
    requires forall i {:trigger OccursAt(a + VirtualEnvActive + b, VirtualEnvActive, i)} ::
      0 <= i < |a| ==> !OccursAt(a + VirtualEnvActive + b, VirtualEnvActive, i)
    requires Absent(b, VirtualEnvActive)
    ensures InstallScript(a + VirtualEnvActive + b, l) == a + l.virtualDir + b
  {
    var template := a + VirtualEnvActive + b;
    ReplaceAbsent(template, VirtualEnvPackage, BaseName(l.virtualArchive));
    ReplaceAbsent(template, SystemLibPackage, BaseName(l.systemLibArchive));
    ReplaceFirst(a, b, VirtualEnvActive, l.virtualDir);
    ReplaceAbsent(b, VirtualEnvActive, l.virtualDir);
  }

  /** A template whose only placeholder is one occurrence of the archive
      marker gets the environment archive's file name in its place, and the
      text around it kept, when that name brings in no other marker. */
  lemma InstallScriptFillsArchive(a: string, b: string, l: Layout)
    requires forall i {:trigger OccursAt(a + VirtualEnvPackage + b, VirtualEnvPackage, i)} ::
      0 <= i < |a| ==> !OccursAt(a + VirtualEnvPackage + b, VirtualEnvPackage, i)
    requires Absent(b, VirtualEnvPackage)
    requires Absent(a + BaseName(l.virtualArchive) + b, SystemLibPackage)
    requires Absent(a + BaseName(l.virtualArchive) + b, VirtualEnvActive)
    ensures InstallScript(a + VirtualEnvPackage + b, l) == a + BaseName(l.virtualArchive) + b
  {
    var name := BaseName(l.virtualArchive);
    ReplaceFirst(a, b, VirtualEnvPackage, name);
    ReplaceAbsent(b, VirtualEnvPackage, name);
    ReplaceAbsent(a + name + b, SystemLibPackage, BaseName(l.systemLibArchive));
    ReplaceAbsent(a + name + b, VirtualEnvActive, l.virtualDir);
  }

  /** The virtual environment's archive the install script refers to is
      named `<project>_env_virtual.tar.gz`. */
  lemma VirtualArchiveName(root: string, prefix: string, version: string, project: string, machine: string)
    requires '/' !in project
    ensures var l := MakeLayout(root, prefix, version, project, machine);
      BaseName(l.virtualArchive) == project + "_env_virtual.tar.gz"
  {
    var archive := project + "_env_virtual.tar.gz";
    assert '/' !in archive by {
      forall k | 0 <= k < |archive| ensures archive[k] != '/' {
        if k < |project| {
          assert archive[k] == project[k];
        }
      }
    }
    BaseNameJoin(TarDir(root, project), archive);
  }

  /** The bundled libraries' archive the install script refers to is named
      `system_lib.tar.gz`, whatever the project. */
  lemma SystemLibArchiveName(root: string, prefix: string, version: string, project: string, machine: string)
    ensures var l := MakeLayout(root, prefix, version, project, machine);
      BaseName(l.systemLibArchive) == "system_lib.tar.gz"
  {
    BaseNameJoin(TarDir(root, project), "system_lib.tar.gz");
  }
}
