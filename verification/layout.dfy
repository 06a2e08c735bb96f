/** The paths a builder derives from its arguments (`PythonBuildBase.__init__`):
    the bundled library directory, the host dynamic linker and its bundled
    copy, the main and virtual environments, and the archive names. */
module BundleLayout {
  import opened Text
  import opened PosixPath

  /** The host linkers, `/lib64/ld-linux-aarch64.so.1` and
      `/lib64/ld-linux-x86-64.so.2`, written as directory and file name. */
  const LinkerDir: string := "/lib64/"
  const AArch64LinkerName: string := "ld-linux-aarch64.so.1"
  const X86LinkerName: string := "ld-linux-x86-64.so.2"
  const AArch64Linker: string := LinkerDir + AArch64LinkerName
  const X86Linker: string := LinkerDir + X86LinkerName

  datatype Layout = Layout(
    packagePath: string,       // <root>/Python/Python-<version>.tgz
    sysLib: string,            // <prefix>/system_lib/<project>
    ldSrc: string,             // the host's dynamic linker
    ldDst: string,             // its copy in sysLib
    envRoot: string,           // <prefix>/<version>
    virtualDir: string,        // <prefix>/<version>/<project>
    mainDir: string,           // <prefix>/<version>/<project>/main
    mainLib: string,           // <prefix>/<version>/<project>/main/lib
    tarDir: string,            // <root>/build/<project>
    virtualArchive: string,    // <tarDir>/<project>_env_virtual.tar.gz
    systemLibArchive: string   // <tarDir>/system_lib.tar.gz
  )

  /** The linker the host machine loads programs with. */
  function LinkerSource(machine: string): string
  {
    if machine == "aarch64" then AArch64Linker else X86Linker
  }

  /** `<prefix>/system_lib/<project>`: where the bundled libraries go. */
  function SystemLibDir(prefix: string, project: string): string
  {
    Join(Join(prefix, "system_lib"), project)
  }

  /** Where the host linker's copy goes: the bundled library directory
      joined with the linker's file name. */
  function LinkerCopy(sysLib: string, machine: string): string
  {
    Join(sysLib, BaseName(LinkerSource(machine)))
  }

  /** `<prefix>/<version>`. */
  function EnvRootDir(prefix: string, version: string): string
  {
    Join(prefix, version)
  }

  /** `<prefix>/<version>/<project>`: the virtual environment. */
  function VirtualEnvDir(prefix: string, version: string, project: string): string
  {
    Join(EnvRootDir(prefix, version), project)
  }

  /** `<virtual environment>/main`: where the interpreter itself is installed. */
  function MainEnvDir(prefix: string, version: string, project: string): string
  {
    Join(VirtualEnvDir(prefix, version, project), "main")
  }

  /** The main environment's private library directory. */
  function MainLibDir(prefix: string, version: string, project: string): string
  {
    Join(MainEnvDir(prefix, version, project), "lib")
  }

  /** The file name the interpreter's source package is looked up by. */
  function PackageFileName(version: string): string
  {
    "Python-" + version + ".tgz"
  }

  /** `<root>/build/<project>`: where the archives are assembled. */
  function TarDir(root: string, project: string): string
  {
    Join(Join(root, "build"), project)
  }

  /** The layout of a builder made with these arguments; `machine` is what
      `platform.machine()` reports and `root` the script's own directory. */
  function MakeLayout(root: string, prefix: string, version: string, project: string, machine: string): Layout
  {
    var sysLib := SystemLibDir(prefix, project);
    var tarDir := TarDir(root, project);
    Layout(
      packagePath := Join(Join(root, "Python"), PackageFileName(version)),
      sysLib := sysLib,
      ldSrc := LinkerSource(machine),
      ldDst := LinkerCopy(sysLib, machine),
      envRoot := EnvRootDir(prefix, version),
      virtualDir := VirtualEnvDir(prefix, version, project),
      mainDir := MainEnvDir(prefix, version, project),
      mainLib := MainLibDir(prefix, version, project),
      tarDir := tarDir,
      virtualArchive := Join(tarDir, project + "_env_virtual.tar.gz"),
      systemLibArchive := Join(tarDir, "system_lib.tar.gz"))
  }

  /** A project name that makes `<prefix>/system_lib/<project>` a directory
      path without a trailing slash. */
  predicate PlainName(s: string)
  {
    s != [] && '/' !in s
  }

  /** The ARM linker is chosen exactly for "aarch64"; every other machine
      gets the x86-64 linker. */
  lemma LinkerChoice(machine: string)
    ensures LinkerSource(machine) == AArch64Linker <==> machine == "aarch64"
    ensures LinkerSource(machine) == X86Linker <==> machine != "aarch64"
  {
    assert AArch64Linker != X86Linker by {
      assert AArch64Linker[16] != X86Linker[16];
    }
  }

  lemma LinkerName(machine: string)
    ensures BaseName(LinkerSource(machine)) != []
    ensures LinkerSource(machine) == "/lib64/" + BaseName(LinkerSource(machine))
  {
    if machine == "aarch64" {
      LinkerFileName(AArch64LinkerName);
    } else {
      LinkerFileName(X86LinkerName);
    }
  }

  lemma LinkerFileName(name: string)
    requires name != [] && '/' !in name
    ensures BaseName(LinkerDir + name) == name
  {
    BaseNameAfterSlash(LinkerDir, name);
  }

  /** Joining a plain name gives a path that ends in that name. */
  lemma JoinPlain(a: string, b: string)
    requires PlainName(b)
    ensures var j := Join(a, b); |j| >= |b| && j[|j| - |b|..] == b && j[|j| - 1] != '/'
  {
  }

  /** The bundled linker sits directly in the bundled library directory and
      keeps the host linker's file name. */
  lemma {:induction false} LinkerCopyPlacement(prefix: string, project: string, machine: string)
    requires PlainName(project)
    ensures var sysLib := SystemLibDir(prefix, project);
      var ldDst := LinkerCopy(sysLib, machine);
      DirName(ldDst) == sysLib && BaseName(ldDst) == BaseName(LinkerSource(machine)) &&
      ldDst == sysLib + "/" + BaseName(LinkerSource(machine))
  {
    var sysLib := SystemLibDir(prefix, project);
    var name := BaseName(LinkerSource(machine));
    JoinPlain(Join(prefix, "system_lib"), project);
    LinkerName(machine);
    DirNameJoin(sysLib, name);
    BaseNameJoin(sysLib, name);
    JoinWithSeparator(sysLib, name);
  }

  /** With a prefix that does not end in a slash and a plain project name,
      the bundled library directory is `<prefix>/system_lib/<project>`, and
      sits in `<prefix>/system_lib`. */
  lemma SystemLibShape(prefix: string, project: string)
    requires prefix != [] && prefix[|prefix| - 1] != '/'
    requires PlainName(project)
    ensures SystemLibDir(prefix, project) == prefix + "/system_lib/" + project
    ensures DirName(SystemLibDir(prefix, project)) == prefix + "/system_lib"
  {
    assert PlainName("system_lib");
    NestedPlainJoin(prefix, "system_lib", project);
    assert prefix + "/" + "system_lib" == prefix + "/system_lib";
    assert prefix + "/" + "system_lib" + "/" + project == prefix + "/system_lib/" + project;
  }

  /** Joining two plain names under a directory without a trailing slash
      puts a single slash before each, and the result's parent is the
      directory joined with the first name. */
  lemma NestedPlainJoin(a: string, m: string, b: string)
    requires a != [] && a[|a| - 1] != '/'
    requires PlainName(m) && PlainName(b)
    ensures Join(Join(a, m), b) == a + "/" + m + "/" + b
    ensures DirName(Join(Join(a, m), b)) == a + "/" + m
  {
    JoinWithSeparator(a, m);
    DirNameJoinPlain(a, m);
    JoinWithSeparator(Join(a, m), b);
    DirNameJoinPlain(Join(a, m), b);
  }

  /** With a prefix that does not end in a slash and plain names, the
      environment directories are the textual nesting the comments in the
      source describe. */
  lemma {:induction false} EnvironmentPaths(prefix: string, version: string, project: string)
    requires prefix != [] && prefix[|prefix| - 1] != '/'
    requires PlainName(version) && PlainName(project)
    ensures EnvRootDir(prefix, version) == prefix + "/" + version
    ensures VirtualEnvDir(prefix, version, project) == prefix + "/" + version + "/" + project
    ensures MainEnvDir(prefix, version, project) == VirtualEnvDir(prefix, version, project) + "/main"
    ensures MainLibDir(prefix, version, project) == MainEnvDir(prefix, version, project) + "/lib"
  {
    var e := EnvRootDir(prefix, version);
    var v := VirtualEnvDir(prefix, version, project);
    JoinWithSeparator(prefix, version);
    JoinPlain(prefix, version);
    JoinWithSeparator(e, project);
    JoinPlain(e, project);
    JoinWithSeparator(v, "main");
    JoinPlain(v, "main");
    JoinWithSeparator(MainEnvDir(prefix, version, project), "lib");
  }

  /** The main environment is installed inside the virtual environment's
      directory, which sits inside the version's directory. */
  lemma MainInsideVirtual(prefix: string, version: string, project: string)
    requires prefix != [] && prefix[|prefix| - 1] != '/'
    requires PlainName(version) && PlainName(project)
    ensures DirName(MainEnvDir(prefix, version, project)) == VirtualEnvDir(prefix, version, project)
    ensures DirName(VirtualEnvDir(prefix, version, project)) == EnvRootDir(prefix, version)
    ensures DirName(EnvRootDir(prefix, version)) == prefix
  {
    DirNameJoinPlain(prefix, version);
    VirtualInRoot(prefix, version, project);
    MainInVirtual(prefix, version, project);
  }

  lemma VirtualInRoot(prefix: string, version: string, project: string)
    requires prefix != [] && prefix[|prefix| - 1] != '/'
    requires PlainName(version) && PlainName(project)
    ensures var v := VirtualEnvDir(prefix, version, project);
      DirName(v) == EnvRootDir(prefix, version) && v != [] && v[|v| - 1] != '/'
  {
    DirNameJoinPlain(prefix, version);
    DirNameJoinPlain(EnvRootDir(prefix, version), project);
  }

  lemma MainInVirtual(prefix: string, version: string, project: string)
    requires prefix != [] && prefix[|prefix| - 1] != '/'
    requires PlainName(version) && PlainName(project)
    ensures DirName(MainEnvDir(prefix, version, project)) == VirtualEnvDir(prefix, version, project)
  {
    VirtualInRoot(prefix, version, project);
    assert PlainName("main");
    DirNameJoinPlain(VirtualEnvDir(prefix, version, project), "main");
  }

  /** A plain name joined onto a directory that does not end in a slash:
      the directory is the result's directory, and the result does not end
      in a slash either. */
  lemma DirNameJoinPlain(a: string, b: string)
    requires a != [] && a[|a| - 1] != '/'
    requires PlainName(b)
    ensures DirName(Join(a, b)) == a
    ensures Join(a, b) != [] && Join(a, b)[|Join(a, b)| - 1] != '/'
  {
    DirNameJoin(a, b);
    JoinPlain(a, b);
  }

  /** An absolute prefix makes every environment directory absolute. */
  lemma AbsolutePrefix(prefix: string, version: string, project: string, machine: string)
    requires IsAbsolute(prefix)
    ensures IsAbsolute(SystemLibDir(prefix, project))
    ensures IsAbsolute(LinkerCopy(SystemLibDir(prefix, project), machine))
    ensures IsAbsolute(VirtualEnvDir(prefix, version, project))
    ensures IsAbsolute(MainLibDir(prefix, version, project))
  {
    JoinKeepsAbsolute(prefix, "system_lib");
    JoinKeepsAbsolute(Join(prefix, "system_lib"), project);
    JoinKeepsAbsolute(SystemLibDir(prefix, project), BaseName(LinkerSource(machine)));
    JoinKeepsAbsolute(prefix, version);
    JoinKeepsAbsolute(EnvRootDir(prefix, version), project);
    JoinKeepsAbsolute(VirtualEnvDir(prefix, version, project), "main");
    JoinKeepsAbsolute(MainEnvDir(prefix, version, project), "lib");
  }
}
