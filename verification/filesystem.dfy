/** The file system as the build script sees it: a map from path text to
    entry. Links are resolved the way the kernel resolves them for `stat`
    and `open`: a relative target is taken relative to the directory that
    holds the link, and more than `MaxSymlinks` links in a row fail. */
module FileSystem {
  import opened Outcomes
  import opened PosixPath

  type Byte = x: int | 0 <= x < 256

  /** A regular file carries its bytes and its permission bits. */
  datatype Entry = File(content: seq<Byte>, mode: nat) | Dir | Symlink(target: string)

  type Tree = map<string, Entry>

  /** Linux gives up with ELOOP after this many links in one lookup. */
  function MaxSymlinks(): nat { 40 }

  /** The path a link's target names, as `os.path.join(os.path.dirname(link), target)`. */
  function LinkTarget(link: string, target: string): string
  {
    Join(DirName(link), target)
  }

  /** Follows links from `p`, at most `budget` of them, to an entry that is
      not a link; `None` when a path is missing or the budget runs out. */
  function Follow(fs: Tree, p: string, budget: nat): (r: Option<string>)
    ensures r.Some? ==> r.value in fs && !fs[r.value].Symlink?
    ensures p !in fs ==> r == None
    ensures p in fs && !fs[p].Symlink? ==> r == Some(p)
    decreases budget
  {
    if p !in fs then None
    else match fs[p]
      case Symlink(t) => if budget == 0 then None else Follow(fs, LinkTarget(p, t), budget - 1)
      case _ => Some(p)
  }

  /** A link whose target is an existing entry that is not a link resolves,
      with one link to spare, to that target. */
  lemma FollowLink(fs: Tree, p: string, budget: nat)
    requires p in fs && fs[p].Symlink? && budget > 0
    requires LinkTarget(p, fs[p].target) in fs && !fs[LinkTarget(p, fs[p].target)].Symlink?
    ensures Follow(fs, p, budget) == Some(LinkTarget(p, fs[p].target))
  {
  }

  /** The entry `stat(p)` reports, by the path that holds it. */
  function Stat(fs: Tree, p: string): Option<string>
  {
    Follow(fs, p, MaxSymlinks())
  }

  /** `os.path.islink`: the entry itself is a link. */
  predicate IsLink(fs: Tree, p: string)
  {
    p in fs && fs[p].Symlink?
  }

  /** `os.path.isfile`: a regular file, after following links. */
  predicate IsFile(fs: Tree, p: string)
  {
    var q := Stat(fs, p);
    q.Some? && fs[q.value].File?
  }

  /** `os.path.isdir`: a directory, after following links. */
  predicate IsDir(fs: Tree, p: string)
  {
    var q := Stat(fs, p);
    q.Some? && fs[q.value].Dir?
  }
}
