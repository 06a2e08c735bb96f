/** ELF classification of a path (`_is_elf_file`): links and directories are
    never ELF; otherwise the first four bytes are compared with the ELF magic
    one at a time, left to right, and the comparison stops at the first
    mismatch. A file too short for the comparison to finish raises. */
module ElfDetect {
  import opened Outcomes
  import opened FileSystem

  /** 0x7F 'E' 'L' 'F'. */
  const ElfMagic: seq<Byte> := [127, 69, 76, 70]

  /** Evaluates `magic[k] != ElfMagic[k] or ... or magic[3] != ElfMagic[3]`
      on the bytes read; `None` is the IndexError of reading past them. */
  function CompareMagic(head: seq<Byte>, k: nat): (r: Option<bool>)
    requires k <= |head| <= 4
    ensures r == None <==> |head| < 4 && head[k..] == ElfMagic[k..|head|]
    ensures r == Some(true) <==> |head| == 4 && head[k..] == ElfMagic[k..]
    decreases 4 - k
  {
    if k == 4 then Some(true)
    else if k == |head| then None
    else if head[k] != ElfMagic[k] then
      assert head[k..][0] != ElfMagic[k..][0];
      Some(false)
    else
      var r := CompareMagic(head, k + 1);
      assert head[k..] == [head[k]] + head[k + 1..];
      assert ElfMagic[k..|head|] == [ElfMagic[k]] + ElfMagic[k + 1..|head|];
      assert ElfMagic[k..] == [ElfMagic[k]] + ElfMagic[k + 1..];
      r
  }

  /** `_is_elf_file(p)`. */
  function IsElf(fs: Tree, p: string): Result<bool>
  {
    if IsLink(fs, p) then Ok(false)
    else if IsDir(fs, p) then Ok(false)
    else if p !in fs then Err(OpenFailed(p))
    else
      var content := fs[p].content;
      var head := if |content| < 4 then content else content[..4];
      match CompareMagic(head, 0)
      case None => Err(MagicIndexError(p))
      case Some(b) => Ok(b)
  }

  /** Links and directories are not ELF; a missing path cannot be opened; a
      file of four bytes or more is ELF exactly when they are the magic; a
      shorter file is never ELF, and raises exactly when all its bytes match
      the start of the magic. */
  lemma IsElfClassifies(fs: Tree, p: string)
    ensures var r := IsElf(fs, p);
      (IsLink(fs, p) ==> r == Ok(false)) &&
      (p in fs && fs[p].Dir? ==> r == Ok(false)) &&
      (p !in fs ==> r == Err(OpenFailed(p))) &&
      (p in fs && fs[p].File? && |fs[p].content| >= 4 ==>
        r == Ok(fs[p].content[..4] == ElfMagic)) &&
      (p in fs && fs[p].File? && |fs[p].content| < 4 ==>
        (r == Err(MagicIndexError(p)) <==> fs[p].content == ElfMagic[..|fs[p].content|]) &&
        (r.Ok? ==> r.value == false) && (r.Err? ==> r.error == MagicIndexError(p)))
  {
    if p in fs && fs[p].File? {
      var content := fs[p].content;
      var head := if |content| < 4 then content else content[..4];
      assert head[0..] == head;
    }
  }
}
