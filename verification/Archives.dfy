/** Tarballs, as the programs that unpack them see them, and files written from them. */
module Archives {
  import opened Files

  /** One tar entry. A link is kept in the tree as the text of its target. */
  datatype Entry =
    | Directory(name: string)
    | Regular(name: string, data: string)
    | Link(name: string, to: string)
    | Other(name: string)

  /** What xz and tar make of a tarball: the entries up to its end, or up to where reading failed,
      the last of them then short. (A failure between two entries is one in an empty Other entry.) */
  datatype Archive = Archive(entries: seq<Entry>, readable: bool)

  /** The functions the model leaves abstract. */
  datatype Tools = Tools(digest: string -> string, decode: string -> Archive)

  /** One write a byte: a copy that writes more at once can be killed in fewer places. */
  function Fill(path: string, data: string): seq<Op> {
    if data == "" then [] else [Append(path, data[..1])] + Fill(path, data[1..])
  }

  lemma {:induction false} FillFills(t: Tree, path: string, data: string)
    requires path in t
    ensures Exec(t, Fill(path, data)) == t[path := t[path] + data]
    decreases |data|
  {
    if data == "" {
      assert t[path] + data == t[path];
    } else {
      FillFills(t[path := t[path] + data[..1]], path, data[1..]);
      assert t[path] + data[..1] + data[1..] == t[path] + data;
    }
  }

  lemma {:induction false} FileWritten(t: Tree, target: string, data: string)
    ensures Exec(t, [Create(target)] + Fill(target, data)) == t[target := data]
  {
    ExecCat(t, [Create(target)], Fill(target, data));
    ExecOne(t, Create(target));
    FillFills(t[target := ""], target, data);
    assert "" + data == data;
  }

  lemma {:induction false} FillBelow(path: string, data: string)
    ensures forall op :: op in Fill(path, data) ==> op.Append? && op.path == path
  {
    if data != "" { FillBelow(path, data[1..]); }
  }

  /** Create the file and copy the bytes in, as writeLLVMFile and writeSeedKernel do. */
  method WriteFile(disk: Disk, target: string, data: string) returns (alive: bool)
    modifies disk
    ensures (disk.tree, disk.fuel) == Run(old(disk.tree), old(disk.fuel), [Create(target)] + Fill(target, data))
    ensures alive <==> 1 + |Fill(target, data)| <= old(disk.fuel)
  {
    assert ([Create(target)] + Fill(target, data))[1..] == Fill(target, data);
    alive := disk.Do(Create(target));
    if !alive { return; }
    var left := data;
    ghost var t, fuel := disk.tree, disk.fuel;
    while left != ""
      invariant Run(disk.tree, disk.fuel, Fill(target, left)) == Run(t, fuel, Fill(target, data))
      invariant |Fill(target, left)| <= disk.fuel <==> |Fill(target, data)| <= fuel
      decreases |left|
    {
      alive := disk.Do(Append(target, left[..1]));
      if !alive { return; }
      left := left[1..];
    }
    alive := true;
  }
}
