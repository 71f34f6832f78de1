/** The part of the operating system the scanner observes, as a value:
    a tree of entries. What `fs::metadata`, `DirEntry::metadata` and
    `fs::read_dir` would report is stored in the entries themselves. */
module FileSystem {
  import opened Outcomes

  /** One directory entry.
      `len` is what `Metadata::len` reports for the entry itself (for a
      directory this is the OS's own figure, not the size of its contents);
      `modified` is the modification date already rendered as text, or
      none when `Metadata::modified` fails; `statOk` is false when reading
      the entry's metadata fails; `listing` says whether listing the
      directory succeeds. */
  datatype FsNode =
    | FileNode(name: string, len: nat, modified: Option<string>, statOk: bool)
    | DirNode(name: string, len: nat, modified: Option<string>, statOk: bool, listing: Listing, children: seq<FsNode>)

  /** The outcome of listing a directory: `read_dir` itself fails
      (for instance access denied), or reading one of its entries fails,
      each with the operating system's error text. */
  datatype Listing = Listed | OpenFailed(osError: string) | EntryFailed(osError: string)

  /** Number of entries in the subtree rooted at `n`, `n` included. */
  function NodeCount(n: FsNode): (r: nat)
    ensures r >= 1
  {
    if n.FileNode? then 1 else 1 + EntryCount(n.children)
  }

  /** Number of entries in the subtrees rooted at `cs`: every child and
      every descendant of a child. */
  function EntryCount(cs: seq<FsNode>): nat
  {
    if cs == [] then 0 else EntryCount(cs[..|cs| - 1]) + NodeCount(cs[|cs| - 1])
  }

  lemma {:induction false} EntryCountConcat(a: seq<FsNode>, b: seq<FsNode>)
    ensures EntryCount(a + b) == EntryCount(a) + EntryCount(b)
    decreases |b|
  {
    if b == [] {
      assert a + b == a;
    } else {
      assert (a + b)[..|a + b| - 1] == a + b[..|b| - 1];
      EntryCountConcat(a, b[..|b| - 1]);
    }
  }

  /** Each child's subtree is part of the forest's entries. */
  lemma ChildCountBound(cs: seq<FsNode>, i: nat)
    requires i < |cs|
    ensures NodeCount(cs[i]) <= EntryCount(cs)
  {
    assert cs == cs[..i] + [cs[i]] + cs[i + 1..];
    EntryCountConcat(cs[..i] + [cs[i]], cs[i + 1..]);
    EntryCountConcat(cs[..i], [cs[i]]);
    assert [cs[i]][..0] == [];
  }

  /** Everything the scanner reads of `n` succeeds: its metadata, its
      modification time, and for a directory its listing and, recursively,
      every entry of the listing. */
  predicate Readable(n: FsNode)
    decreases NodeCount(n), 0
  {
    n.statOk && n.modified.Some? && (n.DirNode? ==> n.listing == Listed && AllReadable(n.children))
  }

  predicate AllReadable(cs: seq<FsNode>)
    decreases EntryCount(cs), 1
  {
    cs == [] || (AllReadable(cs[..|cs| - 1]) && Readable(cs[|cs| - 1]))
  }

  /** Total length of every file in the subtrees rooted at `cs`. */
  function FileBytes(cs: seq<FsNode>): nat
    decreases EntryCount(cs), 1
  {
    if cs == [] then 0 else FileBytes(cs[..|cs| - 1]) + NodeFileBytes(cs[|cs| - 1])
  }

  function NodeFileBytes(n: FsNode): nat
    decreases NodeCount(n), 0
  {
    if n.FileNode? then n.len else FileBytes(n.children)
  }

  /** Total length of the files that sit directly in a directory with these children. */
  function DirectFileBytes(cs: seq<FsNode>): nat
  {
    if cs == [] then 0
    else DirectFileBytes(cs[..|cs| - 1]) + (if cs[|cs| - 1].FileNode? then cs[|cs| - 1].len else 0)
  }

  /** Every entry in the subtrees has a non-empty name, as `read_dir` guarantees. */
  predicate WellNamed(cs: seq<FsNode>)
  {
    forall i :: 0 <= i < |cs| ==> cs[i].name != [] && (cs[i].DirNode? ==> WellNamed(cs[i].children))
  }

  lemma WellNamedPrefix(cs: seq<FsNode>, j: nat)
    requires WellNamed(cs) && j <= |cs|
    ensures WellNamed(cs[..j])
  {
    forall i | 0 <= i < j ensures cs[..j][i] == cs[i] { }
  }

  /** Some entry directly in the directory is a file. */
  predicate HasDirectFile(cs: seq<FsNode>)
  {
    exists i :: 0 <= i < |cs| && cs[i].FileNode?
  }

  lemma HasDirectFileLast(cs: seq<FsNode>)
    requires cs != []
    ensures HasDirectFile(cs) <==> HasDirectFile(cs[..|cs| - 1]) || cs[|cs| - 1].FileNode?
  {
    var init := cs[..|cs| - 1];
    if HasDirectFile(cs) && !cs[|cs| - 1].FileNode? {
      var i :| 0 <= i < |cs| && cs[i].FileNode?;
      assert init[i].FileNode?;
    }
    if HasDirectFile(init) {
      var i :| 0 <= i < |init| && init[i].FileNode?;
      assert cs[i].FileNode?;
    }
  }
}
