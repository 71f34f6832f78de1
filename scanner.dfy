/** `scan_file_system`: the recursive walk that emits one record per entry
    below a root and adds every file's length to the shared `dir_sizes`
    table under the formatted path of the directory holding the file.
    The parallel map over the children is run one child after another;
    its only shared effect is the commutative `+=` on the table, and the
    per-child results are concatenated in child order either way. */
module Scanner {
  import opened Outcomes
  import opened Paths
  import opened FileSystem
  import opened Items

  const InvalidPath := "Invalid path"
  const ReadDirFailed := "Failed to read directory: "

  /** The value a key reads as, zero when absent (`entry(k).or_insert(0)`). */
  function Lookup(t: map<string, nat>, k: string): nat
  {
    if k in t then t[k] else 0
  }

  /** The shared `Arc<Mutex<HashMap<String, u128>>>` of directory sizes. */
  class DirSizes {
    var sizes: map<string, nat>

    constructor ()
      ensures sizes == map[]
    {
      sizes := map[];
    }

    /** `*dir_sizes.entry(key).or_insert(0) += delta`, under the lock. */
    method Add(key: string, delta: nat)
      modifies this
      ensures sizes == old(sizes)[key := Lookup(old(sizes), key) + delta]
    {
      sizes := sizes[key := Lookup(sizes, key) + delta];
    }
  }

  /** One file's `+=` on the table: the key and the amount. */
  datatype Contribution = Contribution(key: string, size: nat)

  /** The table after the contributions are applied one after another. */
  function Accumulate(t: map<string, nat>, cs: seq<Contribution>): map<string, nat>
  {
    if cs == [] then t
    else
      var u := Accumulate(t, cs[..|cs| - 1]);
      var c := cs[|cs| - 1];
      u[c.key := Lookup(u, c.key) + c.size]
  }

  /** The total of the contributions made under key `k`. */
  function SumFor(cs: seq<Contribution>, k: string): nat
  {
    if cs == [] then 0
    else SumFor(cs[..|cs| - 1], k) + (if cs[|cs| - 1].key == k then cs[|cs| - 1].size else 0)
  }

  function KeysOf(cs: seq<Contribution>): set<string>
  {
    set c | c in cs :: c.key
  }

  /** Applying contributions creates exactly the keys they name and adds
      to every key exactly the total contributed under it. */
  lemma AccumulateAt(t: map<string, nat>, cs: seq<Contribution>, k: string)
    ensures k in Accumulate(t, cs) <==> k in t || k in KeysOf(cs)
    ensures Lookup(Accumulate(t, cs), k) == Lookup(t, k) + SumFor(cs, k)
  {
    AccumulateKeys(t, cs, k);
    AccumulateValue(t, cs, k);
  }

  lemma {:induction false} AccumulateKeys(t: map<string, nat>, cs: seq<Contribution>, k: string)
    ensures k in Accumulate(t, cs) <==> k in t || k in KeysOf(cs)
  {
    if cs != [] {
      var init, c := cs[..|cs| - 1], cs[|cs| - 1];
      AccumulateKeys(t, init, k);
      assert cs == init + [c];
      KeysOfConcat(init, [c]);
      assert KeysOf([c]) == {c.key};
    }
  }

  lemma {:induction false} AccumulateValue(t: map<string, nat>, cs: seq<Contribution>, k: string)
    ensures Lookup(Accumulate(t, cs), k) == Lookup(t, k) + SumFor(cs, k)
  {
    if cs != [] {
      AccumulateValue(t, cs[..|cs| - 1], k);
    }
  }

  /** No value ever decreases and no key ever disappears. */
  lemma AccumulateGrows(t: map<string, nat>, cs: seq<Contribution>)
    ensures forall k :: k in t ==> k in Accumulate(t, cs) && Accumulate(t, cs)[k] >= t[k]
  {
    forall k | k in t
      ensures k in Accumulate(t, cs) && Accumulate(t, cs)[k] >= t[k]
    {
      AccumulateAt(t, cs, k);
    }
  }

  lemma {:induction false} AccumulateSplit(t: map<string, nat>, a: seq<Contribution>, b: seq<Contribution>)
    ensures Accumulate(t, a + b) == Accumulate(Accumulate(t, a), b)
    decreases |b|
  {
    if b == [] {
      assert a + b == a;
    } else {
      assert (a + b)[..|a + b| - 1] == a + b[..|b| - 1];
      AccumulateSplit(t, a, b[..|b| - 1]);
    }
  }

  lemma {:induction false} SumForConcat(a: seq<Contribution>, b: seq<Contribution>, k: string)
    ensures SumFor(a + b, k) == SumFor(a, k) + SumFor(b, k)
    decreases |b|
  {
    if b == [] {
      assert a + b == a;
    } else {
      assert (a + b)[..|a + b| - 1] == a + b[..|b| - 1];
      SumForConcat(a, b[..|b| - 1], k);
    }
  }

  lemma MultisetRemove(b: seq<Contribution>, j: nat)
    requires j < |b|
    ensures multiset(b[..j] + b[j + 1..]) == multiset(b) - multiset{b[j]}
  {
    assert b == b[..j] + [b[j]] + b[j + 1..];
    assert multiset(b) == multiset(b[..j]) + multiset{b[j]} + multiset(b[j + 1..]);
  }

  lemma SumForRemove(b: seq<Contribution>, j: nat, k: string)
    requires j < |b|
    ensures SumFor(b, k) == SumFor(b[..j] + b[j + 1..], k) + (if b[j].key == k then b[j].size else 0)
  {
    assert b == b[..j] + [b[j]] + b[j + 1..];
    SumForConcat(b[..j] + [b[j]], b[j + 1..], k);
    SumForConcat(b[..j], [b[j]], k);
    SumForConcat(b[..j], b[j + 1..], k);
    assert [b[j]][..0] == [];
  }

  lemma {:induction false} SumForPermutation(a: seq<Contribution>, b: seq<Contribution>, k: string)
    requires multiset(a) == multiset(b)
    ensures SumFor(a, k) == SumFor(b, k)
    decreases |a|
  {
    if a != [] {
      var x := a[|a| - 1];
      assert x in multiset(b);
      var j :| 0 <= j < |b| && b[j] == x;
      var a', b' := a[..|a| - 1], b[..j] + b[j + 1..];
      assert multiset(a') == multiset(b') by {
        MultisetRemove(b, j);
        MultisetRemove(a, |a| - 1);
        assert a[..|a| - 1] + a[|a|..] == a';
      }
      SumForPermutation(a', b', k);
      SumForRemove(b, j, k);
      assert SumFor(a, k) == SumFor(a', k) + (if x.key == k then x.size else 0);
    }
  }

  /** The order in which the files' `+=` happen does not change the final
      table: any reordering of the contributions yields the same map. */
  lemma AccumulateOrderIrrelevant(t: map<string, nat>, a: seq<Contribution>, b: seq<Contribution>)
    requires multiset(a) == multiset(b)
    ensures Accumulate(t, a) == Accumulate(t, b)
  {
    assert KeysOf(a) == KeysOf(b) by {
      forall c | c in a ensures c in b { assert c in multiset(a); }
      forall c | c in b ensures c in a { assert c in multiset(b); }
    }
    forall k
      ensures (k in Accumulate(t, a) <==> k in Accumulate(t, b))
      ensures Lookup(Accumulate(t, a), k) == Lookup(Accumulate(t, b), k)
    {
      AccumulateAt(t, a, k);
      AccumulateAt(t, b, k);
      SumForPermutation(a, b, k);
    }
  }

  /** The size of a root measured for termination. */
  function RootCount(root: Option<FsNode>): nat
  {
    if root.Some? then NodeCount(root.value) else 0
  }

  /** What `scan_file_system(path, ..)` returns for the entry `root` found
      at `path` (none when nothing exists there). */
  function Scan(target: Target, path: string, root: Option<FsNode>): (r: Outcome<seq<ItemFS>>)
    ensures r.Ok? ==> root.Some? && root.value.statOk && root.value.DirNode? && root.value.listing == Listed
    decreases RootCount(root), 0
  {
    if root.None? || !root.value.statOk || !root.value.DirNode? then Err(InvalidPath)
    else if root.value.listing.OpenFailed? then Err(ReadDirFailed + root.value.listing.osError)
    else if root.value.listing.EntryFailed? then Err(root.value.listing.osError)
    else
      match ChildrenRecords(target, path, root.value.children)
      case Ok(parts) => Ok(Flatten(parts))
      case _ => Panic
  }

  /** The records the closure of the parallel map yields for child `c` of
      `dir`: its own record, followed for a directory by the result of the
      recursive scan; any failure is a panic (`.expect("")`). */
  function ChildRecords(target: Target, dir: string, c: FsNode): Outcome<seq<ItemFS>>
    decreases NodeCount(c), 1
  {
    match FromDirEntry(target, dir, c)
    case Ok(item) =>
      if c.FileNode? then Ok([item])
      else (match Scan(target, Join(target, dir, c.name), Some(c))
            case Ok(sub) => Ok([item] + sub)
            case _ => Panic)
    case _ => Panic
  }

  /** The collected parallel map over the children: one part per child, or a
      panic when any child panics. */
  function ChildrenRecords(target: Target, dir: string, cs: seq<FsNode>): Outcome<seq<seq<ItemFS>>>
    decreases EntryCount(cs), 2
  {
    if cs == [] then Ok([])
    else
      match ChildrenRecords(target, dir, cs[..|cs| - 1])
      case Ok(parts) =>
        (match ChildRecords(target, dir, cs[|cs| - 1])
         case Ok(part) => Ok(parts + [part])
         case _ => Panic)
      case _ => Panic
  }

  function Flatten(parts: seq<seq<ItemFS>>): seq<ItemFS>
  {
    if parts == [] then [] else Flatten(parts[..|parts| - 1]) + parts[|parts| - 1]
  }

  /** The table updates made while scanning a directory with children `cs`
      at `dir`, in child order: each file adds its length under the
      formatted path of the directory directly containing it. */
  function Contribs(target: Target, dir: string, cs: seq<FsNode>): seq<Contribution>
    decreases EntryCount(cs), 1
  {
    if cs == [] then []
    else Contribs(target, dir, cs[..|cs| - 1]) + ChildContribs(target, dir, cs[|cs| - 1])
  }

  function ChildContribs(target: Target, dir: string, c: FsNode): seq<Contribution>
    decreases NodeCount(c), 0
  {
    if c.FileNode? then [Contribution(FormatPath(target, dir), c.len)]
    else Contribs(target, Join(target, dir, c.name), c.children)
  }

  /** A panic among the first children is a panic of the whole map. */
  lemma {:induction false} PanicPersists(target: Target, dir: string, cs: seq<FsNode>, j: nat)
    requires j <= |cs|
    requires ChildrenRecords(target, dir, cs[..j]).Panic?
    ensures ChildrenRecords(target, dir, cs).Panic?
    decreases |cs|
  {
    if j < |cs| {
      assert cs[..|cs| - 1][..j] == cs[..j];
      PanicPersists(target, dir, cs[..|cs| - 1], j);
    } else {
      assert cs[..j] == cs;
    }
  }

  lemma ChildrenRecordsSnoc(target: Target, dir: string, cs: seq<FsNode>, c: FsNode,
                            parts: seq<seq<ItemFS>>, part: seq<ItemFS>)
    requires ChildrenRecords(target, dir, cs) == Ok(parts)
    requires ChildRecords(target, dir, c) == Ok(part)
    ensures ChildrenRecords(target, dir, cs + [c]) == Ok(parts + [part])
  {
    assert (cs + [c])[..|cs|] == cs;
  }

  lemma ContribsSnoc(target: Target, dir: string, cs: seq<FsNode>, c: FsNode)
    ensures Contribs(target, dir, cs + [c]) == Contribs(target, dir, cs) + ChildContribs(target, dir, c)
  {
    assert (cs + [c])[..|cs|] == cs;
  }

  /** One more child handled: its part is appended and its contributions applied. */
  lemma MapStep(target: Target, dir: string, cs: seq<FsNode>, i: nat,
                parts: seq<seq<ItemFS>>, part: seq<ItemFS>, t: map<string, nat>)
    requires i < |cs|
    requires ChildrenRecords(target, dir, cs[..i]) == Ok(parts)
    requires ChildRecords(target, dir, cs[i]) == Ok(part)
    ensures ChildrenRecords(target, dir, cs[..i + 1]) == Ok(parts + [part])
    ensures Accumulate(Accumulate(t, Contribs(target, dir, cs[..i])), ChildContribs(target, dir, cs[i]))
      == Accumulate(t, Contribs(target, dir, cs[..i + 1]))
  {
    assert cs[..i + 1] == cs[..i] + [cs[i]];
    ChildrenRecordsSnoc(target, dir, cs[..i], cs[i], parts, part);
    ContribsSnoc(target, dir, cs[..i], cs[i]);
    AccumulateSplit(t, Contribs(target, dir, cs[..i]), ChildContribs(target, dir, cs[i]));
  }

  /** `scan_file_system` over the abstract tree, with `dir_sizes` as a
      shared object. The result is `Scan`; an error leaves the table as it
      was; a successful scan has applied exactly `Contribs` to it. After a
      panic the table is not specified. */
  method ScanFileSystem(target: Target, path: string, root: Option<FsNode>, dirSizes: DirSizes)
    returns (r: Outcome<seq<ItemFS>>)
    modifies dirSizes
    decreases RootCount(root), 1
    ensures r == Scan(target, path, root)
    ensures r.Err? ==> dirSizes.sizes == old(dirSizes.sizes)
    ensures r.Ok? ==> dirSizes.sizes == Accumulate(old(dirSizes.sizes), Contribs(target, path, root.value.children))
  {
    if root.None? || !root.value.statOk || !root.value.DirNode? {
      return Err(InvalidPath);
    }
    match root.value.listing {
      case OpenFailed(e) => return Err(ReadDirFailed + e);
      case EntryFailed(e) => return Err(e);
      case Listed =>
    }
    var indexed := MapChildren(target, path, root.value, dirSizes);
    if !indexed.Ok? {
      return Panic;
    }
    var index := Extend(indexed.value);
    return Ok(index);
  }

  /** The closing loop `for entry in indexed_entries { index.extend(entry) }`:
      the parts joined in order. */
  method Extend(parts: seq<seq<ItemFS>>) returns (index: seq<ItemFS>)
    ensures index == Flatten(parts)
  {
    index := [];
    for j := 0 to |parts|
      invariant index == Flatten(parts[..j])
    {
      assert parts[..j + 1][..j] == parts[..j];
      index := index + parts[j];
    }
    assert parts[..|parts|] == parts;
  }

  /** The `par_iter().map(..).collect()` over the children of directory
      `d` found at `dir`, one child after another. */
  method MapChildren(target: Target, dir: string, d: FsNode, dirSizes: DirSizes)
    returns (r: Outcome<seq<seq<ItemFS>>>)
    requires d.DirNode?
    modifies dirSizes
    decreases NodeCount(d), 0
    ensures r == ChildrenRecords(target, dir, d.children)
    ensures r.Ok? ==> dirSizes.sizes == Accumulate(old(dirSizes.sizes), Contribs(target, dir, d.children))
  {
    var children := d.children;
    var parts: seq<seq<ItemFS>> := [];
    var i := 0;
    while i < |children|
      invariant 0 <= i <= |children|
      invariant ChildrenRecords(target, dir, children[..i]) == Ok(parts)
      invariant dirSizes.sizes == Accumulate(old(dirSizes.sizes), Contribs(target, dir, children[..i]))
    {
      ChildCountBound(children, i);
      var part := ScanChild(target, dir, children[i], dirSizes);
      if !part.Ok? {
        PanicPersists(target, dir, children, i + 1);
        return Panic;
      }
      MapStep(target, dir, children, i, parts, part.value, old(dirSizes.sizes));
      parts := parts + [part.value];
      i := i + 1;
    }
    assert children[..i] == children;
    return Ok(parts);
  }

  /** The closure run for one child `c` of `dir`: classify it; recurse into
      a directory; add a file's length to the entry of its parent. */
  method ScanChild(target: Target, dir: string, c: FsNode, dirSizes: DirSizes)
    returns (r: Outcome<seq<ItemFS>>)
    modifies dirSizes
    decreases NodeCount(c), 2
    ensures r == ChildRecords(target, dir, c)
    ensures r.Ok? ==> dirSizes.sizes == Accumulate(old(dirSizes.sizes), ChildContribs(target, dir, c))
  {
    var item := FromDirEntry(target, dir, c);
    if !item.Ok? {
      return Panic;
    }
    if c.DirNode? {
      var sub := ScanFileSystem(target, Join(target, dir, c.name), Some(c), dirSizes);
      if !sub.Ok? {
        return Panic;
      }
      return Ok([item.value] + sub.value);
    }
    dirSizes.Add(FormatPath(target, dir), item.value.size);
    assert [Contribution(FormatPath(target, dir), c.len)][..0] == [];
    return Ok([item.value]);
  }

  /** A root that is missing, unreadable or not a directory is rejected
      with "Invalid path"; a directory that cannot be opened with the read
      error; one whose entries cannot be read with the error itself;
      nothing else is rejected (a failure further down is a panic). */
  lemma ScanErrors(target: Target, path: string, root: Option<FsNode>)
    ensures Scan(target, path, root).Err? <==>
      root.None? || !root.value.statOk || !root.value.DirNode? || !root.value.listing.Listed?
    ensures root.None? || !root.value.statOk || !root.value.DirNode? ==>
      Scan(target, path, root) == Err(InvalidPath)
    ensures root.Some? && root.value.statOk && root.value.DirNode? && root.value.listing.OpenFailed? ==>
      Scan(target, path, root) == Err(ReadDirFailed + root.value.listing.osError)
    ensures root.Some? && root.value.statOk && root.value.DirNode? && root.value.listing.EntryFailed? ==>
      Scan(target, path, root) == Err(root.value.listing.osError)
  {
  }

  /** A scan succeeds exactly when the root is a readable, listable
      directory and every entry below it, at any depth, is readable. */
  lemma {:induction false} ScanOkIff(target: Target, path: string, root: FsNode)
    ensures Scan(target, path, Some(root)).Ok? <==>
      root.statOk && root.DirNode? && root.listing == Listed && AllReadable(root.children)
    decreases NodeCount(root), 0
  {
    if root.statOk && root.DirNode? && root.listing == Listed {
      ChildrenRecordsOkIff(target, path, root.children);
    }
  }

  lemma {:induction false} ChildRecordsOkIff(target: Target, dir: string, c: FsNode)
    ensures ChildRecords(target, dir, c).Ok? <==> Readable(c)
    decreases NodeCount(c), 1
  {
    if c.DirNode? {
      ScanOkIff(target, Join(target, dir, c.name), c);
    }
  }

  lemma {:induction false} ChildrenRecordsOkIff(target: Target, dir: string, cs: seq<FsNode>)
    ensures ChildrenRecords(target, dir, cs).Ok? <==> AllReadable(cs)
    decreases EntryCount(cs), 2
  {
    if cs != [] {
      ChildCountBound(cs, |cs| - 1);
      ChildrenRecordsOkIff(target, dir, cs[..|cs| - 1]);
      ChildRecordsOkIff(target, dir, cs[|cs| - 1]);
    }
  }

  /** A scan of a listable directory panics exactly when some entry below
      it, at any depth, cannot be read: the failure is never swallowed. */
  lemma ScanPanicsIff(target: Target, path: string, root: FsNode)
    ensures Scan(target, path, Some(root)).Panic? <==>
      root.statOk && root.DirNode? && root.listing == Listed && !AllReadable(root.children)
  {
    ScanOkIff(target, path, root);
    ScanErrors(target, path, Some(root));
  }

  /** The collected map never yields an error of its own: it is a list of
      parts or a panic. */
  lemma ChildrenRecordsNotErr(target: Target, dir: string, cs: seq<FsNode>)
    ensures !ChildrenRecords(target, dir, cs).Err?
  {
  }

  /** One child that does not yield its records makes the whole collected
      map a panic, whatever the other children yield. */
  lemma ChildPanicPanics(target: Target, dir: string, cs: seq<FsNode>, i: nat)
    requires i < |cs| && !ChildRecords(target, dir, cs[i]).Ok?
    ensures ChildrenRecords(target, dir, cs).Panic?
  {
    var upTo := cs[..i + 1];
    assert upTo[..|upTo| - 1] == cs[..i] && upTo[|upTo| - 1] == cs[i];
    ChildrenRecordsNotErr(target, dir, cs[..i]);
    assert ChildrenRecords(target, dir, upTo).Panic?;
    PanicPersists(target, dir, cs, i + 1);
  }

  /** A file child's record sits in the output at the offset of its block,
      right after the records of the children before it. */
  lemma FileRecordAt(target: Target, path: string, root: Option<FsNode>, i: nat)
    requires Scan(target, path, root).Ok?
    requires i < |root.value.children| && root.value.children[i].FileNode?
    ensures var c := root.value.children[i];
      var items := Scan(target, path, root).value;
      var n := EntryCount(root.value.children[..i]);
      FromDirEntry(target, path, c).Ok? && n < |items| && items[n] == FromDirEntry(target, path, c).value
  {
    var cs := root.value.children;
    ScanParts(target, path, root);
    ChildBlock(target, path, cs, i);
    var items := Scan(target, path, root).value;
    var n := EntryCount(cs[..i]);
    assert ChildRecords(target, path, cs[i]).value == [FromDirEntry(target, path, cs[i]).value];
    assert items[n] == items[n..n + 1][0];
  }

  /** An empty readable directory scans to no records and leaves the table as it was. */
  lemma ScanEmptyDirectory(target: Target, path: string, root: FsNode, t: map<string, nat>)
    requires root.DirNode? && root.statOk && root.listing == Listed && root.children == []
    ensures Scan(target, path, Some(root)) == Ok([])
    ensures Accumulate(t, Contribs(target, path, root.children)) == t
  {
  }

  lemma FlattenSnoc(parts: seq<seq<ItemFS>>, part: seq<ItemFS>)
    ensures Flatten(parts + [part]) == Flatten(parts) + part
  {
    assert (parts + [part])[..|parts|] == parts;
  }

  /** One record per entry of the subtree, the root itself excluded. */
  lemma {:induction false} ScanCount(target: Target, path: string, root: Option<FsNode>)
    requires Scan(target, path, root).Ok?
    ensures |Scan(target, path, root).value| == EntryCount(root.value.children)
    decreases RootCount(root), 0
  {
    ChildrenRecordsCount(target, path, root.value.children);
  }

  lemma {:induction false} ChildRecordsCount(target: Target, dir: string, c: FsNode)
    requires ChildRecords(target, dir, c).Ok?
    ensures |ChildRecords(target, dir, c).value| == NodeCount(c)
    decreases NodeCount(c), 1
  {
    if c.DirNode? {
      ScanCount(target, Join(target, dir, c.name), Some(c));
    }
  }

  lemma {:induction false} ChildrenRecordsCount(target: Target, dir: string, cs: seq<FsNode>)
    requires ChildrenRecords(target, dir, cs).Ok?
    ensures |Flatten(ChildrenRecords(target, dir, cs).value)| == EntryCount(cs)
    decreases EntryCount(cs), 2
  {
    if cs != [] {
      var init := cs[..|cs| - 1];
      ChildrenRecordsCount(target, dir, init);
      ChildRecordsCount(target, dir, cs[|cs| - 1]);
      FlattenSnoc(ChildrenRecords(target, dir, init).value, ChildRecords(target, dir, cs[|cs| - 1]).value);
    }
  }

  /** The records of the first children are a prefix of the records of all. */
  lemma {:induction false} ChildrenRecordsPrefix(target: Target, dir: string, cs: seq<FsNode>, j: nat)
    requires ChildrenRecords(target, dir, cs).Ok? && j <= |cs|
    ensures ChildrenRecords(target, dir, cs[..j]).Ok?
    ensures Flatten(ChildrenRecords(target, dir, cs[..j]).value) <= Flatten(ChildrenRecords(target, dir, cs).value)
    decreases |cs|
  {
    if j == |cs| {
      assert cs[..j] == cs;
    } else {
      var init := cs[..|cs| - 1];
      assert init[..j] == cs[..j];
      ChildrenRecordsPrefix(target, dir, init, j);
      FlattenSnoc(ChildrenRecords(target, dir, init).value, ChildRecords(target, dir, cs[|cs| - 1]).value);
    }
  }

  /** The records of child `i` sit, as one block, right after the records
      of the children before it. */
  lemma ChildBlock(target: Target, dir: string, cs: seq<FsNode>, i: nat)
    requires ChildrenRecords(target, dir, cs).Ok? && i < |cs|
    ensures ChildRecords(target, dir, cs[i]).Ok?
    ensures var part := ChildRecords(target, dir, cs[i]).value;
      var all := Flatten(ChildrenRecords(target, dir, cs).value);
      var n := EntryCount(cs[..i]);
      n + |part| <= |all| && all[n..n + |part|] == part
  {
    SplitAt(target, dir, cs, i);
    ChildrenRecordsCount(target, dir, cs[..i]);
    PrefixSlice(Flatten(ChildrenRecords(target, dir, cs[..i]).value), ChildRecords(target, dir, cs[i]).value,
                Flatten(ChildrenRecords(target, dir, cs).value), EntryCount(cs[..i]));
  }

  lemma SplitAt(target: Target, dir: string, cs: seq<FsNode>, i: nat)
    requires ChildrenRecords(target, dir, cs).Ok? && i < |cs|
    ensures ChildrenRecords(target, dir, cs[..i]).Ok? && ChildRecords(target, dir, cs[i]).Ok?
    ensures Flatten(ChildrenRecords(target, dir, cs[..i]).value) + ChildRecords(target, dir, cs[i]).value
      <= Flatten(ChildrenRecords(target, dir, cs).value)
  {
    ChildrenRecordsPrefix(target, dir, cs, i + 1);
    var upTo := cs[..i + 1];
    assert upTo[..|upTo| - 1] == cs[..i] && upTo[|upTo| - 1] == cs[i];
    ChildrenRecordsLast(target, dir, upTo);
    FlattenSnoc(ChildrenRecords(target, dir, cs[..i]).value, ChildRecords(target, dir, cs[i]).value);
  }

  lemma PrefixSlice(p: seq<ItemFS>, q: seq<ItemFS>, s: seq<ItemFS>, n: nat)
    requires p + q <= s && |p| == n
    ensures n + |q| <= |s| && s[n..n + |q|] == q
  {
    assert s[..|p| + |q|] == p + q;
  }

  lemma ChildrenRecordsLast(target: Target, dir: string, cs: seq<FsNode>)
    requires cs != [] && ChildrenRecords(target, dir, cs).Ok?
    ensures ChildrenRecords(target, dir, cs[..|cs| - 1]).Ok?
    ensures ChildRecords(target, dir, cs[|cs| - 1]).Ok?
    ensures ChildrenRecords(target, dir, cs).value ==
      ChildrenRecords(target, dir, cs[..|cs| - 1]).value + [ChildRecords(target, dir, cs[|cs| - 1]).value]
  {
  }

  /** A successful scan is the concatenation of its children's parts. */
  lemma ScanParts(target: Target, path: string, root: Option<FsNode>)
    requires Scan(target, path, root).Ok?
    ensures root.Some? && root.value.DirNode?
    ensures ChildrenRecords(target, path, root.value.children).Ok?
    ensures Scan(target, path, root).value == Flatten(ChildrenRecords(target, path, root.value.children).value)
  {
  }

  /** The part of a subdirectory child: its own record, then its subtree's records. */
  lemma ChildRecordsOfDir(target: Target, dir: string, c: FsNode)
    requires c.DirNode? && ChildRecords(target, dir, c).Ok?
    ensures FromDirEntry(target, dir, c).Ok?
    ensures Scan(target, Join(target, dir, c.name), Some(c)).Ok?
    ensures ChildRecords(target, dir, c).value ==
      [FromDirEntry(target, dir, c).value] + Scan(target, Join(target, dir, c.name), Some(c)).value
  {
  }

  lemma BlockHeadTail(s: seq<ItemFS>, n: nat, x: ItemFS, q: seq<ItemFS>)
    requires n + 1 + |q| <= |s| && s[n..n + 1 + |q|] == [x] + q
    ensures s[n] == x && s[n + 1..n + 1 + |q|] == q
  {
    assert s[n] == s[n..n + 1 + |q|][0];
    assert s[n + 1..n + 1 + |q|] == s[n..n + 1 + |q|][1..];
  }

  /** A subdirectory's own record comes first among the records of its
      child, and the records of its whole subtree follow it directly. */
  lemma DirRecordPrecedesSubtree(target: Target, path: string, root: Option<FsNode>, i: nat)
    requires Scan(target, path, root).Ok?
    requires i < |root.value.children| && root.value.children[i].DirNode?
    ensures var c := root.value.children[i];
      var items := Scan(target, path, root).value;
      var sub := Scan(target, Join(target, path, c.name), Some(c));
      var n := EntryCount(root.value.children[..i]);
      FromDirEntry(target, path, c).Ok? && sub.Ok? &&
      n + 1 + |sub.value| <= |items| &&
      items[n] == FromDirEntry(target, path, c).value &&
      items[n + 1..n + 1 + |sub.value|] == sub.value
  {
    var cs := root.value.children;
    var c := cs[i];
    ScanParts(target, path, root);
    ChildBlock(target, path, cs, i);
    ChildRecordsOfDir(target, path, c);
    var items, n := Scan(target, path, root).value, EntryCount(cs[..i]);
    var x, sub := FromDirEntry(target, path, c).value, Scan(target, Join(target, path, c.name), Some(c)).value;
    assert items[n..n + 1 + |sub|] == [x] + sub;
    BlockHeadTail(items, n, x, sub);
  }

  /** Every key a scan of `dir` touches is at least as long as `dir`; the
      keys under a subdirectory are at least as long as its joined path. */
  lemma {:induction false} ContribKeysAtLeast(target: Target, dir: string, cs: seq<FsNode>)
    ensures forall x :: x in Contribs(target, dir, cs) ==> |x.key| >= |dir|
    decreases EntryCount(cs), 1
  {
    if cs != [] {
      ContribKeysAtLeast(target, dir, cs[..|cs| - 1]);
      ChildContribKeysAtLeast(target, dir, cs[|cs| - 1]);
    }
  }

  lemma {:induction false} ChildContribKeysAtLeast(target: Target, dir: string, c: FsNode)
    ensures forall x :: x in ChildContribs(target, dir, c) ==>
      |x.key| >= |dir| + (if c.DirNode? then |c.name| else 0)
    decreases NodeCount(c), 0
  {
    if c.DirNode? {
      ContribKeysAtLeast(target, Join(target, dir, c.name), c.children);
      JoinShape(target, dir, c.name);
    }
  }

  lemma SumForAbsent(cs: seq<Contribution>, k: string)
    requires k !in KeysOf(cs)
    ensures SumFor(cs, k) == 0
  {
    if cs != [] {
      assert cs[..|cs| - 1] <= cs;
      assert KeysOf(cs[..|cs| - 1]) <= KeysOf(cs);
      SumForAbsent(cs[..|cs| - 1], k);
    }
  }

  lemma KeysOfConcat(a: seq<Contribution>, b: seq<Contribution>)
    ensures KeysOf(a + b) == KeysOf(a) + KeysOf(b)
  {
  }

  /** What one child adds under the key of the directory holding it. */
  lemma ChildContribAtParent(target: Target, dir: string, c: FsNode)
    requires c.name != []
    ensures var k := FormatPath(target, dir);
      SumFor(ChildContribs(target, dir, c), k) == (if c.FileNode? then c.len else 0) &&
      (k in KeysOf(ChildContribs(target, dir, c)) <==> c.FileNode?)
  {
    var k := FormatPath(target, dir);
    if c.DirNode? {
      ChildContribKeysAtLeast(target, dir, c);
      assert k !in KeysOf(ChildContribs(target, dir, c));
      SumForAbsent(ChildContribs(target, dir, c), k);
    } else {
      assert [Contribution(k, c.len)][..0] == [];
    }
  }

  /** The entry of the scanned directory itself receives exactly the
      lengths of the files directly inside it: a file deeper down adds
      only to its own parent, never to ancestors. */
  lemma {:induction false} DirectFilesOnly(target: Target, dir: string, cs: seq<FsNode>)
    requires WellNamed(cs)
    ensures SumFor(Contribs(target, dir, cs), FormatPath(target, dir)) == DirectFileBytes(cs)
    ensures FormatPath(target, dir) in KeysOf(Contribs(target, dir, cs)) <==> HasDirectFile(cs)
  {
    if cs != [] {
      var init, c := cs[..|cs| - 1], cs[|cs| - 1];
      var k := FormatPath(target, dir);
      WellNamedPrefix(cs, |cs| - 1);
      var a, b := Contribs(target, dir, init), ChildContribs(target, dir, c);
      assert Contribs(target, dir, cs) == a + b;
      DirectFilesOnly(target, dir, init);
      ChildContribAtParent(target, dir, c);
      assert SumFor(a + b, k) == DirectFileBytes(cs) by {
        SumForConcat(a, b, k);
      }
      HasDirectFileLast(cs);
      KeysOfConcat(a, b);
    }
  }

  /** After a successful scan of a well-named tree, the table entry of the
      scanned directory has grown by exactly the lengths of its direct
      files, and it exists exactly when it existed or such a file exists. */
  lemma ScannedDirectoryEntry(target: Target, path: string, root: Option<FsNode>, t: map<string, nat>)
    requires Scan(target, path, root).Ok? && WellNamed(root.value.children)
    ensures var cs := root.value.children;
      var t' := Accumulate(t, Contribs(target, path, cs));
      var k := FormatPath(target, path);
      Lookup(t', k) == Lookup(t, k) + DirectFileBytes(cs) &&
      (k in t' <==> k in t || HasDirectFile(cs))
  {
    var cs := root.value.children;
    DirectFilesOnly(target, path, cs);
    AccumulateAt(t, Contribs(target, path, cs), FormatPath(target, path));
  }

  function TotalSize(cs: seq<Contribution>): nat
  {
    if cs == [] then 0 else TotalSize(cs[..|cs| - 1]) + cs[|cs| - 1].size
  }

  lemma {:induction false} TotalSizeConcat(a: seq<Contribution>, b: seq<Contribution>)
    ensures TotalSize(a + b) == TotalSize(a) + TotalSize(b)
    decreases |b|
  {
    if b == [] {
      assert a + b == a;
    } else {
      assert (a + b)[..|a + b| - 1] == a + b[..|b| - 1];
      TotalSizeConcat(a, b[..|b| - 1]);
    }
  }

  /** Every file of the subtree adds its length exactly once, to some key. */
  lemma {:induction false} ContribsCoverFiles(target: Target, dir: string, cs: seq<FsNode>)
    ensures TotalSize(Contribs(target, dir, cs)) == FileBytes(cs)
    decreases EntryCount(cs), 1
  {
    if cs != [] {
      ContribsCoverFiles(target, dir, cs[..|cs| - 1]);
      ChildContribsCoverFiles(target, dir, cs[|cs| - 1]);
      TotalSizeConcat(Contribs(target, dir, cs[..|cs| - 1]), ChildContribs(target, dir, cs[|cs| - 1]));
    }
  }

  lemma {:induction false} ChildContribsCoverFiles(target: Target, dir: string, c: FsNode)
    ensures TotalSize(ChildContribs(target, dir, c)) == NodeFileBytes(c)
    decreases NodeCount(c), 0
  {
    if c.DirNode? {
      ContribsCoverFiles(target, Join(target, dir, c.name), c.children);
    } else {
      assert [Contribution(FormatPath(target, dir), c.len)][..0] == [];
    }
  }

  /** A directory "a" holding one 5-byte file "f", under a root "r" with no files. */
  function ExampleSubdir(): FsNode
  {
    DirNode("a", 0, Some("01-01-2024"), true, Listed, [FileNode("f", 5, Some("01-01-2024"), true)])
  }

  lemma ContribsSingle(target: Target, dir: string, c: FsNode)
    ensures Contribs(target, dir, [c]) == ChildContribs(target, dir, c)
  {
    assert [c][..0] == [];
  }

  lemma AccumulateSingle(t: map<string, nat>, x: Contribution)
    ensures Accumulate(t, [x]) == t[x.key := Lookup(t, x.key) + x.size]
  {
    assert [x][..0] == [];
  }

  /** Scanning "r" adds the 5 bytes under "r/a" only: the root gets no entry. */
  lemma NoRollUpExample()
    ensures Accumulate(map[], Contribs(Other, "r", [ExampleSubdir()])) == map["r/a" := 5]
  {
    var a := ExampleSubdir();
    var f := FileNode("f", 5, Some("01-01-2024"), true);
    assert Join(Other, "r", "a") == "r/a";
    ContribsSingle(Other, "r/a", f);
    ContribsSingle(Other, "r", a);
    assert Contribs(Other, "r", [a]) == Contribs(Other, "r/a", [f]);
    assert Contribs(Other, "r/a", [f]) == [Contribution("r/a", 5)];
    AccumulateSingle(map[], Contribution("r/a", 5));
  }

  lemma ChildrenRecordsSingle(target: Target, dir: string, c: FsNode)
    requires ChildRecords(target, dir, c).Ok?
    ensures ChildrenRecords(target, dir, [c]) == Ok([ChildRecords(target, dir, c).value])
  {
    assert [c][..0] == [];
    assert [] + [ChildRecords(target, dir, c).value] == [ChildRecords(target, dir, c).value];
  }

  lemma FlattenSingle(part: seq<ItemFS>)
    ensures Flatten([part]) == part
  {
    assert [part][..0] == [];
  }

  /** The scan of "r/a" in the example tree: the one record of "f". */
  lemma ExampleSubScan()
    ensures Scan(Other, "r/a", Some(ExampleSubdir())) ==
      Ok([ItemFS(Join(Other, "r/a", "f"), "f", File, 5, "01-01-2024")])
  {
    var f := FileNode("f", 5, Some("01-01-2024"), true);
    var fItem := ItemFS(Join(Other, "r/a", "f"), "f", File, 5, "01-01-2024");
    assert ChildRecords(Other, "r/a", f) == Ok([fItem]);
    ChildrenRecordsSingle(Other, "r/a", f);
    FlattenSingle([fItem]);
  }

  /** The part of "a" under "r": its own record, then the record of "f". */
  lemma ExampleDirPart()
    ensures ChildRecords(Other, "r", ExampleSubdir()) ==
      Ok([ItemFS("r/a", "a", Dir, 0, "01-01-2024"), ItemFS(Join(Other, "r/a", "f"), "f", File, 5, "01-01-2024")])
  {
    var a := ExampleSubdir();
    var aItem := ItemFS("r/a", "a", Dir, 0, "01-01-2024");
    var fItem := ItemFS(Join(Other, "r/a", "f"), "f", File, 5, "01-01-2024");
    assert Join(Other, "r", "a") == "r/a";
    assert FromDirEntry(Other, "r", a) == Ok(aItem);
    ExampleSubScan();
    assert [aItem] + [fItem] == [aItem, fItem];
  }

  /** The record of "a" keeps its own reported length 0, not the 5 bytes below it. */
  lemma RawDirSizeExample()
    ensures Scan(Other, "r", Some(DirNode("r", 0, Some("01-01-2024"), true, Listed, [ExampleSubdir()]))).Ok?
    ensures Scan(Other, "r", Some(DirNode("r", 0, Some("01-01-2024"), true, Listed, [ExampleSubdir()]))).value[0]
      == ItemFS("r/a", "a", Dir, 0, "01-01-2024")
  {
    var aItem := ItemFS("r/a", "a", Dir, 0, "01-01-2024");
    var fItem := ItemFS(Join(Other, "r/a", "f"), "f", File, 5, "01-01-2024");
    ExampleDirPart();
    ChildrenRecordsSingle(Other, "r", ExampleSubdir());
    FlattenSingle([aItem, fItem]);
  }
}
