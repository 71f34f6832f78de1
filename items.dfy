/** The records the scanner emits: `ItemType`, `ItemFS`, their `Display`
    renderings and `ItemFS::from_dir_entry`. */
module Items {
  import opened Outcomes
  import opened Paths
  import opened FileSystem

  datatype ItemType = Dir | File

  /** One scanned entry as it is sent to the index. */
  datatype ItemFS = ItemFS(absPath: string, name: string, fType: ItemType, size: nat, lastEdit: string)

  /** `Display for ItemType`. */
  function TypeTag(t: ItemType): (r: string)
    ensures r == "DIR" <==> t == Dir
    ensures r == "FILE" <==> t == File
  {
    match t
    case Dir => "DIR"
    case File => "FILE"
  }

  predicate IsDigit(c: char)
  {
    '0' <= c <= '9'
  }

  predicate AllDigits(s: string)
  {
    forall i :: 0 <= i < |s| ==> IsDigit(s[i])
  }

  function DigitChar(d: nat): (c: char)
    requires d < 10
    ensures IsDigit(c) && c as int - '0' as int == d
  {
    (d + '0' as int) as char
  }

  /** The decimal rendering `{}` gives an unsigned integer. */
  function Decimal(n: nat): (r: string)
    ensures r != [] && AllDigits(r)
  {
    if n < 10 then [DigitChar(n)] else Decimal(n / 10) + [DigitChar(n % 10)]
  }

  /** The value of a string of decimal digits. */
  function DecimalValue(s: string): nat
    requires AllDigits(s)
  {
    if s == [] then 0 else 10 * DecimalValue(s[..|s| - 1]) + (s[|s| - 1] as int - '0' as int)
  }

  lemma {:induction false} DecimalRoundTrip(n: nat)
    ensures DecimalValue(Decimal(n)) == n
  {
    if n >= 10 {
      DecimalRoundTrip(n / 10);
      var s := Decimal(n);
      assert s[..|s| - 1] == Decimal(n / 10);
    }
  }

  /** The longest all-digit suffix of `s`. */
  function TrailingDigits(s: string): (r: string)
    ensures AllDigits(r) && |r| <= |s| && r == s[|s| - |r|..]
  {
    if s == [] || !IsDigit(s[|s| - 1]) then []
    else TrailingDigits(s[..|s| - 1]) + [s[|s| - 1]]
  }

  lemma {:induction false} TrailingDigitsOf(p: string, d: string)
    requires AllDigits(d)
    requires p == [] || !IsDigit(p[|p| - 1])
    ensures TrailingDigits(p + d) == d
    decreases |d|
  {
    if d == [] {
      assert p + d == p;
    } else {
      assert (p + d)[..|p + d| - 1] == p + d[..|d| - 1];
      TrailingDigitsOf(p, d[..|d| - 1]);
    }
  }

  /** `Display for ItemFS`: "{tag}: {abs_path}\n{name}: {last_edit} - {size} bytes". */
  function Display(item: ItemFS): (r: string)
    ensures |r| >= |TypeTag(item.fType)| + 2 + 6
    ensures r[..|TypeTag(item.fType)| + 2] == TypeTag(item.fType) + ": "
    ensures r[|r| - 6..] == " bytes"
  {
    TypeTag(item.fType) + ": " + item.absPath + "\n" + item.name + ": " + item.lastEdit
      + " - " + Decimal(item.size) + " bytes"
  }

  /** The size can be read back from the digits in front of the closing " bytes". */
  lemma DisplaySizeRecoverable(item: ItemFS)
    ensures var s := Display(item);
      |s| >= 6 && s[|s| - 6..] == " bytes" && DecimalValue(TrailingDigits(s[..|s| - 6])) == item.size
  {
    var p := TypeTag(item.fType) + ": " + item.absPath + "\n" + item.name + ": " + item.lastEdit + " - ";
    var d := Decimal(item.size);
    SuffixSplit(p + d, " bytes");
    TrailingDigitsOf(p, d);
    DecimalRoundTrip(item.size);
  }

  lemma SuffixSplit(p: string, q: string)
    ensures (p + q)[..|p|] == p && (p + q)[|p|..] == q
  {
  }

  /** The rendering starts with "DIR: " exactly for a directory record. */
  lemma DisplayTagRecoverable(item: ItemFS)
    ensures Display(item)[..5] == "DIR: " <==> item.fType == Dir
  {
    var tag := TypeTag(item.fType) + ": ";
    var rest := item.absPath + "\n" + item.name + ": " + item.lastEdit + " - " + Decimal(item.size) + " bytes";
    assert Display(item) == tag + rest;
    assert Display(item)[..5] == (tag + rest)[..5];
    if item.fType == File {
      assert (tag + rest)[..5] == "FILE:";
    }
  }

  /** `ItemFS::from_dir_entry` for entry `e` listed in directory `dir`:
      fails when the entry's metadata or its modification time cannot be
      read (the text "metadata error" stands in for the operating system's
      message, which every caller discards with `.expect("")`); otherwise the record
      carries the formatted joined path, the entry's own name, DIR exactly
      for a directory, the entry's reported length and its modification date. */
  function FromDirEntry(target: Target, dir: string, e: FsNode): (r: Outcome<ItemFS>)
    ensures r.Panic? == false
    ensures r.Ok? <==> e.statOk && e.modified.Some?
    ensures r.Ok? ==> (r.value.fType == Dir <==> e.DirNode?)
    ensures r.Ok? ==> r.value.size == e.len && r.value.name == e.name && r.value.lastEdit == e.modified.value
    ensures r.Ok? ==> r.value.absPath == FormatPath(target, Join(target, dir, e.name))
  {
    if !e.statOk || e.modified.None? then Err("metadata error")
    else Ok(ItemFS(FormatPath(target, Join(target, dir, e.name)), e.name,
                   if e.DirNode? then Dir else File, e.len, e.modified.value))
  }
}
