# locatex scanner — a Dafny model

This project models the Rust scanner in `scanner/src/main.rs` of *locatex*
(the index builder behind *win-locate*). It covers four parts:

- **The recursive scan `scan_file_system`.** It walks a directory tree.
  For every entry below the root it emits one `ItemFS` record, classified
  DIR or FILE; a subdirectory's own record is followed by the records of
  its subtree. Every file adds its length to a shared
  `HashMap<String, u128>` under the formatted path of the directory that
  directly contains it.
- **The argument check `get_index_path`.** It accepts exactly one argument:
  a path that exists and has the extension `db`.
- **`format_path` and the `Display` impls of `ItemType` and `ItemFS`.**
- **The update plan in the comment of `update_index`.** The function's
  body is empty. The module `UpdatePlan` states the three-way split by
  absolute path that the comment describes. It formalises that comment,
  not executable code.

Files and modules:

| file | module | contents |
|---|---|---|
| `outcome.dfy` | `Outcomes` | `Outcome<T>` = `Ok`, `Err(msg)` or `Panic` (a `.expect("")` that fails); `Option<T>` |
| `paths.dfy` | `Paths` | `Target` (Windows or another OS), `FormatPath`, `Join`, and `FileName` / `Extension` as `std::path` computes them |
| `filesystem.dfy` | `FileSystem` | the file system as a tree value `FsNode`: each entry records whether its metadata and its modification time can be read, and whether a directory can be listed |
| `items.dfy` | `Items` | `ItemType`, `ItemFS`, `TypeTag`, `Display`, `FromDirEntry` |
| `scanner.dfy` | `Scanner` | the size table as the class `DirSizes`; the specification functions `Scan` and `Contribs`; the methods `ScanFileSystem`, `MapChildren`, `ScanChild` and `Extend`; the lemmas |
| `index_path.dfy` | `IndexPath` | `GetIndexPath` |
| `update_plan.dfy` | `UpdatePlan` | `PlanUpdate`, `ApplyPlan` |

How the scan is modelled:

- The file system is a value. `FsNode` stores what `metadata`, `is_dir` and
  `read_dir` would report for each entry: the length, the modification
  date as text (none when the modification time cannot be read), whether
  the metadata can be read, and for a directory its
  listing outcome (listed, `read_dir` fails, or reading an entry fails, each
  failure with the OS error text).
- The root is `Option<FsNode>`. `None` means that nothing exists at the path.
- The shared, mutex-guarded table is a `DirSizes` object with a field
  `sizes: map<string, nat>`. Its method `Add` performs
  `*entry(key).or_insert(0) += size`.
- `ScanFileSystem` is the imperative scan. It rejects a bad root, maps over
  the children in a `while` loop (`MapChildren`, with `ScanChild` as the
  closure), and then joins the parts in a `for` loop (`Extend`).
- Each method is proved equal to the pure function `Scan` (for the records)
  or to `Accumulate(old table, Contribs(..))` (for the table).
  - `Contribs` lists one `(parent key, file length)` contribution per file,
    in child order.
- The three kinds of outcome follow the code:
  - `Err` is returned at the root: "Invalid path", "Failed to read
    directory: " followed by the OS error, or the OS error of an entry
    that cannot be read.
  - `Panic` stands for every `.expect("")` on a child: its metadata, or its
    recursive scan.
- After a panic the table is not specified. The Rust process is aborting
  at that point.

Four behaviours of the code are easy to misread; the model keeps them as
the code has them:

- **Directory records keep their raw size.** Their size is the entry's own
  `meta.len()`. Nothing copies the table's totals into them
  (`RawDirSizeExample`).
- **Sizes are not rolled up.** A file counts only for its immediate parent
  directory, not for the directories above it (`NoRollUpExample`,
  `ScannedDirectoryEntry`).
- **A failure on a child is not tolerated.** An unreadable entry or an
  unlistable directory anywhere below the root aborts the whole scan with
  a panic; a tree that is readable throughout scans successfully
  (`ScanOkIff`, `ScanPanicsIff`, `ChildPanicPanics`).
- **The update plan compares paths only.** A record whose path is already
  indexed is never replaced, even when its size or date changed
  (`ChangedFileNotUpdated`).

## Model

| member | source | states |
|---|---|---|
| Scanner.Scan | scanner/src/main.rs:146-200 | The pure statement of a scan, which every scan method is proved equal to. Its own contract: a scan succeeds only for an existing, readable directory whose listing succeeds. |
| Scanner.ScanFileSystem | scanner/src/main.rs:146-200 | The result is `Scan(path, root)`. An `Err` leaves the table unchanged. A success has applied exactly every file's contribution, `Accumulate(old table, Contribs(path, children))`. |
| Scanner.MapChildren | scanner/src/main.rs:158-192 | The mapped and collected children are `ChildrenRecords`: one part per child in child order, or a panic when any child panics. On success the table has received every contribution of the children. |
| Scanner.ScanChild | scanner/src/main.rs:161-191 | Handles one child. It panics when the child's metadata fails or its subdirectory scan fails. A directory yields its own record followed by its scan. A file yields its record and adds its length under the formatted parent key. |
| Scanner.Extend | scanner/src/main.rs:194-197 | The loop of `extend` calls returns the parts concatenated in order. |
| Scanner.DirSizes.Add | scanner/src/main.rs:186-187 | `entry(k).or_insert(0) += d`: key `k` is mapped to its old value (0 if absent) plus `d`, and every other key is unchanged. |
| Scanner.AccumulateAt | scanner/src/main.rs:183-187 | After the contributions, a key is present iff it was present before or some file contributed to it. Its value is the old value (0 if absent) plus the sum the files contributed under it. |
| Scanner.AccumulateGrows | scanner/src/main.rs:187 | No key disappears and no value decreases. |
| Scanner.AccumulateOrderIrrelevant | scanner/src/main.rs:160-161 | Any reordering of the per-file `+=` (as the parallel map may run them) gives the same final table. |
| Scanner.ScanErrors | scanner/src/main.rs:147-156 | The scan is `Err` iff the root is missing, unreadable, not a directory, or cannot be listed. The first three give "Invalid path". A `read_dir` failure gives "Failed to read directory: " + the OS error. An entry read failure gives the OS error. |
| Scanner.ScanEmptyDirectory | scanner/src/tests.rs:62-84 | An empty, listable directory scans to no records and leaves the table as it was. |
| Scanner.ScanCount | scanner/src/main.rs:161-197 | A successful scan has exactly one record per entry of the subtree, the root excluded. `FileRecordAt` and `DirRecordPrecedesSubtree` place each child's own record. So a directory with at least one entry scans to a non-empty list, which is what `valid_target_directory` (scanner/src/tests.rs:85-103) asserts. |
| Scanner.DirRecordPrecedesSubtree | scanner/src/main.rs:173-177 | Take child `i` of the root, a directory. Its record sits at position `EntryCount(children before i)` of the output, and its subtree's whole scan follows it directly. |
| Scanner.ChildBlock | scanner/src/main.rs:194-197 | The records of child `i` form one contiguous block, right after the records of all earlier children. |
| Scanner.ChildRecordsOfDir | scanner/src/main.rs:162-178 | A directory child's part is its own record followed by the result of the recursive scan of its joined path. |
| Scanner.ScanOkIff | scanner/src/main.rs:146-200 | For every tree, a scan succeeds iff the root is a readable, listable directory and every entry below it, at any depth, is readable (metadata, modification time and, for a directory, its listing). |
| Scanner.ChildRecordsOkIff | scanner/src/main.rs:161-191 | One child yields its records iff it is readable throughout. |
| Scanner.ChildrenRecordsOkIff | scanner/src/main.rs:158-192 | The collected map succeeds iff every child is readable throughout. |
| Scanner.ScanPanicsIff | scanner/src/main.rs:161-191 | The scan of a listable directory panics iff some entry below it, at any depth, cannot be read. |
| Scanner.ChildrenRecordsNotErr | scanner/src/main.rs:158-192 | The collected map is never an `Err`: it is a list of parts or a panic. |
| Scanner.ChildPanicPanics | scanner/src/main.rs:158-192 | One child that does not yield its records makes the whole collected result a panic. |
| Scanner.PanicPersists | scanner/src/main.rs:158-192 | A panic of the map over the first children is a panic of the map over all of them. |
| Scanner.FileRecordAt | scanner/src/main.rs:180-189 | Take child `i` of the root, a file. Its record sits at position `EntryCount(children before i)` of the output. |
| Scanner.DirectFilesOnly | scanner/src/main.rs:183-187 | Under the scanned directory's own key the scan contributes exactly the lengths of its direct files. That key is touched iff the directory has at least one direct file; deeper files do not count. |
| Scanner.ScannedDirectoryEntry | scanner/src/main.rs:183-187 | After scanning a directory, its table entry equals its old value plus its direct files' lengths. The entry exists iff it existed before or the directory has a direct file. |
| Scanner.ContribsCoverFiles | scanner/src/main.rs:180-187 | The total added to the table equals the total length of all files in the tree: every file counts exactly once. |
| Scanner.NoRollUpExample | scanner/src/main.rs:183-187 | Scan root `r` with a subdirectory `a` that holds a 5-byte file. The table gains only `r/a ↦ 5`; `r` gets no entry. |
| Scanner.RawDirSizeExample | scanner/src/main.rs:79 | In the same tree, the emitted record of `a` has size 0 (its own length), not 5. |
| Items.FromDirEntry | scanner/src/main.rs:62-84 | It fails exactly when the metadata or the modification time cannot be read. Otherwise the record is DIR iff the entry is a directory. It carries the entry's own name, its reported length and its date, and its path is the formatted joined path. |
| Items.Display | scanner/src/main.rs:100-108 | The rendering starts with the type tag and ": " and ends with " bytes". |
| Items.TypeTag | scanner/src/main.rs:91-98 | The tag is "DIR" exactly for a directory and "FILE" exactly for a file. |
| Items.DisplayTagRecoverable | scanner/src/main.rs:100-108 | A record's rendering starts with "DIR: " iff it is a directory record. |
| Items.DisplaySizeRecoverable | scanner/src/main.rs:100-108 | The rendering ends in " bytes". The decimal digits just before that spell the record's size. |
| Items.DecimalRoundTrip | scanner/src/main.rs:104-105 | The decimal rendering of a size reads back as that size. |
| Paths.FormatPath | scanner/src/main.rs:110-121 | The length is preserved. On Windows every `\` becomes `/`, so none remains, and every other character is kept. On other targets the path is returned unchanged. |
| Paths.FormatPathIdempotent | scanner/src/main.rs:110-121 | Formatting an already formatted path changes nothing. |
| Paths.Replace | scanner/src/main.rs:114 | Every occurrence of the character is replaced, and every other character is kept, position by position. |
| Paths.FileName | scanner/src/main.rs:221 | A file name, when there is one, is non-empty, is neither `.` nor `..`, and holds no separator. |
| Paths.FileNameOfName | scanner/src/main.rs:221 | A path that is one plain name is its own file name. |
| Paths.JoinShape | scanner/src/main.rs:63 | `Join(dir, name)`, the model of `entry.path()` and of `dir.join(name)`, starts with `dir` and ends with `name`. When `dir` is non-empty and does not end with a separator, exactly one separator is inserted between them; otherwise the result is `dir + name`. |
| Paths.FileNameOfJoin | scanner/src/main.rs:63-77 | The file name of `dir.join(name)` is `name` for every directory `dir` and plain name `name`. |
| Paths.PathExtensionOfJoin | scanner/src/main.rs:221 | The extension of `dir.join(name)` is the extension of `name`. |
| Paths.Extension | scanner/src/main.rs:221 | An extension holds no dot and is the tail of the name directly after a dot, with something before that dot. A name that is `..` or has no dot has no extension. |
| Paths.PathExtension | scanner/src/main.rs:221 | A path has an extension only if it has a file name, and the extension holds no dot. |
| Paths.ExtensionCharacterized | scanner/src/main.rs:221 | `e` is the extension of a name iff the name is not `..`, `e` holds no dot, and `e` is the tail after a dot that is not the name's first character. |
| Paths.NoExtensionCharacterized | scanner/src/main.rs:221 | A name has no extension iff it is `..`, is empty, or has no dot after its first character. |
| IndexPath.GetIndexPath | scanner/src/main.rs:203-227 | Returns `Ok(args[1])` iff there are exactly two arguments, the path exists and its extension is "db". It panics iff the path exists but has no extension. Each error message appears for exactly its own failing condition. |
| IndexPath.GetIndexPathTests | scanner/src/tests.rs:18-33 | No arguments, and a lone "./hello", are both rejected. |
| IndexPath.HiddenDbPanics | scanner/src/main.rs:221 | ".db" has no extension, so it panics. |
| IndexPath.PlainDbAccepted | scanner/src/main.rs:216-226 | An existing "x.db" is accepted and returned as given. |
| IndexPath.RelativeDbAccepted | scanner/src/main.rs:209-226 | An existing "./index.db", a path with a directory part, is accepted and returned as given. |
| UpdatePlan.PlanUpdate | scanner/src/main.rs:230-245 | An item is kept for insertion iff its path is not in the database (2.1, 2.2). A database record is deleted iff its path is not among the items (2.3). Inserted paths are disjoint from the database's paths, and deleted paths are disjoint from the items' paths. |
| UpdatePlan.ApplyPlan | scanner/src/main.rs:243-245 | A record is in the updated database iff it is an old record whose path is not deleted, or it is one of the inserted items. |
| UpdatePlan.Outside | scanner/src/main.rs:237-243 | A record is kept iff it is in the input and its path is outside the given paths. |
| UpdatePlan.ApplyPlanPaths | scanner/src/main.rs:229-246 | After the deletions and the insertions (step 3), the database holds exactly the scanned paths. |
| UpdatePlan.PlanIdempotent | scanner/src/main.rs:229-246 | Planning again against the updated database gives an empty plan. |
| UpdatePlan.PlanUnchanged | scanner/src/main.rs:236-237 | A database equal to the scan needs no change. |
| UpdatePlan.ChangedFileNotUpdated | scanner/src/main.rs:236-237 | A record whose size or date changed but whose path is indexed produces no insertion and no deletion. |
| UpdatePlan.RemovedFileDeleted | scanner/src/main.rs:242-243 | A path that vanished produces exactly one deletion and nothing else. |

## Left out

- File-system calls (`exists`, `metadata`, `is_dir`, `read_dir`, `DirEntry`) are replaced by the tree value `FsNode`. `path.exists()` is itself a metadata probe, so the `?` on `fs::metadata` at line 148 fails only in a race with the file system. The model has no races, so that case is not modelled.
- `rayon`'s `par_iter`, `Arc` and `Mutex` are modelled as a sequential loop. The only shared update is `+=`, and `AccumulateOrderIrrelevant` shows that its order does not matter. Results are collected in child order, as rayon's `collect` does.
- Scanner.ScanFileSystem: does not specify the table after a panic, because the process aborts.
- Scanner.ScanChild: the parent key is the formatted path of the directory being scanned. Rust's `entry.path().parent()` gives the same string, except when the scanned directory's path ends in a component that `Path::components` drops: a trailing separator (for "r/" Rust gives "r", the model "r/") or a trailing `.` (for "r/." Rust gives "r", the model "r/.").
- `convert_sys_time` / `_convert_sys_time` (chrono date formatting) are left out. The date is the opaque text `modified` of each entry.
- `to_string_lossy` and OS string encoding are left out. Paths and names are `seq<char>`.
- u128 overflow of the `+=` on the table (line 187) is left out. Sizes are `nat`. The cast `meta.len() as u128` only widens a `u64` and loses nothing.
- Symbolic links are not modelled: every entry is a file or a directory.
- Windows drive and UNC prefixes are not modelled in `Join`, `FileName` and `Extension`. Only the `/` and `\` separators are.
- The unreachable `process::exit(1)` calls after each `return` in `get_index_path`, and `main()` (hard-coded root, timing, printing), are left out.
- `update_index` has an empty body, so only the plan in its comment is modelled, not any database access. The plan does not need unique paths: every lemma about it holds for records that share a path. Whether a scan emits unique paths is not proved.
- The Python front end under `locate/` (SQLite access, argument parsing, pagination, profiling, the `os.walk` stub) is not part of this model.
- The tests that depend on machine-specific paths (`scanner/src/tests.rs:104-137`) are not modelled.
