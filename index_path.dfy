/** `get_index_path`: validation of the command-line arguments naming the
    index database. Whether a path exists is a parameter, since the model
    has no file system to ask. */
module IndexPath {
  import opened Outcomes
  import opened Paths

  const MissingArgument := "Must provide index path."
  const DoesNotExist := "Invalid index path, doesn't exists."
  const NotADatabase := "Invalid index path."

  /** `args` is the whole argument vector, the program name included.
      Exactly one argument is accepted: a path that exists and whose
      extension is "db". A path with no extension at all makes
      `extension().expect("")` panic. */
  function GetIndexPath(target: Target, args: seq<string>, pathExists: string -> bool): (r: Outcome<string>)
    ensures r.Ok? <==> |args| == 2 && pathExists(args[1]) && PathExtension(target, args[1]) == Some("db")
    ensures r.Ok? ==> r.value == args[1]
    ensures r.Panic? <==> |args| == 2 && pathExists(args[1]) && PathExtension(target, args[1]).None?
    ensures |args| != 2 ==> r == Err(MissingArgument)
    ensures |args| == 2 && !pathExists(args[1]) ==> r == Err(DoesNotExist)
    ensures r.Err? && r.msg == NotADatabase <==>
      |args| == 2 && pathExists(args[1]) && PathExtension(target, args[1]).Some? &&
      PathExtension(target, args[1]) != Some("db")
  {
    if |args| != 2 then Err(MissingArgument)
    else
      var pathStr := args[1];
      if !pathExists(pathStr) then Err(DoesNotExist)
      else match PathExtension(target, pathStr)
        case None => Panic
        case Some(ext) => if ext != "db" then Err(NotADatabase) else Ok(pathStr)
  }

  /** The two argument vectors of the unit tests: no arguments at all, and
      only a program name, are both rejected before any path is looked at. */
  lemma GetIndexPathTests(target: Target, pathExists: string -> bool)
    ensures GetIndexPath(target, [], pathExists).Err?
    ensures GetIndexPath(target, ["./hello"], pathExists).Err?
  {
  }

  /** A hidden file named ".db" has no extension, so it panics rather
      than being accepted or refused. */
  lemma HiddenDbPanics(pathExists: string -> bool)
    requires pathExists(".db")
    ensures GetIndexPath(Other, ["locate", ".db"], pathExists) == Panic
  {
    FileNameOfName(Other, ".db");
    assert ".db"[..2] == ".d" && ".d"[..1] == ".";
    assert LastDot(".db") == Some(0);
  }

  /** "x.db" is accepted once it exists, and the path is returned as given. */
  lemma PlainDbAccepted(pathExists: string -> bool)
    requires pathExists("x.db")
    ensures GetIndexPath(Other, ["locate", "x.db"], pathExists) == Ok("x.db")
  {
    PlainDbExtension();
  }

  lemma PlainDbExtension()
    ensures PathExtension(Other, "x.db") == Some("db")
  {
    var name := "x.db";
    assert forall j :: 0 <= j < |name| ==> !IsSeparator(Other, name[j]);
    FileNameOfName(Other, name);
    assert name[1] == '.' && name[2..] == "db";
    ExtensionCharacterized(name, "db");
  }

  lemma IndexDbExtension()
    ensures Extension("index.db") == Some("db")
  {
    var name := "index.db";
    assert name[5] == '.' && name[6..] == "db";
    ExtensionCharacterized(name, "db");
  }

  lemma RelativeIndexDbExtension()
    ensures PathExtension(Other, "./index.db") == Some("db")
  {
    var name := "index.db";
    assert forall j :: 0 <= j < |name| ==> !IsSeparator(Other, name[j]);
    assert Join(Other, ".", name) == "./index.db";
    PathExtensionOfJoin(Other, ".", name);
    IndexDbExtension();
  }

  /** A path with a directory part, "./index.db", is accepted by the
      extension of its last component. */
  lemma RelativeDbAccepted(pathExists: string -> bool)
    requires pathExists("./index.db")
    ensures GetIndexPath(Other, ["locate", "./index.db"], pathExists) == Ok("./index.db")
  {
    RelativeIndexDbExtension();
  }
}
