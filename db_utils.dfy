/** Sanitising a backup file name before it is joined to the backup
    directory: only the last path component is kept, and it must carry the
    ".sql" extension. Paths use '/' as the separator, as on the Unix hosts
    the service runs on. */
module DbUtils {
  import opened Common

  /** The path without its trailing separators. */
  function StripTrailingSlashes(p: string): (r: string)
    ensures r <= p
    ensures r == [] || r[|r| - 1] != '/'
    ensures forall i :: |r| <= i < |p| ==> p[i] == '/'
    decreases |p|
  {
    if p != [] && p[|p| - 1] == '/' then StripTrailingSlashes(p[..|p| - 1]) else p
  }

  /** filepath.Base: "." for the empty path, "/" for a path of separators
      only, otherwise the text after the last separator once trailing
      separators are removed. */
  function Base(p: string): (r: string)
    ensures r != []
    ensures r == "/" || '/' !in r
  {
    if p == [] then "."
    else
      var t := StripTrailingSlashes(p);
      if t == [] then "/"
      else t[LastIndexChar(t, '/') + 1..]
  }

  /** filepath.Ext: the suffix from the last '.' of the last path element,
      or "" when that element has no '.'. */
  function Ext(p: string): (e: string)
    ensures e == [] || (HasSuffix(p, e) && e[0] == '.' && '.' !in e[1..] && '/' !in e)
  {
    var i := LastIndexChar(p, '.');
    if i >= 0 && '/' !in p[i + 1..] then
      assert p[|p| - |p[i..]|..] == p[i..];
      p[i..]
    else ""
  }

  /** The dot that starts an extension is the last dot of the path, with
      no separator after it: such a dot gives the extension from it to the
      end ... */
  lemma ExtOfLastDot(p: string, i: int)
    requires 0 <= i < |p| && p[i] == '.' && '.' !in p[i + 1..] && '/' !in p[i + 1..]
    ensures Ext(p) == p[i..]
  {
  }

  /** ... and the extension is empty exactly when every dot of the path is
      followed by a separator. */
  lemma ExtEmptyExactly(p: string)
    ensures Ext(p) == [] <==> forall i :: 0 <= i < |p| && p[i] == '.' ==> '/' in p[i + 1..]
  {
    var j := LastIndexChar(p, '.');
    if Ext(p) != [] {
      assert 0 <= j < |p| && p[j] == '.' && '/' !in p[j + 1..];
    } else {
      forall i | 0 <= i < |p| && p[i] == '.'
        ensures '/' in p[i + 1..]
      {
        assert j >= i;
        if j > i {
          assert p[j + 1..] == p[i + 1..][j - i..];
        }
      }
    }
  }

  /** A base name (one without separators, or the root) has the extension
      ".sql" exactly when it ends in ".sql". */
  lemma SqlExtensionIsSuffix(name: string)
    requires name == "/" || '/' !in name
    ensures Ext(name) == ".sql" <==> HasSuffix(name, ".sql")
  {
    if name == "/" {
      assert Ext(name) == "";
    } else if HasSuffix(name, ".sql") {
      var i := |name| - 4;
      assert name[i..] == ".sql";
      assert name[i + 1..] == "sql";
      ExtOfLastDot(name, i);
    }
  }

  /** ValidateBackupFilename: a name is accepted exactly when its last
      component ends in ".sql", and what comes back is that component,
      which has no separator. */
  function ValidateBackupFilename(filename: string): (r: Result<string>)
    ensures r.Ok? <==> HasSuffix(Base(filename), ".sql")
    ensures r.Ok? ==> r.value == Base(filename) && '/' !in r.value
    ensures r.Err? ==> r.error == "invalid backup file extension, only .sql is allowed"
  {
    var clean := Base(filename);
    SqlExtensionIsSuffix(clean);
    if Ext(clean) != ".sql" then Err("invalid backup file extension, only .sql is allowed")
    else Ok(clean)
  }

  /** A name is accepted exactly when the extension of its last component
      is ".sql", and then it is that component, ending in ".sql". */
  lemma ValidateBackupFilenameSpec(filename: string)
    ensures ValidateBackupFilename(filename).Ok? <==> Ext(Base(filename)) == ".sql"
    ensures ValidateBackupFilename(filename).Ok? <==> HasSuffix(Base(filename), ".sql")
    ensures ValidateBackupFilename(filename).Ok? ==>
      var name := ValidateBackupFilename(filename).value;
      name == Base(filename) && '/' !in name && HasSuffix(name, ".sql")
  {
    if Ext(Base(filename)) == ".sql" {
      assert Base(filename) != "/" by {
        assert Ext("/") == "";
      }
    }
  }

  /** A name without separators is its own base. */
  lemma BaseOfPlainName(name: string)
    requires name != [] && '/' !in name
    ensures Base(name) == name
  {
    assert name[|name| - 1] in name;
    assert LastIndexChar(name, '/') == -1;
  }

  /** The base of a path in a directory is the name in it, whatever the
      directory. */
  lemma BaseOfJoin(dir: string, name: string)
    requires name != [] && '/' !in name
    ensures Base(dir + "/" + name) == name
  {
    var p := dir + "/" + name;
    assert p[|p| - 1] == name[|name| - 1];
    assert name[|name| - 1] in name;
    assert StripTrailingSlashes(p) == p;
    assert p[|dir|] == '/';
    assert p[|dir| + 1..] == name;
  }

  /** Validation is idempotent: an accepted name is accepted again,
      unchanged. */
  lemma ValidateIdempotent(filename: string)
    requires ValidateBackupFilename(filename).Ok?
    ensures var name := ValidateBackupFilename(filename).value;
      ValidateBackupFilename(name) == Ok(name)
  {
    ValidateBackupFilenameSpec(filename);
    BaseOfPlainName(Base(filename));
  }

  /** Whatever directory part a name carries, including one that climbs
      out with "..", validation sees only the name in it. */
  lemma DirectoryIgnored(dir: string, name: string)
    requires name != [] && '/' !in name
    ensures ValidateBackupFilename(dir + "/" + name) == ValidateBackupFilename(name)
  {
    BaseOfJoin(dir, name);
    BaseOfPlainName(name);
  }

  /** The compressed form is refused: its extension is ".gz". */
  lemma CompressedRefused()
    ensures ValidateBackupFilename("backup.sql.gz").Err?
  {
    BaseOfPlainName("backup.sql.gz");
    assert LastIndexChar("backup.sql.gz", '.') == 10;
  }
}
