/** The backup manager's file naming: which names a restore accepts, and
    how the compression and encryption steps rename a fresh dump. The
    compression, encryption and rename themselves are outside the model;
    their outcomes come in as parameters and the files they leave behind
    are tracked as a set of paths. */
module BackupManagerModel {
  import opened Common

  /** The characters of the pattern's name class [a-zA-Z0-9_.-]. */
  predicate IsBackupNameChar(c: char)
  {
    IsAsciiAlnum(c) || c == '_' || c == '.' || c == '-'
  }

  predicate AllNameChars(s: string)
  {
    forall i :: 0 <= i < |s| ==> IsBackupNameChar(s[i])
  }

  /** The alternatives of the pattern's tail. */
  const BackupSuffixes: seq<string> := [".sql", ".sql.gz", ".sql.enc", ".sql.gz.enc"]

  /** The anchored pattern: one or more name characters, then one of the
      suffixes, the split chosen freely as a backtracking matcher does. */
  predicate MatchesPattern(name: string)
  {
    exists k :: 1 <= k < |name| && AllNameChars(name[..k]) && name[k..] in BackupSuffixes
  }

  /** isValidBackupFilename: only name characters, one of the four
      suffixes after at least one character, and no two adjacent dots. */
  predicate IsValidBackupFilename(name: string)
    ensures IsValidBackupFilename(name) <==> AllNameChars(name) && EndsWithBackupSuffix(name) && !HasDoubleDot(name)
  {
    PatternCharacterised(name);
    DoubleDotIsContains(name);
    MatchesPattern(name) && !Contains(name, "..")
  }

  /** The same language without the split: only name characters, and a
      proper suffix among the four. */
  predicate EndsWithBackupSuffix(name: string)
  {
    exists j :: 0 <= j < |BackupSuffixes| && |BackupSuffixes[j]| < |name| && HasSuffix(name, BackupSuffixes[j])
  }

  lemma SuffixesAreNameChars()
    ensures forall j :: 0 <= j < |BackupSuffixes| ==> AllNameChars(BackupSuffixes[j])
  {
  }

  lemma PatternCharacterised(name: string)
    ensures MatchesPattern(name) <==> AllNameChars(name) && EndsWithBackupSuffix(name)
  {
    SuffixesAreNameChars();
    if MatchesPattern(name) {
      var k :| 1 <= k < |name| && AllNameChars(name[..k]) && name[k..] in BackupSuffixes;
      var j :| 0 <= j < |BackupSuffixes| && BackupSuffixes[j] == name[k..];
      assert HasSuffix(name, BackupSuffixes[j]);
      forall i | 0 <= i < |name|
        ensures IsBackupNameChar(name[i])
      {
        if i < k {
          assert name[i] == name[..k][i];
        } else {
          assert name[i] == name[k..][i - k];
        }
      }
    }
    if AllNameChars(name) && EndsWithBackupSuffix(name) {
      var j :| 0 <= j < |BackupSuffixes| && |BackupSuffixes[j]| < |name| && HasSuffix(name, BackupSuffixes[j]);
      var k := |name| - |BackupSuffixes[j]|;
      assert name[k..] == BackupSuffixes[j];
      assert AllNameChars(name[..k]);
    }
  }

  /** Two adjacent dots somewhere in the name. */
  predicate HasDoubleDot(s: string)
  {
    exists i :: 0 <= i < |s| - 1 && s[i] == '.' && s[i + 1] == '.'
  }

  lemma DoubleDotIsContains(s: string)
    ensures Contains(s, "..") <==> HasDoubleDot(s)
  {
    if HasDoubleDot(s) {
      var i :| 0 <= i < |s| - 1 && s[i] == '.' && s[i + 1] == '.';
      assert OccursAt(s, "..", i);
    }
    if Contains(s, "..") {
      var i :| 0 <= i <= |s| - 2 && OccursAt(s, "..", i);
      assert s[i..i + 2][0] == s[i] && s[i..i + 2][1] == s[i + 1];
    }
  }

  /** A name the restore accepts is a plain file name: no separator, not a
      dot-only name, so joining it to the backup directory stays inside. */
  lemma ValidNameStaysInDirectory(name: string)
    requires IsValidBackupFilename(name)
    ensures '/' !in name && name != "." && name != ".."
    ensures |name| >= 5
  {
    PatternCharacterised(name);
  }

  /** The name a dump ends up with: ".gz" appended when compressing, then
      ".enc" when encrypting. */
  function FinalName(base: string, compress: bool, encrypt: bool): (r: string)
    ensures HasPrefix(r, base)
    ensures |r| == |base| + (if compress then 3 else 0) + (if encrypt then 4 else 0)
  {
    var c := if compress then base + ".gz" else base;
    var e := if encrypt then c + ".enc" else c;
    assert e[..|base|] == base;
    e
  }

  /** The suffix a run appends to the stem. */
  lemma FinalNameSuffix(stem: string, compress: bool, encrypt: bool)
    ensures var j := if compress && encrypt then 3 else if compress then 1 else if encrypt then 2 else 0;
      FinalName(stem + ".sql", compress, encrypt) == stem + BackupSuffixes[j]
  {
    assert stem + ".sql" + ".gz" + ".enc" == stem + ".sql.gz.enc";
    assert stem + ".sql" + ".gz" == stem + ".sql.gz";
    assert stem + ".sql" + ".enc" == stem + ".sql.enc";
  }

  lemma SuffixesHaveNoDoubleDot()
    ensures forall j :: 0 <= j < |BackupSuffixes| ==> !HasDoubleDot(BackupSuffixes[j])
  {
  }

  /** Appending a suffix to a stem that does not end in a dot creates no
      pair of dots. */
  lemma NoDoubleDotAcross(stem: string, suffix: string)
    requires !HasDoubleDot(stem) && !HasDoubleDot(suffix)
    requires stem != [] && stem[|stem| - 1] != '.'
    ensures !HasDoubleDot(stem + suffix)
  {
    var name := stem + suffix;
    forall i | 0 <= i < |name| - 1
      ensures !(name[i] == '.' && name[i + 1] == '.')
    {
      if i + 1 < |stem| {
        assert name[i] == stem[i] && name[i + 1] == stem[i + 1];
      } else if i + 1 == |stem| {
        assert name[i] == stem[|stem| - 1];
      } else {
        assert name[i] == suffix[i - |stem|] && name[i + 1] == suffix[i + 1 - |stem|];
      }
    }
  }

  /** Every name a backup run produces from a well-formed stem (the backup
      type, "_backup_" and a timestamp) is accepted for restore, whatever
      the compression and encryption settings. */
  lemma ProducedNamesRestorable(stem: string, compress: bool, encrypt: bool)
    requires stem != [] && AllNameChars(stem) && !HasDoubleDot(stem) && stem[|stem| - 1] != '.'
    ensures IsValidBackupFilename(FinalName(stem + ".sql", compress, encrypt))
  {
    var j := if compress && encrypt then 3 else if compress then 1 else if encrypt then 2 else 0;
    var name := stem + BackupSuffixes[j];
    FinalNameSuffix(stem, compress, encrypt);
    assert name[..|stem|] == stem;
    assert name[|stem|..] == BackupSuffixes[j];
    assert MatchesPattern(name);
    SuffixesHaveNoDoubleDot();
    NoDoubleDotAcross(stem, BackupSuffixes[j]);
    DoubleDotIsContains(name);
  }

  /** Which processing steps ran. */
  datatype Processed = Processed(compressed: bool, encrypted: bool)

  /** How a compression or encryption step ended. Both open the source and
      then create the destination before copying into it, so a failure
      after the create leaves a partial destination file behind. */
  datatype StepOutcome = Done | FailedBeforeCreate(error: string) | FailedAfterCreate(error: string)

  /** processBackup: compresses and then encrypts the dump at tempPath when
      configured, removing the intermediate compressed file, and otherwise
      renames the dump to finalPath. `files` is the set of paths this leaves
      on disk, starting from the dump alone; the dump itself is removed
      later by the caller. */
  method ProcessBackup(tempPath: string, finalPath: string, compress: bool, encrypt: bool,
                       compressOutcome: StepOutcome, encryptOutcome: StepOutcome, renameErr: Option<string>)
    returns (path: string, flags: Processed, files: set<string>, err: Option<string>)
    requires tempPath == finalPath + ".tmp"
    ensures err.None? <==>
      (compress ==> compressOutcome.Done?) && (encrypt && !(compress && !compressOutcome.Done?) ==> encryptOutcome.Done?)
      && (compress || encrypt || renameErr.None?)
    ensures err.None? ==> path == FinalName(finalPath, compress, encrypt) && flags == Processed(compress, encrypt)
    ensures err.None? && (compress || encrypt) ==> files == {tempPath, path}
    ensures err.None? && !compress && !encrypt ==> files == {path}
    ensures err.Some? ==> path == ""
    ensures flags.compressed ==> compress && compressOutcome.Done?
    ensures flags.encrypted ==> encrypt && err.None?
    ensures compress && !compressOutcome.Done? ==>
      err == Some("compression failed: " + compressOutcome.error)
      && files == {tempPath} + (if compressOutcome.FailedAfterCreate? then {finalPath + ".gz"} else {})
    ensures encrypt && (!compress || compressOutcome.Done?) && !encryptOutcome.Done? ==>
      var source := if compress then {finalPath + ".gz"} else {};
      var dest := FinalName(finalPath, compress, true);
      err == Some("encryption failed: " + encryptOutcome.error)
      && files == {tempPath} + source + (if encryptOutcome.FailedAfterCreate? then {dest} else {})
    ensures !compress && !encrypt && renameErr.Some? ==>
      err == Some("failed to move backup to final location: " + renameErr.value) && files == {tempPath}
    ensures err.Some? ==>
      (FinalName(finalPath, compress, encrypt) in files <==>
        (encrypt && (!compress || compressOutcome.Done?) && encryptOutcome.FailedAfterCreate?)
        || (!encrypt && compress && compressOutcome.FailedAfterCreate?))
  {
    flags := Processed(false, false);
    files := {tempPath};
    var currentPath := tempPath;
    var target := finalPath;
    assert tempPath[|finalPath|..] == ".tmp";
    if compress {
      var compressedPath := target + ".gz";
      assert compressedPath[|finalPath|..] == ".gz";
      if !compressOutcome.Done? {
        if compressOutcome.FailedAfterCreate? {
          files := files + {compressedPath};
        }
        return "", flags, files, Some("compression failed: " + compressOutcome.error);
      }
      files := files + {compressedPath};
      currentPath := compressedPath;
      target := compressedPath;
      flags := flags.(compressed := true);
    }
    if encrypt {
      var encryptedPath := target + ".enc";
      assert encryptedPath[|finalPath|..] == (if compress then ".gz.enc" else ".enc");
      if !encryptOutcome.Done? {
        if encryptOutcome.FailedAfterCreate? {
          files := files + {encryptedPath};
        }
        return "", flags, files, Some("encryption failed: " + encryptOutcome.error);
      }
      files := files + {encryptedPath};
      if currentPath != tempPath {
        files := files - {currentPath};
      }
      currentPath := encryptedPath;
      target := encryptedPath;
      flags := flags.(encrypted := true);
    }
    if currentPath != target {
      if renameErr.Some? {
        return "", flags, files, Some("failed to move backup to final location: " + renameErr.value);
      }
      files := files - {currentPath} + {target};
    }
    return target, flags, files, None;
  }
}
