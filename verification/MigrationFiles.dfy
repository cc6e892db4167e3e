/** The migration files embedded in the server: which names are read, how they are numbered and ordered. */
module MigrationFiles {
  import opened Prelude
  import opened Decimals

  datatype DirEntry = DirEntry(name: string, isDir: bool)
  datatype File = File(version: nat, name: string)

  const UP := ".up.sql"
  const DOWN := ".down.sql"

  /** The widest number a file name may carry. */
  const MAX_INT := 9_223_372_036_854_775_807

  /** Length of the leading run of digits. */
  function DigitRun(s: string): (n: nat)
    ensures n <= |s| && (forall i :: 0 <= i < n ==> IsDigit(s[i])) && (n < |s| ==> !IsDigit(s[n]))
  {
    if s == "" || !IsDigit(s[0]) then 0 else 1 + DigitRun(s[1..])
  }

  /** Digits, an underscore, anything on one line, the suffix. */
  predicate Matches(name: string, suffix: string) {
    var n := DigitRun(name);
    && 0 < n && n + 1 + |suffix| <= |name| && name[n] == '_'
    && name[|name| - |suffix|..] == suffix && '\n' !in name[n + 1..|name| - |suffix|]
  }

  predicate Wanted(e: DirEntry, suffix: string) {
    !e.isDir && Matches(e.name, suffix)
  }

  function VersionOf(name: string): nat {
    Number(name[..DigitRun(name)])
  }

  /** The matching files in directory order. */
  function Found(entries: seq<DirEntry>, suffix: string): seq<File> {
    if entries == [] then [] else
      var e := entries[|entries| - 1];
      Found(entries[..|entries| - 1], suffix) + (if Wanted(e, suffix) then [File(VersionOf(e.name), e.name)] else [])
  }

  predicate Ascending(files: seq<File>) {
    forall i, j :: 0 <= i < j < |files| ==> files[i].version <= files[j].version
  }

  function Inserted(files: seq<File>, f: File): seq<File> {
    if files == [] || files[|files| - 1].version <= f.version then files + [f]
    else Inserted(files[..|files| - 1], f) + [files[|files| - 1]]
  }

  function Sorted(files: seq<File>): seq<File> {
    if files == [] then [] else Inserted(Sorted(files[..|files| - 1]), files[|files| - 1])
  }

  lemma {:induction false} InsertedKeepsFiles(files: seq<File>, f: File)
    ensures multiset(Inserted(files, f)) == multiset(files) + multiset{f}
    decreases |files|
  {
    if files != [] && files[|files| - 1].version > f.version {
      InsertedKeepsFiles(files[..|files| - 1], f);
      assert files == files[..|files| - 1] + [files[|files| - 1]];
    }
  }

  lemma {:induction false} InsertedAscending(files: seq<File>, f: File)
    requires Ascending(files)
    ensures Ascending(Inserted(files, f))
    decreases |files|
  {
    if files != [] && files[|files| - 1].version > f.version {
      var init, last := files[..|files| - 1], files[|files| - 1];
      InsertedAscending(init, f);
      InsertedKeepsFiles(init, f);
      forall i | 0 <= i < |Inserted(init, f)|
        ensures Inserted(init, f)[i].version <= last.version
      {
        assert Inserted(init, f)[i] in multiset(Inserted(init, f));
        assert Inserted(init, f)[i] == f || Inserted(init, f)[i] in init;
      }
    }
  }

  /** Sorting orders the files by version and neither loses nor repeats one. */
  lemma {:induction false} SortedOrdersFiles(files: seq<File>)
    ensures Ascending(Sorted(files)) && multiset(Sorted(files)) == multiset(files)
    decreases |files|
  {
    if files != [] {
      var init, last := files[..|files| - 1], files[|files| - 1];
      SortedOrdersFiles(init);
      InsertedAscending(Sorted(init), last);
      InsertedKeepsFiles(Sorted(init), last);
      assert files == init + [last];
    }
  }

  /** Every matching name carries a number that fits an integer. */
  predicate Loadable(entries: seq<DirEntry>, suffix: string) {
    forall e :: e in entries && Wanted(e, suffix) ==> VersionOf(e.name) <= MAX_INT
  }

  // ----- which files are loaded -----

  /** The name is these digits, an underscore, this text on one line, and the suffix. */
  predicate Reads(name: string, suffix: string, digits: string, text: string) {
    digits != "" && AllDigits(digits) && '\n' !in text && name == digits + "_" + text + suffix
  }

  /** The directory entry offers the file: a plain file whose name reads so, numbered by its digits. */
  ghost predicate Offers(e: DirEntry, suffix: string, f: File) {
    && !e.isDir && f.name == e.name
    && exists digits, text :: Reads(e.name, suffix, digits, text) && f.version == Number(digits)
  }

  lemma {:induction false} DigitRunOf(digits: string, rest: string)
    requires AllDigits(digits) && (rest != "" ==> !IsDigit(rest[0]))
    ensures DigitRun(digits + rest) == |digits|
    decreases |digits|
  {
    if digits == "" {
      assert digits + rest == rest;
    } else {
      assert (digits + rest)[1..] == digits[1..] + rest;
      DigitRunOf(digits[1..], rest);
    }
  }

  lemma ReadMatches(name: string, suffix: string, digits: string, text: string)
    requires Reads(name, suffix, digits, text)
    ensures Matches(name, suffix) && VersionOf(name) == Number(digits)
  {
    assert name == digits + ("_" + text + suffix);
    DigitRunOf(digits, "_" + text + suffix);
    assert name[..|digits|] == digits;
    assert name[|name| - |suffix|..] == suffix;
    assert name[|digits| + 1..|name| - |suffix|] == text;
  }

  lemma MatchReads(name: string, suffix: string)
    requires Matches(name, suffix)
    ensures exists digits, text :: Reads(name, suffix, digits, text) && VersionOf(name) == Number(digits)
  {
    var n := DigitRun(name);
    var digits, text := name[..n], name[n + 1..|name| - |suffix|];
    assert name == digits + "_" + text + suffix;
    assert Reads(name, suffix, digits, text);
  }

  lemma OffersIff(e: DirEntry, suffix: string, f: File)
    ensures Offers(e, suffix, f) <==> Wanted(e, suffix) && f == File(VersionOf(e.name), e.name)
  {
    if Wanted(e, suffix) {
      MatchReads(e.name, suffix);
    }
    if Offers(e, suffix, f) {
      var digits, text :| Reads(e.name, suffix, digits, text) && f.version == Number(digits);
      ReadMatches(e.name, suffix, digits, text);
    }
  }

  lemma {:induction false} FoundIff(entries: seq<DirEntry>, suffix: string, f: File)
    ensures f in Found(entries, suffix) <==> exists e :: e in entries && Offers(e, suffix, f)
    decreases |entries|
  {
    if entries != [] {
      var init, last := entries[..|entries| - 1], entries[|entries| - 1];
      FoundIff(init, suffix, f);
      OffersIff(last, suffix, f);
      assert forall e :: e in entries <==> e in init || e == last;
    }
  }

  /** Loading fails exactly when some offered file's number does not fit 64 bits. */
  lemma LoadableIff(entries: seq<DirEntry>, suffix: string)
    ensures Loadable(entries, suffix)
       <==> forall e, f :: e in entries && Offers(e, suffix, f) ==> f.version <= 9_223_372_036_854_775_807
  {
    forall e, f | e in entries
      ensures Offers(e, suffix, f) <==> Wanted(e, suffix) && f == File(VersionOf(e.name), e.name)
    {
      OffersIff(e, suffix, f);
    }
    forall e | e in entries && Wanted(e, suffix)
      ensures Offers(e, suffix, File(VersionOf(e.name), e.name))
    {
      OffersIff(e, suffix, File(VersionOf(e.name), e.name));
    }
  }

  ghost predicate NamesOnce(entries: seq<DirEntry>) {
    forall i, j :: 0 <= i < j < |entries| ==> entries[i].name != entries[j].name
  }

  lemma {:induction false} FoundElsewhere(entries: seq<DirEntry>, suffix: string, name: string)
    requires forall i :: 0 <= i < |entries| ==> entries[i].name != name
    ensures forall f :: f in Found(entries, suffix) ==> f.name != name
    decreases |entries|
  {
    if entries != [] {
      FoundElsewhere(entries[..|entries| - 1], suffix, name);
    }
  }

  /** A directory has each name once, and so each file is found once. */
  lemma {:induction false} FoundOnce(entries: seq<DirEntry>, suffix: string, f: File)
    requires NamesOnce(entries)
    ensures multiset(Found(entries, suffix))[f] <= 1
    decreases |entries|
  {
    if entries != [] {
      var init, last := entries[..|entries| - 1], entries[|entries| - 1];
      FoundOnce(init, suffix, f);
      FoundElsewhere(init, suffix, last.name);
      assert f.name == last.name ==> f !in Found(init, suffix);
    }
  }

  /** A matching name ends like its suffix. */
  lemma MatchEnds(name: string, suffix: string)
    requires 5 <= |suffix|
    ensures Matches(name, suffix) ==> 5 <= |name| && name[|name| - 5] == suffix[|suffix| - 5]
  {
    if Matches(name, suffix) {
      assert name[|name| - |suffix|..][|suffix| - 5] == name[|name| - 5];
    }
  }

  /** No file is both an up and a down file. */
  lemma UpOrDown(e: DirEntry, f: File, g: File)
    ensures !(Offers(e, ".up.sql", f) && Offers(e, ".down.sql", g))
  {
    OffersIff(e, ".up.sql", f);
    OffersIff(e, ".down.sql", g);
    MatchEnds(e.name, ".up.sql");
    MatchEnds(e.name, ".down.sql");
    assert ".up.sql"[2] == 'p' && ".down.sql"[4] == 'n';
  }

  const OWN_UP := "000001_init.up.sql"
  const OWN_DOWN := "000001_init.down.sql"

  lemma OneInSix()
    ensures AllDigits("000001") && Number("000001") == 1
  {
    Zeros(5);
    assert Padded(1, 6) == Padded(0, 5) + [Digit(1)];
    assert Padded(1, 6) == "000001";
    NumberOfPadded(1, 6, 1_000_000);
  }

  lemma OwnNames()
    ensures OWN_UP == "000001" + "_" + "init" + UP
    ensures OWN_DOWN == "000001" + "_" + "init" + DOWN
  {
    assert "000001_init" == "000001" + "_" + "init";
    assert OWN_UP == "000001_init" + UP;
    assert OWN_DOWN == "000001_init" + DOWN;
  }

  lemma OwnUpFile()
    ensures Matches(OWN_UP, UP) && VersionOf(OWN_UP) == 1 && !Matches(OWN_UP, DOWN)
  {
    OneInSix();
    OwnNames();
    ReadMatches(OWN_UP, UP, "000001", "init");
    MatchEnds(OWN_UP, DOWN);
  }

  lemma OwnDownFile()
    ensures Matches(OWN_DOWN, DOWN) && VersionOf(OWN_DOWN) == 1 && !Matches(OWN_DOWN, UP)
  {
    OneInSix();
    OwnNames();
    ReadMatches(OWN_DOWN, DOWN, "000001", "init");
    MatchEnds(OWN_DOWN, UP);
  }

  lemma FoundInTwo(a: DirEntry, b: DirEntry, suffix: string)
    ensures Found([a, b], suffix)
         == (if Wanted(a, suffix) then [File(VersionOf(a.name), a.name)] else [])
            + (if Wanted(b, suffix) then [File(VersionOf(b.name), b.name)] else [])
  {
    assert [a, b][..1] == [a] && [a][..0] == [];
    assert Found([a], suffix) == Found([], suffix) + (if Wanted(a, suffix) then [File(VersionOf(a.name), a.name)] else []);
  }

  /** The repository's own directory holds one up file and one down file, both of version 1. */
  lemma OwnDirectory()
    ensures var dir := [DirEntry("000001_init.down.sql", false), DirEntry("000001_init.up.sql", false)];
      && Found(dir, ".up.sql") == [File(1, "000001_init.up.sql")]
      && Found(dir, ".down.sql") == [File(1, "000001_init.down.sql")]
  {
    OwnUpFile();
    OwnDownFile();
    FoundInTwo(DirEntry(OWN_DOWN, false), DirEntry(OWN_UP, false), UP);
    FoundInTwo(DirEntry(OWN_DOWN, false), DirEntry(OWN_UP, false), DOWN);
  }

  /** Fails when a version does not fit an integer; otherwise all matching files by ascending version. */
  method LoadMigrationFiles(entries: seq<DirEntry>, suffix: string) returns (r: Option<seq<File>>)
    ensures r.Some? <==> Loadable(entries, suffix)
    ensures r.Some? ==> Ascending(r.value) && multiset(r.value) == multiset(Found(entries, suffix))
    ensures r.Some? ==> forall f :: f in r.value <==> exists e :: e in entries && Offers(e, suffix, f)
  {
    var files: seq<File> := [];
    for i := 0 to |entries|
      invariant files == Found(entries[..i], suffix)
      invariant forall e :: e in entries[..i] && Wanted(e, suffix) ==> VersionOf(e.name) <= MAX_INT
    {
      var e := entries[i];
      assert entries[..i + 1][..i] == entries[..i];
      if e.isDir || !Matches(e.name, suffix) {
        continue;
      }
      var version := VersionOf(e.name);
      if version > MAX_INT {
        assert e in entries;
        return None;
      }
      files := files + [File(version, e.name)];
    }
    assert entries[..|entries|] == entries;
    SortedOrdersFiles(files);
    r := Some(Sorted(files));
    forall f
      ensures f in r.value <==> exists e :: e in entries && Offers(e, suffix, f)
    {
      FoundIff(entries, suffix, f);
      assert f in r.value <==> f in multiset(r.value);
      assert f in Found(entries, suffix) <==> f in multiset(Found(entries, suffix));
    }
  }
}
