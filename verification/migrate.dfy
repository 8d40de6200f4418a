/** The migrator's construction (migrate/migrate.go NewMigrator and
    migrate/option.go): the migrations source URL built from a path, the
    DSN, the schemes to clean and the logger, with options applied in
    order. Running migrations is not modelled. */
module Migrate {
  import Text

  /** A zerolog logger: the no-op logger or one given by the caller. */
  datatype Logger = Nop | Given(id: nat)

  /** Migrator */
  datatype Migrator = Migrator(path: string, dsn: string, cleanScheme: seq<string>, logger: Logger)

  /** OptionFn: WithClean and WithLogger. */
  datatype OptionFn = WithClean(schemes: seq<string>) | WithLogger(logger: Logger)

  const FileScheme := "file://"

  /** The option applied to a migrator: each replaces its one field. */
  function ApplyOption(m: Migrator, o: OptionFn): (r: Migrator)
    ensures r.path == m.path && r.dsn == m.dsn
    ensures o.WithClean? ==> r.cleanScheme == o.schemes && r.logger == m.logger
    ensures o.WithLogger? ==> r.logger == o.logger && r.cleanScheme == m.cleanScheme
  {
    match o
    case WithClean(s) => m.(cleanScheme := s)
    case WithLogger(l) => m.(logger := l)
  }

  function ApplyOptions(m: Migrator, opts: seq<OptionFn>): Migrator
    decreases |opts|
  {
    if |opts| == 0 then m else ApplyOptions(ApplyOption(m, opts[0]), opts[1..])
  }

  /** The source URL as written: one leading "." removed, then one leading
      "/". What the URL designates is the path with "./" cut, with a lone
      leading "." or "/" cut, or the path itself. */
  function SourceUrlAsWritten(path: string): (r: string)
    ensures Text.HasPrefix(r, FileScheme)
    ensures Text.HasPrefix(path, "./") ==> Designated(r) == path[2..]
    ensures Text.HasPrefix(path, ".") && !Text.HasPrefix(path, "./") ==> Designated(r) == path[1..]
    ensures Text.HasPrefix(path, "/") ==> Designated(r) == path[1..]
    ensures !Text.HasPrefix(path, ".") && !Text.HasPrefix(path, "/") ==> Designated(r) == path
  {
    var rest := Text.TrimPrefix(Text.TrimPrefix(path, "."), "/");
    TrimmedCases(path);
    assert (FileScheme + rest)[..|FileScheme|] == FileScheme;
    assert (FileScheme + rest)[|FileScheme|..] == rest;
    FileScheme + rest
  }

  /** The two trims of SourceUrlAsWritten, case by case. */
  lemma TrimmedCases(path: string)
    ensures var rest := Text.TrimPrefix(Text.TrimPrefix(path, "."), "/");
      (Text.HasPrefix(path, "./") ==> rest == path[2..]) &&
      (Text.HasPrefix(path, ".") && !Text.HasPrefix(path, "./") ==> rest == path[1..]) &&
      (Text.HasPrefix(path, "/") ==> rest == path[1..]) &&
      (!Text.HasPrefix(path, ".") && !Text.HasPrefix(path, "/") ==> rest == path)
  {
    var a := Text.TrimPrefix(path, ".");
    if Text.HasPrefix(path, ".") {
      assert a == path[1..];
      if Text.HasPrefix(path, "./") {
        assert a[..1] == path[1..2] == "/";
        assert a[1..] == path[2..];
      } else {
        assert !Text.HasPrefix(a, "/") by {
          if |a| >= 1 && a[..1] == "/" {
            assert path[..2] == path[..1] + a[..1];
          }
        }
      }
    } else if Text.HasPrefix(path, "/") {
      assert a == path;
      assert path[1..] == Text.TrimPrefix(path, "/");
    }
  }

  /** The directory the file source reads a "file://" URL as: the host and
      the path joined, that is everything after the scheme. */
  function Designated(url: string): string
    requires Text.HasPrefix(url, FileScheme)
  {
    url[|FileScheme|..]
  }

  /** Two spellings of a directory name the same directory when they are
      equal or one is the other behind "./". */
  predicate SameDirectory(a: string, b: string)
  {
    a == b || a == "./" + b || b == "./" + a
  }

  /** The source URL, corrected: only a leading "./" is dropped, so the
      path can be read back from the URL. */
  function SourceUrl(path: string): (r: string)
    ensures Text.HasPrefix(r, FileScheme)
    ensures Text.HasPrefix(path, "./") ==> "./" + Designated(r) == path
    ensures !Text.HasPrefix(path, "./") ==> Designated(r) == path
    ensures SameDirectory(Designated(r), path)
  {
    var rest := Text.TrimPrefix(path, "./");
    assert (FileScheme + rest)[..|FileScheme|] == FileScheme;
    assert (FileScheme + rest)[|FileScheme|..] == rest;
    FileScheme + rest
  }

  /** NewMigrator as written: the URL built by SourceUrlAsWritten, the DSN
      as given, no schemes to clean and the no-op logger, then the options
      in order. */
  function NewMigratorAsWritten(path: string, dsn: string, opts: seq<OptionFn>): (m: Migrator)
    ensures m.path == SourceUrlAsWritten(path) && m.dsn == dsn
    ensures opts == [] ==> m.cleanScheme == [] && m.logger == Nop
  {
    var m0 := Migrator(SourceUrlAsWritten(path), dsn, [], Nop);
    OptionsFold(m0, opts);
    ApplyOptions(m0, opts)
  }

  /** NewMigrator, corrected: the URL built by SourceUrl, otherwise as
      written. */
  function NewMigrator(path: string, dsn: string, opts: seq<OptionFn>): (m: Migrator)
    ensures m.path == SourceUrl(path) && m.dsn == dsn
    ensures opts == [] ==> m.cleanScheme == [] && m.logger == Nop
    ensures m == NewMigratorAsWritten(path, dsn, opts).(path := SourceUrl(path))
  {
    var m0 := Migrator(SourceUrl(path), dsn, [], Nop);
    OptionsFold(m0, opts);
    OptionsKeepUrl(m0, SourceUrlAsWritten(path), opts);
    ApplyOptions(m0, opts)
  }

  /** The options never read the URL: starting from another URL changes
      only the URL of the result. */
  lemma {:induction false} OptionsKeepUrl(m: Migrator, url: string, opts: seq<OptionFn>)
    ensures ApplyOptions(m.(path := url), opts) == ApplyOptions(m, opts).(path := url)
    decreases |opts|
  {
    if |opts| > 0 {
      assert ApplyOption(m.(path := url), opts[0]) == ApplyOption(m, opts[0]).(path := url);
      OptionsKeepUrl(ApplyOption(m, opts[0]), url, opts[1..]);
    }
  }

  /** The URL, the DSN and the defaults survive every option; the last
      WithClean and the last WithLogger decide their fields, and without
      one the defaults stay. */
  lemma {:induction false} OptionsFold(m: Migrator, opts: seq<OptionFn>)
    ensures var r := ApplyOptions(m, opts);
      r.path == m.path && r.dsn == m.dsn &&
      (r.cleanScheme == m.cleanScheme || exists i :: 0 <= i < |opts| && opts[i] == WithClean(r.cleanScheme)) &&
      (r.logger == m.logger || exists i :: 0 <= i < |opts| && opts[i] == WithLogger(r.logger))
    ensures |opts| > 0 && opts[|opts| - 1].WithClean? ==>
      ApplyOptions(m, opts).cleanScheme == opts[|opts| - 1].schemes
    ensures |opts| > 0 && opts[|opts| - 1].WithLogger? ==>
      ApplyOptions(m, opts).logger == opts[|opts| - 1].logger
    decreases |opts|
  {
    if |opts| > 0 {
      var next := ApplyOption(m, opts[0]);
      OptionsFold(next, opts[1..]);
      var r := ApplyOptions(m, opts);
      if r.cleanScheme != m.cleanScheme && r.cleanScheme != next.cleanScheme {
        var i :| 0 <= i < |opts[1..]| && opts[1..][i] == WithClean(r.cleanScheme);
        assert opts[i + 1] == WithClean(r.cleanScheme);
      }
      if r.logger != m.logger && r.logger != next.logger {
        var i :| 0 <= i < |opts[1..]| && opts[1..][i] == WithLogger(r.logger);
        assert opts[i + 1] == WithLogger(r.logger);
      }
      if |opts| > 1 {
        assert opts[1..][|opts[1..]| - 1] == opts[|opts| - 1];
      }
    }
  }

  /** WithClean replaces the list rather than extending it. */
  lemma WithCleanReplaces(path: string, dsn: string, a: seq<string>, b: seq<string>)
    ensures NewMigrator(path, dsn, [WithClean(a), WithClean(b)]).cleanScheme == b
    ensures NewMigrator(path, dsn, []).cleanScheme == [] && NewMigrator(path, dsn, []).logger == Nop
  {
    OptionsFold(Migrator(SourceUrl(path), dsn, [], Nop), [WithClean(a), WithClean(b)]);
  }

  /** `s` and `p` differ at position `i`, so `s` does not start with `p`. */
  lemma DiffersAt(s: string, p: string, i: nat)
    requires i < |s| && i < |p| && s[i] != p[i]
    ensures !Text.HasPrefix(s, p)
  {
    if |p| <= |s| {
      assert s[..|p|][i] == s[i];
    }
  }

  /** As written, a path into the parent directory loses its first dot:
      "../migrations" becomes "file://./migrations", the directory
      "./migrations". */
  lemma ParentPathMisread()
    ensures SourceUrlAsWritten("../migrations") == "file://./migrations"
    ensures !SameDirectory(Designated(SourceUrlAsWritten("../migrations")), "../migrations")
  {
    assert Text.TrimPrefix("../migrations", ".") == "./migrations";
    DiffersAt("./migrations", "/", 0);
    assert "file://./migrations"[..7] == FileScheme;
    assert Designated("file://./migrations") == "./migrations";
    DiffersAt("./migrations", "../migrations", 1);
    DiffersAt("./" + "../migrations", "./migrations", 2);
  }

  /** As written, an absolute path loses its leading "/" and is read
      relative to the working directory. */
  lemma AbsolutePathMisread()
    ensures SourceUrlAsWritten("/srv/migrations") == "file://srv/migrations"
    ensures !SameDirectory(Designated(SourceUrlAsWritten("/srv/migrations")), "/srv/migrations")
  {
    DiffersAt("/srv/migrations", ".", 0);
    assert Text.TrimPrefix("/srv/migrations", "/") == "srv/migrations";
    assert "file://srv/migrations"[..7] == FileScheme;
    assert Designated("file://srv/migrations") == "srv/migrations";
    DiffersAt("srv/migrations", "/srv/migrations", 0);
    DiffersAt("./" + "/srv/migrations", "srv/migrations", 0);
    DiffersAt("./" + "srv/migrations", "/srv/migrations", 0);
  }

  /** On a relative path that starts with neither "." nor "/", as the
      tests' "test/migrations", the corrected URL and the one as written
      coincide, with or without a leading "./". */
  lemma AgreesOnRelativePaths(p: string)
    requires !Text.HasPrefix(p, ".") && !Text.HasPrefix(p, "/")
    ensures SourceUrlAsWritten(p) == SourceUrl(p) == FileScheme + p
    ensures SourceUrlAsWritten("./" + p) == SourceUrl("./" + p) == FileScheme + p
  {
    assert !Text.HasPrefix(p, "./") by {
      if |p| >= 2 {
        assert p[..2][..1] == p[..1];
      }
    }
    var q := "./" + p;
    assert q[..2] == "./" && q[2..] == p;
    assert q[..1] == "." && q[1..] == "/" + p;
    assert ("/" + p)[..1] == "/" && ("/" + p)[1..] == p;
  }

  /** The tests' path starts with neither "." nor "/". */
  lemma TestPathIsRelative()
    ensures !Text.HasPrefix("test/migrations", ".") && !Text.HasPrefix("test/migrations", "/")
  {
    DiffersAt("test/migrations", ".", 0);
    DiffersAt("test/migrations", "/", 0);
  }
}
