/** How database.py picks the connection string: a `postgres://` URL from the
    environment is given the scheme SQLAlchemy expects, and with no URL set a
    SQLite file next to the module is used. */
module Database {
  import opened Common
  import opened Strings

  const PostgresScheme := "postgres://"
  const PostgresqlScheme := "postgresql://"
  const SqliteScheme := "sqlite:///"
  const SqliteFile := "stitch.db"

  /** `s.replace(pat, rep, 1)`: the leftmost occurrence of `pat`, if any, replaced by `rep`. */
  function ReplaceFirst(s: string, pat: string, rep: string): string
    decreases |s|
  {
    if StartsWith(s, pat) then rep + s[|pat|..]
    else if s == [] then s
    else [s[0]] + ReplaceFirst(s[1..], pat, rep)
  }

  /** With no occurrence of `pat`, the count-1 replace changes nothing. */
  lemma {:induction false} ReplaceFirstAbsent(s: string, pat: string, rep: string)
    requires !Contains(s, pat)
    ensures ReplaceFirst(s, pat, rep) == s
    decreases |s|
  {
    if s != [] {
      ReplaceFirstAbsent(s[1..], pat, rep);
    }
  }

  /** The count-1 replace rewrites exactly the leftmost occurrence: with the
      first occurrence of `pat` at `i`, the result is the text before it,
      then `rep`, then the text after it. */
  lemma {:induction false} ReplaceFirstLeftmost(s: string, pat: string, rep: string, i: nat)
    requires OccursAt(s, pat, i)
    requires forall j: nat :: j < i ==> !OccursAt(s, pat, j)
    ensures ReplaceFirst(s, pat, rep) == s[..i] + rep + s[i + |pat|..]
    decreases i
  {
    if i == 0 {
      assert s[..|pat|] == s[0..|pat|];
    } else {
      assert !StartsWith(s, pat) by {
        assert !OccursAt(s, pat, 0);
        assert s[..|pat|] == s[0..|pat|];
      }
      var t := s[1..];
      forall j: nat | j < i - 1
        ensures !OccursAt(t, pat, j)
      {
        assert !OccursAt(s, pat, j + 1);
        assert t[j..j + |pat|] == s[j + 1..j + 1 + |pat|];
      }
      assert OccursAt(t, pat, i - 1) by {
        assert t[i - 1..i - 1 + |pat|] == s[i..i + |pat|];
      }
      ReplaceFirstLeftmost(t, pat, rep, i - 1);
      calc {
        ReplaceFirst(s, pat, rep);
        [s[0]] + ReplaceFirst(t, pat, rep);
        [s[0]] + (t[..i - 1] + rep + t[i - 1 + |pat|..]);
        { assert [s[0]] + t[..i - 1] == s[..i];
          assert t[i - 1 + |pat|..] == s[i + |pat|..]; }
        s[..i] + rep + s[i + |pat|..];
      }
    }
  }

  /** database.py lines 10-11: a URL with the `postgres://` scheme gets the
      `postgresql://` scheme, any other URL is kept. */
  function FixScheme(url: string): (r: string)
    ensures StartsWith(url, PostgresScheme) ==> r == PostgresqlScheme + url[|PostgresScheme|..]
    ensures !StartsWith(url, PostgresScheme) ==> r == url
    ensures !StartsWith(r, PostgresScheme)
  {
    if StartsWith(url, PostgresScheme) then
      var r := ReplaceFirst(url, PostgresScheme, PostgresqlScheme);
      assert r == PostgresqlScheme + url[|PostgresScheme|..];
      assert r[..|PostgresScheme|][8] == r[8] == 'q';
      r
    else url
  }

  /** Fixing the scheme twice is fixing it once. */
  lemma FixSchemeIdempotent(url: string)
    ensures FixScheme(FixScheme(url)) == FixScheme(url)
  {
  }

  /** A `postgres://` inside the rest of the URL (a query parameter, say) is
      not rewritten. */
  lemma FixSchemeKeepsRest(rest: string)
    ensures FixScheme(PostgresScheme + rest) == PostgresqlScheme + rest
  {
    assert (PostgresScheme + rest)[..|PostgresScheme|] == PostgresScheme;
    assert (PostgresScheme + rest)[|PostgresScheme|..] == rest;
  }

  /** `os.path.join(dir, name)` for a `name` that is not an absolute path. */
  function JoinPath(dir: string, name: string): (r: string)
    ensures r == dir + name || r == dir + "/" + name
    ensures r == dir + name <==> dir == [] || EndsWith(dir, "/")
    ensures EndsWith(r, name) && StartsWith(r, dir)
  {
    var r := if dir == [] || EndsWith(dir, "/") then dir + name else dir + "/" + name;
    assert r[|r| - |name|..] == name;
    assert r[..|dir|] == dir;
    r
  }

  /** database.py lines 14-16: the SQLite file `stitch.db` in the directory of the module. */
  function SqliteUrl(baseDir: string): (r: string)
    ensures StartsWith(r, SqliteScheme) && EndsWith(r, SqliteFile)
    ensures !StartsWith(r, PostgresScheme)
    ensures r[|SqliteScheme|..] == JoinPath(baseDir, SqliteFile)
  {
    var r := SqliteScheme + JoinPath(baseDir, SqliteFile);
    assert r[..|SqliteScheme|] == SqliteScheme;
    assert r[0] == 's';
    assert r[|r| - |SqliteFile|..] == JoinPath(baseDir, SqliteFile)[|JoinPath(baseDir, SqliteFile)| - |SqliteFile|..];
    r
  }

  /** database.py lines 6-16: the connection string chosen from the
      `DATABASE_URL` variable (`env`) and the directory of the module. An unset
      or empty variable selects the SQLite default. */
  function DatabaseUrl(env: Option<string>, baseDir: string): (r: string)
    ensures env.Some? && env.value != [] ==> r == FixScheme(env.value)
    ensures env.None? || env.value == [] ==> r == SqliteUrl(baseDir)
    ensures r != [] && !StartsWith(r, PostgresScheme)
  {
    if env.Some? && env.value != [] then FixScheme(env.value) else SqliteUrl(baseDir)
  }

  /** Feeding the chosen URL back in as `DATABASE_URL` yields the same URL. */
  lemma DatabaseUrlStable(env: Option<string>, baseDir: string)
    ensures DatabaseUrl(Some(DatabaseUrl(env, baseDir)), baseDir) == DatabaseUrl(env, baseDir)
  {
    var u := DatabaseUrl(env, baseDir);
    assert !StartsWith(u, PostgresScheme);
  }
}
