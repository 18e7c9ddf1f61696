/**
 * `get_database_url`: the `DATABASE_URL` environment value with the legacy
 * `postgres://` scheme renamed to `postgresql://`, or a SQLite file under the
 * application's base directory when the value is unset or empty. The
 * environment value and the base directory are parameters.
 */
module DatabaseUrl {
  import opened Common

  const LegacyScheme: string := "postgres://"
  const Scheme: string := "postgresql://"

  /** `s.replace(pat, rep, 1)`: the first occurrence of a non-empty `pat` replaced. */
  function ReplaceFirst(s: string, pat: string, rep: string): (r: string)
    requires pat != []
    decreases |s|
  {
    if |s| < |pat| then s
    else if s[..|pat|] == pat then rep + s[|pat|..]
    else [s[0]] + ReplaceFirst(s[1..], pat, rep)
  }

  /** An occurrence at the very start is the first one. */
  lemma ReplaceFirstAtStart(s: string, pat: string, rep: string)
    requires pat != [] && StartsWith(s, pat)
    ensures ReplaceFirst(s, pat, rep) == rep + s[|pat|..]
  {
  }

  /** `os.path.join(base, name)` for a relative `name`. */
  function PathJoin(base: string, name: string): string
  {
    if base == "" || base[|base| - 1] == '/' then base + name else base + "/" + name
  }

  function DefaultUrl(baseDir: string): string
  {
    "sqlite:///" + PathJoin(PathJoin(baseDir, "data"), "password_manager.db")
  }

  /** The rewrite applied to a set value. */
  function Normalise(url: string): string
  {
    if StartsWith(url, LegacyScheme) then ReplaceFirst(url, LegacyScheme, Scheme) else url
  }

  /** `get_database_url()` with `DATABASE_URL` given as `env` (None when unset). */
  function GetDatabaseUrl(env: Option<string>, baseDir: string): string
  {
    if env.Some? && env.value != "" then Normalise(env.value) else DefaultUrl(baseDir)
  }

  /** A legacy URL gets the new scheme and keeps everything after it. */
  lemma LegacySchemeRenamed(url: string, baseDir: string)
    requires StartsWith(url, LegacyScheme)
    ensures GetDatabaseUrl(Some(url), baseDir) == Scheme + url[|LegacyScheme|..]
  {
    ReplaceFirstAtStart(url, LegacyScheme, Scheme);
  }

  /** Any other set URL, `postgresql://` ones included, is returned as it is. */
  lemma OtherUrlsUnchanged(url: string, baseDir: string)
    requires url != "" && !StartsWith(url, LegacyScheme)
    ensures GetDatabaseUrl(Some(url), baseDir) == url
  {
  }

  /** Normalising a URL it produced changes nothing. */
  lemma NormaliseIdempotent(url: string)
    ensures Normalise(Normalise(url)) == Normalise(url)
  {
    if StartsWith(url, LegacyScheme) {
      ReplaceFirstAtStart(url, LegacyScheme, Scheme);
      var r := Normalise(url);
      assert r[8] == 'q' && LegacyScheme[8] == ':';
      assert !StartsWith(r, LegacyScheme);
    }
  }

  /** The whole function is idempotent on set values: feeding its result back in changes nothing. */
  lemma GetDatabaseUrlIdempotent(env: string, baseDir: string)
    requires env != ""
    ensures GetDatabaseUrl(Some(GetDatabaseUrl(Some(env), baseDir)), baseDir) == GetDatabaseUrl(Some(env), baseDir)
  {
    NormaliseIdempotent(env);
    if StartsWith(env, LegacyScheme) {
      ReplaceFirstAtStart(env, LegacyScheme, Scheme);
    }
  }

  /** An unset or empty value gives the SQLite file `data/password_manager.db` under the base directory. */
  lemma UnsetGivesSqlite(baseDir: string)
    requires baseDir != "" && baseDir[|baseDir| - 1] != '/'
    ensures GetDatabaseUrl(None, baseDir) == "sqlite:///" + baseDir + "/data/password_manager.db"
    ensures GetDatabaseUrl(Some(""), baseDir) == GetDatabaseUrl(None, baseDir)
  {
    var data := PathJoin(baseDir, "data");
    assert data == baseDir + "/data";
    assert data[|data| - 1] == 'a';
    assert PathJoin(data, "password_manager.db") == baseDir + "/data" + "/password_manager.db";
    assert "/data" + "/password_manager.db" == "/data/password_manager.db";
  }
}
