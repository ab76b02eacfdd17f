/** The decisions the server makes while it starts and around every request: which database
    to use, whether to create the tables, the no-cache headers, and the static-file fallback. */
module App {
  import opened Wrappers
  import opened PyText

  /** The process environment after the `.env` file has been loaded. */
  type Env = map<string, string>

  /** `os.getenv(key)`. */
  function Getenv(env: Env, key: string): Option<string> {
    if key in env then Some(env[key]) else None
  }

  /** `os.getenv(key, default)`: the default applies only to an unset variable. */
  function GetenvOr(env: Env, key: string, default: string): string {
    if key in env then env[key] else default
  }

  const DefaultMySqlHost := "localhost"
  const DefaultMySqlPort := "3306"

  /** The PyMySQL connection URI assembled from its five parts. */
  function MySqlUri(user: string, password: string, host: string, port: string, db: string): (uri: string)
    ensures "mysql+pymysql://" <= uri && EndsWith(uri, "?charset=utf8mb4")
  {
    var uri := "mysql+pymysql://" + user + ":" + password + "@" + host + ":" + port + "/" + db + "?charset=utf8mb4";
    assert uri[|uri| - 16..] == "?charset=utf8mb4";
    uri
  }

  /** The MySQL settings that must all be non-empty before MySQL is chosen. */
  predicate HasMySqlCredentials(user: Option<string>, password: Option<string>, db: Option<string>) {
    TruthyText(user) && TruthyText(password) && TruthyText(db)
  }

  /** POSIX `os.path.join(a, b)`: an absolute `b` replaces `a`, otherwise one `/` separates them. */
  function Join(a: string, b: string): (r: string)
    ensures EndsWith(r, b)
    ensures b != [] && b[0] != '/' && a != [] ==> a <= r
  {
    if b != [] && b[0] == '/' then b
    else if a == [] || a[|a| - 1] == '/' then a + b
    else a + "/" + b
  }

  /** `os.path.join(ROOT_DIR, 'database', 'app.db')`. */
  function SqlitePath(rootDir: string): (path: string)
    ensures EndsWith(path, "database/app.db")
  {
    var dir := Join(rootDir, "database");
    assert dir[|dir| - 1] == 'e';
    var path := Join(dir, "app.db");
    assert path == dir + "/app.db";
    assert path[|path| - 15..] == dir[|dir| - 8..] + "/app.db";
    path
  }

  /** The SQLite URI for the database file under the repository root. */
  function SqliteUri(rootDir: string): (uri: string)
    ensures "sqlite:///" <= uri && EndsWith(uri, "database/app.db")
  {
    var path := SqlitePath(rootDir);
    var uri := "sqlite:///" + path;
    assert uri[|uri| - 15..] == path[|path| - 15..];
    uri
  }

  /** `SQLALCHEMY_DATABASE_URI`: a non-empty `DATABASE_URL` verbatim; else MySQL when user,
      password and database are all non-empty (host and port defaulting only when unset);
      else the SQLite file `database/app.db` under the repository root. */
  function DatabaseUri(env: Env, rootDir: string): (uri: string)
    ensures TruthyText(Getenv(env, "DATABASE_URL")) ==> uri == env["DATABASE_URL"]
    ensures !TruthyText(Getenv(env, "DATABASE_URL"))
            && HasMySqlCredentials(Getenv(env, "MYSQL_USER"), Getenv(env, "MYSQL_PASSWORD"), Getenv(env, "MYSQL_DB")) ==>
              uri == MySqlUri(env["MYSQL_USER"], env["MYSQL_PASSWORD"],
                              GetenvOr(env, "MYSQL_HOST", DefaultMySqlHost),
                              GetenvOr(env, "MYSQL_PORT", DefaultMySqlPort), env["MYSQL_DB"])
    ensures !TruthyText(Getenv(env, "DATABASE_URL"))
            && !HasMySqlCredentials(Getenv(env, "MYSQL_USER"), Getenv(env, "MYSQL_PASSWORD"), Getenv(env, "MYSQL_DB")) ==>
              "sqlite:///" <= uri && EndsWith(uri, "database/app.db")
  {
    var user := Getenv(env, "MYSQL_USER");
    var password := Getenv(env, "MYSQL_PASSWORD");
    var db := Getenv(env, "MYSQL_DB");
    var databaseUrl := Getenv(env, "DATABASE_URL");
    if TruthyText(databaseUrl) then
      databaseUrl.value
    else if HasMySqlCredentials(user, password, db) then
      MySqlUri(user.value, password.value, GetenvOr(env, "MYSQL_HOST", DefaultMySqlHost),
               GetenvOr(env, "MYSQL_PORT", DefaultMySqlPort), db.value)
    else
      SqliteUri(rootDir)
  }

  /** Lower-casing a string equals a lower-case target exactly when the string equals the
      target up to the case of ASCII letters. */
  lemma {:induction false} LowerEqualsIff(v: string, target: string)
    requires Lower(target) == target
    ensures Lower(v) == target <==> EqualsIgnoringCase(v, target)
  {
    if EqualsIgnoringCase(v, target) {
      forall i | 0 <= i < |v| ensures Lower(v)[i] == target[i] {
        assert Lower(target)[i] == LowerChar(target[i]);
      }
    }
    if Lower(v) == target {
      forall i | 0 <= i < |v| ensures LowerChar(v[i]) == LowerChar(target[i]) {
        assert Lower(target)[i] == LowerChar(target[i]);
        assert Lower(v)[i] == LowerChar(v[i]);
      }
    }
  }

  /** `AUTO_CREATE_TABLES`: on exactly for `1`, `true` or `yes` in any letter case; off when
      the variable is unset (its default is `false`). */
  function AutoCreate(env: Env): (on: bool)
    ensures on <==> var v := GetenvOr(env, "AUTO_CREATE_TABLES", "false");
                    EqualsIgnoringCase(v, "1") || EqualsIgnoringCase(v, "true") || EqualsIgnoringCase(v, "yes")
    ensures "AUTO_CREATE_TABLES" !in env ==> !on
  {
    var v := GetenvOr(env, "AUTO_CREATE_TABLES", "false");
    LowerEqualsIff(v, "1");
    LowerEqualsIff(v, "true");
    LowerEqualsIff(v, "yes");
    LowerEqualsIff("false", "false");
    Lower(v) in {"1", "true", "yes"}
  }

  /** Tables are created in debug mode, and otherwise only when `AUTO_CREATE_TABLES` allows it. */
  function CreatesTables(debug: bool, env: Env): (create: bool)
    ensures debug ==> create
    ensures !debug ==> (create <==> AutoCreate(env))
  {
    debug || AutoCreate(env)
  }

  const CacheControlValue := "no-store, no-cache, must-revalidate, max-age=0"
  const PragmaValue := "no-cache"

  /** Header names are compared without regard to the case of ASCII letters. */
  predicate SameHeader(a: string, b: string) {
    EqualsIgnoringCase(a, b)
  }

  /** `headers[name] = value`: every entry whose name matches `name` gives way to the single
      entry `name: value`; all other entries stay as they were. */
  function SetHeader(h: map<string, string>, name: string, value: string): (r: map<string, string>)
    ensures name in r && r[name] == value
    ensures forall k :: k in r && k != name ==> k in h && r[k] == h[k] && !SameHeader(k, name)
    ensures forall k :: k in h && !SameHeader(k, name) ==> k in r && r[k] == h[k]
  {
    (map k | k in h && !SameHeader(k, name) :: h[k])[name := value]
  }

  /** The headers after `add_dev_no_cache_headers`. */
  function WithNoCacheHeaders(h: map<string, string>): (r: map<string, string>)
    ensures "Cache-Control" in r && r["Cache-Control"] == CacheControlValue
    ensures "Pragma" in r && r["Pragma"] == PragmaValue
    ensures forall k :: k in h && !SameHeader(k, "Cache-Control") && !SameHeader(k, "Pragma") ==>
                        k in r && r[k] == h[k]
    ensures forall k :: k in r ==> k == "Cache-Control" || k == "Pragma" || (k in h && r[k] == h[k])
    ensures forall k :: k in r && (SameHeader(k, "Cache-Control") || SameHeader(k, "Pragma")) ==>
                        k == "Cache-Control" || k == "Pragma"
  {
    assert !SameHeader("Cache-Control", "Pragma") by { assert |"Cache-Control"| != |"Pragma"|; }
    SetHeader(SetHeader(h, "Cache-Control", CacheControlValue), "Pragma", PragmaValue)
  }

  /** Adding the headers a second time changes nothing. */
  lemma NoCacheHeadersIdempotent(h: map<string, string>)
    ensures WithNoCacheHeaders(WithNoCacheHeaders(h)) == WithNoCacheHeaders(h)
  {
    var once := WithNoCacheHeaders(h);
    var twice := WithNoCacheHeaders(once);
    forall k | k in once ensures k in twice && twice[k] == once[k] {
      if k != "Cache-Control" && k != "Pragma" {
        assert k in h && once[k] == h[k];
        assert !SameHeader(k, "Cache-Control") && !SameHeader(k, "Pragma");
      }
    }
    assert twice.Keys == once.Keys;
  }

  /** A response on its way out; Flask passes it to the after-request hook. */
  class Response {
    var headers: map<string, string>

    constructor (headers: map<string, string>)
      ensures this.headers == headers
    {
      this.headers := headers;
    }

    /** `add_dev_no_cache_headers`: sets the two cache headers in place, every other header
        is kept. */
    method AddNoCacheHeaders()
      modifies this
      ensures headers == WithNoCacheHeaders(old(headers))
      ensures headers["Cache-Control"] == CacheControlValue && headers["Pragma"] == PragmaValue
    {
      headers := SetHeader(headers, "Cache-Control", CacheControlValue);
      headers := SetHeader(headers, "Pragma", PragmaValue);
    }
  }

  /** What `serve` answers: a file of the static folder, or a 404 with a message. */
  datatype Served = SendFile(folder: string, name: string) | NotFound(message: string)

  /** `serve(path)`: the file at `path` when it is named and exists, otherwise `index.html`
      when that exists, otherwise a 404. `pathExists` stands for `os.path.exists`. */
  function Serve(staticFolder: Option<string>, path: string, pathExists: string -> bool): (r: Served)
    ensures staticFolder.None? ==> r == NotFound("Static folder not configured")
    ensures r.SendFile? ==> staticFolder == Some(r.folder) && pathExists(Join(r.folder, r.name))
                            && (r.name == path || r.name == "index.html")
    ensures staticFolder.Some? && path != "" && pathExists(Join(staticFolder.value, path)) ==>
              r == SendFile(staticFolder.value, path)
    ensures staticFolder.Some? && pathExists(Join(staticFolder.value, "index.html")) ==> r.SendFile?
    ensures staticFolder.Some? && r.NotFound? ==> r.message == "index.html not found"
    ensures staticFolder.Some? && (path == "" || !pathExists(Join(staticFolder.value, path))) ==>
              r == (if pathExists(Join(staticFolder.value, "index.html")) then SendFile(staticFolder.value, "index.html")
                    else NotFound("index.html not found"))
  {
    match staticFolder
    case None => NotFound("Static folder not configured")
    case Some(folder) =>
      if path != "" && pathExists(Join(folder, path)) then SendFile(folder, path)
      else if pathExists(Join(folder, "index.html")) then SendFile(folder, "index.html")
      else NotFound("index.html not found")
  }
}
