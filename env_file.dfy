/** The diagnostic script's reader for the `.env` file and the database URI it derives from
    the file alone. */
module EnvFile {
  import opened Wrappers
  import opened PyText
  import App

  /** `line.split('=', 1)` unpacked into `k, v`: the text before the first `=` and everything
      after it (`=` included); `None` when there is no `=`, where unpacking raises. */
  function SplitAtEquals(s: string): (r: Option<(string, string)>)
    ensures r.None? <==> '=' !in s
    ensures r.Some? ==> '=' !in r.value.0 && r.value.0 + "=" + r.value.1 == s
  {
    if s == [] then None
    else if s[0] == '=' then
      assert s == [] + "=" + s[1..];
      Some(([], s[1..]))
    else
      match SplitAtEquals(s[1..])
      case None => None
      case Some((k, v)) =>
        assert s == [s[0]] + s[1..];
        Some(([s[0]] + k, v))
  }

  /** What one line of the file amounts to. */
  datatype LineKind = Skipped | Malformed | Assignment(key: string, value: string)

  /** A line is stripped; blank lines and `#` comments are skipped; any other line must hold
      an `=`, and its key and value are the stripped line's two sides of the first `=`,
      without further trimming. */
  function Classify(line: string): (r: LineKind)
    ensures r.Skipped? <==> Strip(line) == [] || Strip(line)[0] == '#'
    ensures r.Malformed? <==> !r.Skipped? && '=' !in Strip(line)
    ensures r.Assignment? ==> '=' !in r.key && r.key + "=" + r.value == Strip(line)
  {
    var s := Strip(line);
    if s == [] || s[0] == '#' then Skipped
    else
      match SplitAtEquals(s)
      case None => Malformed
      case Some((k, v)) => Assignment(k, v)
  }

  /** The `ValueError` raised when a kept line has no `=`, with that line's index. */
  datatype ParseError = MissingEquals(line: nat)

  /** Every line of the file, classified. */
  function Kinds(lines: seq<string>): (kinds: seq<LineKind>)
    ensures |kinds| == |lines|
    ensures forall i :: 0 <= i < |lines| ==> kinds[i] == Classify(lines[i])
  {
    seq(|lines|, i requires 0 <= i < |lines| => Classify(lines[i]))
  }

  /** The dictionary after the classified lines `kinds`, taken from the first: a skipped
      line changes nothing, an assignment sets its key, the first malformed line aborts. */
  function ParseKinds(kinds: seq<LineKind>): Result<map<string, string>, ParseError>
    decreases |kinds|
  {
    if kinds == [] then Success(map[])
    else
      match ParseKinds(kinds[..|kinds| - 1])
      case Failure(e) => Failure(e)
      case Success(d) =>
        match kinds[|kinds| - 1]
        case Skipped => Success(d)
        case Malformed => Failure(MissingEquals(|kinds| - 1))
        case Assignment(k, v) => Success(d[k := v])
  }

  /** What `read_env` returns for the lines of an existing file. */
  function Parse(lines: seq<string>): Result<map<string, string>, ParseError> {
    ParseKinds(Kinds(lines))
  }

  /** Once a prefix fails, the whole file fails with the same error. */
  lemma {:induction false} FailurePersists(kinds: seq<LineKind>, n: nat)
    requires n <= |kinds| && ParseKinds(kinds[..n]).Failure?
    ensures ParseKinds(kinds) == ParseKinds(kinds[..n])
    decreases |kinds|
  {
    if n < |kinds| {
      var init := kinds[..|kinds| - 1];
      assert init[..n] == kinds[..n];
      FailurePersists(init, n);
    } else {
      assert kinds[..n] == kinds;
    }
  }

  /** `read_env`: a missing file reads as the empty dictionary; otherwise the lines are
      processed in order and the first malformed one aborts the read. */
  method ReadEnv(file: Option<seq<string>>) returns (r: Result<map<string, string>, ParseError>)
    ensures file.None? ==> r == Success(map[])
    ensures file.Some? ==> r == Parse(file.value)
  {
    if file.None? {
      return Success(map[]);
    }
    var lines := file.value;
    ghost var kinds := Kinds(lines);
    var d: map<string, string> := map[];
    for i := 0 to |lines|
      invariant ParseKinds(kinds[..i]) == Success(d)
    {
      assert kinds[..i + 1][..i] == kinds[..i];
      var line := Strip(lines[i]);
      if line == [] || line[0] == '#' {
        continue;
      }
      var kv := SplitAtEquals(line);
      if kv.None? {
        FailurePersists(kinds, i + 1);
        return Failure(MissingEquals(i));
      }
      d := d[kv.value.0 := kv.value.1];
    }
    assert kinds[..|lines|] == kinds;
    r := Success(d);
  }

  /** The read fails exactly when some line is malformed, and it names the first one. */
  lemma {:induction false} FailsAtFirstMalformed(kinds: seq<LineKind>)
    ensures ParseKinds(kinds).Failure? ==>
              var i := ParseKinds(kinds).error.line;
              && i < |kinds| && kinds[i].Malformed?
              && forall j :: 0 <= j < i ==> !kinds[j].Malformed?
    ensures (exists i :: 0 <= i < |kinds| && kinds[i].Malformed?) ==> ParseKinds(kinds).Failure?
    decreases |kinds|
  {
    if kinds != [] {
      var init := kinds[..|kinds| - 1];
      FailsAtFirstMalformed(init);
      assert forall j :: 0 <= j < |init| ==> init[j] == kinds[j];
    }
  }

  /** A later line with the same key overwrites an earlier one: the value read for a key is
      the one on its last assigning line. */
  lemma {:induction false} LastAssignmentWins(kinds: seq<LineKind>, i: nat)
    requires ParseKinds(kinds).Success? && i < |kinds| && kinds[i].Assignment?
    requires forall j :: i < j < |kinds| ==> !(kinds[j].Assignment? && kinds[j].key == kinds[i].key)
    ensures kinds[i].key in ParseKinds(kinds).value
    ensures ParseKinds(kinds).value[kinds[i].key] == kinds[i].value
    decreases |kinds|
  {
    var init := kinds[..|kinds| - 1];
    if i < |kinds| - 1 {
      assert forall j :: 0 <= j < |init| ==> init[j] == kinds[j];
      LastAssignmentWins(init, i);
    }
  }

  /** The keys read are exactly the keys of the assigning lines. */
  lemma {:induction false} KeysAreAssigned(kinds: seq<LineKind>, key: string)
    requires ParseKinds(kinds).Success?
    ensures key in ParseKinds(kinds).value <==>
              exists i :: 0 <= i < |kinds| && kinds[i].Assignment? && kinds[i].key == key
    decreases |kinds|
  {
    if kinds != [] {
      var init := kinds[..|kinds| - 1];
      KeysAreAssigned(init, key);
      assert forall j :: 0 <= j < |init| ==> init[j] == kinds[j];
    }
  }

  /** The URI the script prints: the MySQL URI when user, password and database are all
      non-empty in the file (host and port default only when missing), the bare word
      `sqlite` otherwise. */
  function UriFromEnv(env: map<string, string>): (uri: string)
    ensures uri != "sqlite" <==>
              App.HasMySqlCredentials(App.Getenv(env, "MYSQL_USER"), App.Getenv(env, "MYSQL_PASSWORD"),
                                      App.Getenv(env, "MYSQL_DB"))
    ensures uri != "sqlite" ==>
              uri == App.MySqlUri(env["MYSQL_USER"], env["MYSQL_PASSWORD"],
                                  App.GetenvOr(env, "MYSQL_HOST", App.DefaultMySqlHost),
                                  App.GetenvOr(env, "MYSQL_PORT", App.DefaultMySqlPort), env["MYSQL_DB"])
  {
    var user := App.Getenv(env, "MYSQL_USER");
    var password := App.Getenv(env, "MYSQL_PASSWORD");
    var host := App.GetenvOr(env, "MYSQL_HOST", App.DefaultMySqlHost);
    var port := App.GetenvOr(env, "MYSQL_PORT", App.DefaultMySqlPort);
    var db := App.Getenv(env, "MYSQL_DB");
    if App.HasMySqlCredentials(user, password, db) then
      var uri := App.MySqlUri(user.value, password.value, host, port, db.value);
      assert uri[0] == 'm';
      uri
    else
      "sqlite"
  }

  /** Without `DATABASE_URL`, the script and the server agree: the same MySQL URI when the
      credentials are complete, and SQLite otherwise. */
  lemma ScriptAgreesWithServer(env: map<string, string>, rootDir: string)
    requires !TruthyText(App.Getenv(env, "DATABASE_URL"))
    ensures UriFromEnv(env) != "sqlite" ==> UriFromEnv(env) == App.DatabaseUri(env, rootDir)
    ensures UriFromEnv(env) == "sqlite" ==> "sqlite:///" <= App.DatabaseUri(env, rootDir)
  {
  }
}
