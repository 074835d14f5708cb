/**
  * Configuration of the connection manager, read once from the process environment (given
  * here as a map), and the row fetch with its one-row truncation probe.
  */
module Db {
  import opened Wrappers
  import opened Text
  import opened Rows
  import Grouping

  const ConnectionStringVar := "SQLANYWHERE_CONNECTION_STRING"
  const DriverVar := "SQLANYWHERE_DRIVER"
  const HostVar := "SQLANYWHERE_HOST"
  const PortVar := "SQLANYWHERE_PORT"
  const DatabaseVar := "SQLANYWHERE_DATABASE"
  const UserVar := "SQLANYWHERE_USER"
  const PasswordVar := "SQLANYWHERE_PASSWORD"
  const ServerNameVar := "SQLANYWHERE_SERVER_NAME"
  const UseTcpVar := "SQLANYWHERE_USE_TCP"
  const EncryptVar := "SQLANYWHERE_ENCRYPT"
  const QueryTimeoutVar := "SQLANYWHERE_QUERY_TIMEOUT"
  const MaxRowsVar := "SQLANYWHERE_MAX_ROWS"
  const MaxRowsLimitVar := "SQLANYWHERE_MAX_ROWS_LIMIT"
  const AuthorizedUsersVar := "SQLANYWHERE_AUTHORIZED_USERS"

  /** The texts the three integer settings fall back to. */
  const TimeoutDefault := "30"
  const MaxRowsDefault := "1000"
  const RowsLimitDefault := "10000"

  const DefaultAuthorizedUsers := "monitor,ExtensionsUser"
  const MissingDatabaseMessage := "SQLANYWHERE_DATABASE or SQLANYWHERE_CONNECTION_STRING must be provided"

  type Env = map<string, string>

  /** `os.getenv(key, default)`: a variable set to the empty string is returned as is. */
  function Getenv(env: Env, key: string, default: string): string {
    if key in env then env[key] else default
  }

  /** `value.lower() in ("true", "yes", "1")` */
  predicate IsTrueFlag(value: string) {
    Lower(value) in {"true", "yes", "1"}
  }

  // ---------------------------------------------------------------------------
  // Authorized users
  // ---------------------------------------------------------------------------

  /** The stripped parts that are not empty, in order: `[u.strip() for u in parts if u.strip()]`. */
  function StrippedNonEmpty(parts: seq<string>): (users: seq<string>)
    ensures forall k :: 0 <= k < |users| ==> users[k] != "" && IsStripped(users[k])
    ensures |users| <= |parts|
  {
    if parts == [] then []
    else
      StripIsStripped(parts[0]);
      KeptPart(parts[0]) + StrippedNonEmpty(parts[1..])
  }

  /** What one part contributes: its stripped text, unless that is empty. */
  function KeptPart(part: string): seq<string> {
    if Strip(part) != "" then [Strip(part)] else []
  }

  lemma {:induction false} StrippedNonEmptyCons(part: string, rest: seq<string>)
    ensures StrippedNonEmpty([part] + rest) == KeptPart(part) + StrippedNonEmpty(rest)
  {
    assert ([part] + rest)[0] == part;
    assert ([part] + rest)[1..] == rest;
  }

  /** Filtering a concatenation filters each side. */
  lemma {:induction false} StrippedNonEmptyAppend(a: seq<string>, b: seq<string>)
    ensures StrippedNonEmpty(a + b) == StrippedNonEmpty(a) + StrippedNonEmpty(b)
  {
    if a == [] {
      assert a + b == b;
    } else {
      assert a == [a[0]] + a[1..];
      assert a + b == [a[0]] + (a[1..] + b);
      StrippedNonEmptyAppend(a[1..], b);
      StrippedNonEmptyAppendStep(a[0], a[1..], b);
    }
  }

  lemma {:induction false} StrippedNonEmptyAppendStep(x: string, t: seq<string>, b: seq<string>)
    requires StrippedNonEmpty(t + b) == StrippedNonEmpty(t) + StrippedNonEmpty(b)
    ensures StrippedNonEmpty([x] + (t + b)) == StrippedNonEmpty([x] + t) + StrippedNonEmpty(b)
  {
    StrippedNonEmptyCons(x, t + b);
    StrippedNonEmptyCons(x, t);
    ConcatAssoc(KeptPart(x), StrippedNonEmpty(t), StrippedNonEmpty(b));
  }

  /** Concatenation is associative; stated generically so that no string facts are in scope. */
  lemma {:induction false} ConcatAssoc<T>(h: seq<T>, u: seq<T>, v: seq<T>)
    ensures h + (u + v) == (h + u) + v
  {
    assert |h + (u + v)| == |(h + u) + v|;
    forall i | 0 <= i < |h + (u + v)|
      ensures (h + (u + v))[i] == ((h + u) + v)[i]
    {
    }
  }

  /**
    * Every non-blank part is kept, stripped, at the position given by the number of
    * non-blank parts before it.
    */
  lemma {:induction false} StrippedNonEmptyKeeps(parts: seq<string>, k: nat)
    requires k < |parts| && Strip(parts[k]) != ""
    ensures |StrippedNonEmpty(parts[..k])| < |StrippedNonEmpty(parts)|
    ensures StrippedNonEmpty(parts)[|StrippedNonEmpty(parts[..k])|] == Strip(parts[k])
    ensures Strip(parts[k]) in StrippedNonEmpty(parts)
  {
    assert parts == parts[..k] + ([parts[k]] + parts[k + 1..]);
    StrippedNonEmptyAppend(parts[..k], [parts[k]] + parts[k + 1..]);
    assert ([parts[k]] + parts[k + 1..])[1..] == parts[k + 1..];
  }

  /** Two non-blank parts keep their order in the user list. */
  lemma {:induction false} StrippedNonEmptyInOrder(parts: seq<string>, j: nat, k: nat)
    requires j < k < |parts| && Strip(parts[j]) != "" && Strip(parts[k]) != ""
    ensures |StrippedNonEmpty(parts[..j])| < |StrippedNonEmpty(parts[..k])|
  {
    assert parts[..k] == parts[..j] + parts[j..k];
    StrippedNonEmptyAppend(parts[..j], parts[j..k]);
    assert parts[j..k][0] == parts[j];
  }

  /** Every kept user is the stripped text of a non-blank part, at that part's position. */
  lemma {:induction false} StrippedNonEmptyFromParts(parts: seq<string>, i: nat)
    requires i < |StrippedNonEmpty(parts)|
    ensures exists k :: 0 <= k < |parts| && Strip(parts[k]) == StrippedNonEmpty(parts)[i]
                        && |StrippedNonEmpty(parts[..k])| == i
  {
    StrippedNonEmptyLength(parts);
    if i < |KeptPart(parts[0])| {
      StrippedNonEmptyFirst(parts, i);
      assert Strip(parts[0]) == StrippedNonEmpty(parts)[i] && |StrippedNonEmpty(parts[..0])| == i;
    } else {
      var i' := i - |KeptPart(parts[0])|;
      StrippedNonEmptyFromParts(parts[1..], i');
      var k :| 0 <= k < |parts[1..]| && Strip(parts[1..][k]) == StrippedNonEmpty(parts[1..])[i']
               && |StrippedNonEmpty(parts[1..][..k])| == i';
      StrippedNonEmptyLater(parts, i, k);
      assert Strip(parts[k + 1]) == StrippedNonEmpty(parts)[i] && |StrippedNonEmpty(parts[..k + 1])| == i;
    }
  }

  lemma {:induction false} StrippedNonEmptyLength(parts: seq<string>)
    requires parts != []
    ensures |StrippedNonEmpty(parts)| == |KeptPart(parts[0])| + |StrippedNonEmpty(parts[1..])|
  {
    assert StrippedNonEmpty(parts) == KeptPart(parts[0]) + StrippedNonEmpty(parts[1..]);
  }

  lemma {:induction false} StrippedNonEmptyFirst(parts: seq<string>, i: nat)
    requires parts != [] && i < |KeptPart(parts[0])|
    ensures i == 0 && StrippedNonEmpty(parts)[0] == Strip(parts[0]) && |StrippedNonEmpty(parts[..0])| == 0
  {
    assert StrippedNonEmpty(parts) == KeptPart(parts[0]) + StrippedNonEmpty(parts[1..]);
    assert parts[..0] == [];
  }

  lemma {:induction false} StrippedNonEmptyLater(parts: seq<string>, i: nat, k: nat)
    requires k + 1 < |parts| && |KeptPart(parts[0])| <= i < |StrippedNonEmpty(parts)|
    requires |StrippedNonEmpty(parts)| == |KeptPart(parts[0])| + |StrippedNonEmpty(parts[1..])|
    requires Strip(parts[1..][k]) == StrippedNonEmpty(parts[1..])[i - |KeptPart(parts[0])|]
    requires |StrippedNonEmpty(parts[1..][..k])| == i - |KeptPart(parts[0])|
    ensures Strip(parts[k + 1]) == StrippedNonEmpty(parts)[i] && |StrippedNonEmpty(parts[..k + 1])| == i
  {
    var head, rest := KeptPart(parts[0]), StrippedNonEmpty(parts[1..]);
    assert StrippedNonEmpty(parts) == head + rest;
    assert (head + rest)[i] == rest[i - |head|];
    assert parts[1..][k] == parts[k + 1];
    StrippedNonEmptyPrefixStep(parts, k);
  }

  /** A prefix one part longer counts that part's contribution. */
  lemma {:induction false} StrippedNonEmptyPrefixStep(parts: seq<string>, k: nat)
    requires k < |parts| - 1
    ensures |StrippedNonEmpty(parts[..k + 1])| == |KeptPart(parts[0])| + |StrippedNonEmpty(parts[1..][..k])|
  {
    assert parts[..k + 1] == [parts[0]] + parts[1..][..k];
    StrippedNonEmptyCons(parts[0], parts[1..][..k]);
  }

  /** Membership both ways: a user is exactly the stripped text of some non-blank part. */
  lemma {:induction false} StrippedNonEmptyMembers(parts: seq<string>, u: string)
    ensures u in StrippedNonEmpty(parts) <==> u != "" && exists k :: 0 <= k < |parts| && Strip(parts[k]) == u
  {
    if u in StrippedNonEmpty(parts) {
      var i :| 0 <= i < |StrippedNonEmpty(parts)| && StrippedNonEmpty(parts)[i] == u;
      StrippedNonEmptyFromParts(parts, i);
    }
    if u != "" && exists k :: 0 <= k < |parts| && Strip(parts[k]) == u {
      var k :| 0 <= k < |parts| && Strip(parts[k]) == u;
      StrippedNonEmptyKeeps(parts, k);
    }
  }

  /** The user list of a `SQLANYWHERE_AUTHORIZED_USERS` value. */
  function UsersOf(text: string): seq<string> {
    StrippedNonEmpty(Split(text, ','))
  }

  /** `_parse_authorized_users`: the variable, or `"monitor,ExtensionsUser"` when it is unset. */
  function ParseAuthorizedUsers(env: Env): (users: seq<string>)
    ensures forall k :: 0 <= k < |users| ==> users[k] != "" && IsStripped(users[k]) && ',' !in users[k]
  {
    var parts := SettingParts(env);
    StrippedNonEmptyFrom(parts);
    StrippedNonEmpty(parts)
  }

  /** The comma-separated parts of the setting, or of the default when it is unset. */
  function SettingParts(env: Env): seq<string> {
    Split(Getenv(env, AuthorizedUsersVar, DefaultAuthorizedUsers), ',')
  }

  lemma {:induction false} StrippedNonEmptyFrom(parts: seq<string>)
    requires forall k :: 0 <= k < |parts| ==> ',' !in parts[k]
    ensures forall k :: 0 <= k < |StrippedNonEmpty(parts)| ==> ',' !in StrippedNonEmpty(parts)[k]
  {
    if parts != [] {
      StrippedNonEmptyFrom(parts[1..]);
      StripKeepsOut(parts[0], ',');
      var head := if Strip(parts[0]) != "" then [Strip(parts[0])] else [];
      var rest := StrippedNonEmpty(parts[1..]);
      assert StrippedNonEmpty(parts) == head + rest;
      forall k | 0 <= k < |head + rest|
        ensures ',' !in (head + rest)[k]
      {
        if k >= |head| {
          assert (head + rest)[k] == rest[k - |head|];
        }
      }
    }
  }

  /** A character absent from `s` is absent from `Strip(s)`. */
  lemma {:induction false} StripKeepsOut(s: string, c: char)
    requires c !in s
    ensures c !in Strip(s)
  {
    var t := LStrip(s);
    assert t == s[|s| - |t|..];
    assert c !in t;
    assert RStrip(t) == t[..|RStrip(t)|];
  }

  /**
    * A name is authorized exactly when it is the stripped, non-empty text of one of the
    * comma-separated parts of the setting (or of the default when the setting is unset).
    */
  lemma {:induction false} AuthorizedUserMembers(env: Env, u: string)
    ensures u in ParseAuthorizedUsers(env) <==>
              u != "" && exists k :: 0 <= k < |SettingParts(env)| && Strip(SettingParts(env)[k]) == u
  {
    StrippedNonEmptyMembers(SettingParts(env), u);
  }

  /** The default applies only to an unset variable: a setting of `""` or `","` authorizes nobody. */
  lemma {:induction false} BlankSettingNoUsers(env: Env)
    requires AuthorizedUsersVar in env && (env[AuthorizedUsersVar] == "" || env[AuthorizedUsersVar] == ",")
    ensures ParseAuthorizedUsers(env) == []
  {
    var value := env[AuthorizedUsersVar];
    assert Getenv(env, AuthorizedUsersVar, DefaultAuthorizedUsers) == value;
    assert Split("", ',') == [""];
    if value == "," {
      assert IndexOf(",", ',') == 0;
      assert ","[..0] == "" && ","[1..] == "";
      assert Split(",", ',') == ["", ""];
    }
    BlankPartsNoUsers(Split(value, ','));
  }

  lemma {:induction false} BlankPartsNoUsers(parts: seq<string>)
    requires forall k :: 0 <= k < |parts| ==> parts[k] == ""
    ensures StrippedNonEmpty(parts) == []
  {
    if parts != [] {
      assert Strip(parts[0]) == "";
      BlankPartsNoUsers(parts[1..]);
    }
  }

  /** With the variable unset the list is the documented default. */
  lemma {:induction false} DefaultUsers(env: Env)
    requires AuthorizedUsersVar !in env
    ensures ParseAuthorizedUsers(env) == ["monitor", "ExtensionsUser"]
  {
    var users := ["monitor", "ExtensionsUser"];
    assert DefaultAuthorizedUsers == Join(users, ",");
    assert "monitor"[0] == 'm' && "monitor"[6] == 'r';
    assert "ExtensionsUser"[0] == 'E' && "ExtensionsUser"[13] == 'r';
    assert ',' !in "monitor" && ',' !in "ExtensionsUser";
    CleanUsersRoundTrip(users);
  }

  /**
    * Parsing is idempotent: a parsed list written back comma-separated parses to itself.
    */
  lemma {:induction false} UsersRoundTrip(env: Env)
    ensures UsersOf(Join(ParseAuthorizedUsers(env), ",")) == ParseAuthorizedUsers(env)
  {
    CleanUsersRoundTrip(ParseAuthorizedUsers(env));
  }

  lemma {:induction false} CleanUsersRoundTrip(users: seq<string>)
    requires forall k :: 0 <= k < |users| ==> users[k] != "" && IsStripped(users[k]) && ',' !in users[k]
    ensures UsersOf(Join(users, ",")) == users
  {
    if users == [] {
      assert Split("", ',') == [""];
      assert Strip("") == "";
    } else {
      SplitJoin(users, ',');
      assert Join(users, ",") == Join(users, [',']);
      KeepsCleanUsers(users);
    }
  }

  lemma {:induction false} KeepsCleanUsers(users: seq<string>)
    requires forall k :: 0 <= k < |users| ==> users[k] != "" && IsStripped(users[k])
    ensures StrippedNonEmpty(users) == users
  {
    if users != [] {
      assert users == [users[0]] + users[1..];
      StripFixed(users[0]);
      KeepsCleanUser(users[0], users[1..]);
      KeepsCleanUsers(users[1..]);
    }
  }

  lemma {:induction false} KeepsCleanUser(u: string, rest: seq<string>)
    requires u != "" && Strip(u) == u
    ensures StrippedNonEmpty([u] + rest) == [u] + StrippedNonEmpty(rest)
  {
    assert ([u] + rest)[1..] == rest;
  }

  // ---------------------------------------------------------------------------
  // Connection string
  // ---------------------------------------------------------------------------

  /** One `key=value` field of a connection string. */
  function Field(key: string, value: string): string {
    key + "=" + value
  }

  /** A field present only when its condition holds. */
  function OptField(present: bool, key: string, value: string): seq<string> {
    if present then [Field(key, value)] else []
  }

  /** The `key=value` fields of a connection string built from individual variables, in order. */
  function ConnectionFields(env: Env): (parts: seq<string>)
  {
    var driver := Getenv(env, DriverVar, "SQL Anywhere 17");
    var database := Getenv(env, DatabaseVar, "");
    var user := Getenv(env, UserVar, "");
    var password := Getenv(env, PasswordVar, "");
    var serverName := Getenv(env, ServerNameVar, "");
    var host := Getenv(env, HostVar, "");
    var port := Getenv(env, PortVar, "2638");
    [Field("DRIVER", "{" + driver + "}"), Field("DBN", database)]
    + OptField(user != "", "UID", user)
    + OptField(password != "", "PWD", password)
    + OptField(serverName != "", "ServerName", serverName)
    + OptField(IsTrueFlag(Getenv(env, UseTcpVar, "false")) && host != "", "Host", host + ":" + port)
    + OptField(IsTrueFlag(Getenv(env, EncryptVar, "")), "ENCRYPT", "YES")
  }

  /**
    * `_build_connection_string`: a non-empty override is returned verbatim; otherwise the
    * database name is required and the fields are joined with ";". `warned` stands for the
    * `UserWarning` issued when no server name is set.
    */
  method BuildConnectionString(env: Env) returns (r: Result<string, string>, warned: bool)
    ensures Getenv(env, ConnectionStringVar, "") != "" ==> r == Ok(env[ConnectionStringVar]) && !warned
    ensures Getenv(env, ConnectionStringVar, "") == "" && Getenv(env, DatabaseVar, "") == "" ==>
      r == Err(MissingDatabaseMessage) && !warned
    ensures Getenv(env, ConnectionStringVar, "") == "" && Getenv(env, DatabaseVar, "") != "" ==>
      r == Ok(Join(ConnectionFields(env), ";")) && warned == (Getenv(env, ServerNameVar, "") == "")
  {
    warned := false;
    var connStr := Getenv(env, ConnectionStringVar, "");
    if connStr != "" {
      return Ok(connStr), warned;
    }
    var driver := Getenv(env, DriverVar, "SQL Anywhere 17");
    var host := Getenv(env, HostVar, "");
    var port := Getenv(env, PortVar, "2638");
    var database := Getenv(env, DatabaseVar, "");
    var user := Getenv(env, UserVar, "");
    var password := Getenv(env, PasswordVar, "");
    var serverName := Getenv(env, ServerNameVar, "");
    var useTcp := IsTrueFlag(Getenv(env, UseTcpVar, "false"));
    if database == "" {
      return Err(MissingDatabaseMessage), warned;
    }
    var parts := [Field("DRIVER", "{" + driver + "}"), Field("DBN", database)];
    ghost var expected := parts;
    if user != "" {
      parts := parts + [Field("UID", user)];
    }
    expected := expected + OptField(user != "", "UID", user);
    assert parts == expected;
    if password != "" {
      parts := parts + [Field("PWD", password)];
    }
    expected := expected + OptField(password != "", "PWD", password);
    assert parts == expected;
    if serverName != "" {
      parts := parts + [Field("ServerName", serverName)];
    } else {
      warned := true;
    }
    expected := expected + OptField(serverName != "", "ServerName", serverName);
    assert parts == expected;
    if useTcp && host != "" {
      parts := parts + [Field("Host", host + ":" + port)];
    }
    expected := expected + OptField(useTcp && host != "", "Host", host + ":" + port);
    assert parts == expected;
    var encrypt := Getenv(env, EncryptVar, "");
    if IsTrueFlag(encrypt) {
      parts := parts + [Field("ENCRYPT", "YES")];
    }
    expected := expected + OptField(IsTrueFlag(encrypt), "ENCRYPT", "YES");
    assert parts == expected;
    assert expected == ConnectionFields(env);
    return Ok(Join(parts, ";")), warned;
  }

  /** The text of a field up to its first '=': its key. */
  function FieldKey(field: string): string {
    if '=' in field then field[..IndexOf(field, '=')] else field
  }

  function FieldKeys(fields: seq<string>): (keys: seq<string>)
    ensures |keys| == |fields|
    ensures forall k :: 0 <= k < |fields| ==> keys[k] == FieldKey(fields[k])
  {
    if fields == [] then [] else [FieldKey(fields[0])] + FieldKeys(fields[1..])
  }

  predicate NoneHolds(parts: seq<string>, c: char) {
    forall k :: 0 <= k < |parts| ==> c !in parts[k]
  }

  lemma {:induction false} FieldLacks(key: string, value: string, c: char)
    requires c != '=' && c !in key && c !in value
    ensures c !in Field(key, value)
  {
  }

  lemma {:induction false} OptFieldLacks(present: bool, key: string, value: string, c: char)
    requires c != '=' && c !in key && c !in value
    ensures NoneHolds(OptField(present, key, value), c)
  {
    FieldLacks(key, value, c);
  }

  lemma {:induction false} NoneHoldsAppend(a: seq<string>, b: seq<string>, c: char)
    requires NoneHolds(a, c) && NoneHolds(b, c)
    ensures NoneHolds(a + b, c)
  {
  }

  lemma {:induction false} GetenvLacks(env: Env, key: string, default: string, c: char)
    requires forall k :: k in env ==> c !in env[k]
    requires c !in default
    ensures c !in Getenv(env, key, default)
  {
  }

  /** No field holds a ";" when no variable does. */
  lemma {:induction false} FieldsWithoutSemicolon(env: Env)
    requires forall k :: k in env ==> ';' !in env[k]
    ensures NoneHolds(ConnectionFields(env), ';')
  {
    var driver := Getenv(env, DriverVar, "SQL Anywhere 17");
    var database := Getenv(env, DatabaseVar, "");
    var user := Getenv(env, UserVar, "");
    var password := Getenv(env, PasswordVar, "");
    var serverName := Getenv(env, ServerNameVar, "");
    var host := Getenv(env, HostVar, "");
    var port := Getenv(env, PortVar, "2638");
    assert ';' !in "SQL Anywhere 17" && ';' !in "2638" && ';' !in "" && ';' !in "YES";
    GetenvLacks(env, DriverVar, "SQL Anywhere 17", ';');
    GetenvLacks(env, DatabaseVar, "", ';');
    GetenvLacks(env, UserVar, "", ';');
    GetenvLacks(env, PasswordVar, "", ';');
    GetenvLacks(env, ServerNameVar, "", ';');
    GetenvLacks(env, HostVar, "", ';');
    GetenvLacks(env, PortVar, "2638", ';');
    FieldLacks("DRIVER", "{" + driver + "}", ';');
    FieldLacks("DBN", database, ';');
    var parts := [Field("DRIVER", "{" + driver + "}"), Field("DBN", database)];
    assert NoneHolds(parts, ';');
    OptFieldLacks(user != "", "UID", user, ';');
    NoneHoldsAppend(parts, OptField(user != "", "UID", user), ';');
    parts := parts + OptField(user != "", "UID", user);
    OptFieldLacks(password != "", "PWD", password, ';');
    NoneHoldsAppend(parts, OptField(password != "", "PWD", password), ';');
    parts := parts + OptField(password != "", "PWD", password);
    OptFieldLacks(serverName != "", "ServerName", serverName, ';');
    NoneHoldsAppend(parts, OptField(serverName != "", "ServerName", serverName), ';');
    parts := parts + OptField(serverName != "", "ServerName", serverName);
    var tcp := IsTrueFlag(Getenv(env, UseTcpVar, "false")) && host != "";
    OptFieldLacks(tcp, "Host", host + ":" + port, ';');
    NoneHoldsAppend(parts, OptField(tcp, "Host", host + ":" + port), ';');
    parts := parts + OptField(tcp, "Host", host + ":" + port);
    var encrypt := IsTrueFlag(Getenv(env, EncryptVar, ""));
    OptFieldLacks(encrypt, "ENCRYPT", "YES", ';');
    NoneHoldsAppend(parts, OptField(encrypt, "ENCRYPT", "YES"), ';');
    parts := parts + OptField(encrypt, "ENCRYPT", "YES");
    assert parts == ConnectionFields(env);
  }

  /** Splitting the built string on ";" gives the fields back when no value holds a ";". */
  lemma {:induction false} ConnectionFieldsRoundTrip(env: Env)
    requires forall k :: k in env ==> ';' !in env[k]
    ensures Split(Join(ConnectionFields(env), ";"), ';') == ConnectionFields(env)
  {
    FieldsWithoutSemicolon(env);
    SplitJoin(ConnectionFields(env), ';');
    assert Join(ConnectionFields(env), ";") == Join(ConnectionFields(env), [';']);
  }

  /**
    * The keys come out in the fixed order DRIVER, DBN, UID, PWD, ServerName, Host, ENCRYPT,
    * each optional one exactly when its condition holds.
    */
  lemma {:induction false} ConnectionFieldOrder(env: Env)
    ensures FieldKeys(ConnectionFields(env)) ==
      ["DRIVER", "DBN"]
      + (if Getenv(env, UserVar, "") != "" then ["UID"] else [])
      + (if Getenv(env, PasswordVar, "") != "" then ["PWD"] else [])
      + (if Getenv(env, ServerNameVar, "") != "" then ["ServerName"] else [])
      + (if IsTrueFlag(Getenv(env, UseTcpVar, "false")) && Getenv(env, HostVar, "") != "" then ["Host"] else [])
      + (if IsTrueFlag(Getenv(env, EncryptVar, "")) then ["ENCRYPT"] else [])
  {
    var user := Getenv(env, UserVar, "");
    var password := Getenv(env, PasswordVar, "");
    var serverName := Getenv(env, ServerNameVar, "");
    var host := Getenv(env, HostVar, "");
    var tcp := IsTrueFlag(Getenv(env, UseTcpVar, "false")) && host != "";
    var encrypt := IsTrueFlag(Getenv(env, EncryptVar, ""));
    var head := [Field("DRIVER", "{" + Getenv(env, DriverVar, "SQL Anywhere 17") + "}"),
      Field("DBN", Getenv(env, DatabaseVar, ""))];
    KeyOf("DRIVER", "{" + Getenv(env, DriverVar, "SQL Anywhere 17") + "}");
    KeyOf("DBN", Getenv(env, DatabaseVar, ""));
    assert FieldKeys(head) == ["DRIVER", "DBN"];
    var o1 := OptField(user != "", "UID", user);
    var o2 := OptField(password != "", "PWD", password);
    var o3 := OptField(serverName != "", "ServerName", serverName);
    var o4 := OptField(tcp, "Host", host + ":" + Getenv(env, PortVar, "2638"));
    var o5 := OptField(encrypt, "ENCRYPT", "YES");
    KeysWithoutEquals();
    OptKeys(user != "", "UID", user);
    OptKeys(password != "", "PWD", password);
    OptKeys(serverName != "", "ServerName", serverName);
    OptKeys(tcp, "Host", host + ":" + Getenv(env, PortVar, "2638"));
    OptKeys(encrypt, "ENCRYPT", "YES");
    assert ConnectionFields(env) == head + o1 + o2 + o3 + o4 + o5;
    FieldKeysAppend(head, o1);
    FieldKeysAppend(head + o1, o2);
    FieldKeysAppend(head + o1 + o2, o3);
    FieldKeysAppend(head + o1 + o2 + o3, o4);
    FieldKeysAppend(head + o1 + o2 + o3 + o4, o5);
  }

  lemma {:induction false} KeysWithoutEquals()
    ensures '=' !in "DRIVER" && '=' !in "DBN" && '=' !in "UID" && '=' !in "PWD"
    ensures '=' !in "ServerName" && '=' !in "Host" && '=' !in "ENCRYPT"
  {
  }

  lemma {:induction false} FieldKeysAppend(a: seq<string>, b: seq<string>)
    ensures FieldKeys(a + b) == FieldKeys(a) + FieldKeys(b)
  {
  }

  lemma {:induction false} OptKeys(present: bool, key: string, value: string)
    requires '=' !in key
    ensures FieldKeys(OptField(present, key, value)) == if present then [key] else []
  {
    if present {
      KeyOf(key, value);
    }
  }

  lemma {:induction false} KeyOf(key: string, value: string)
    requires '=' !in key
    ensures FieldKey(Field(key, value)) == key
  {
    var f := key + "=" + value;
    assert f[|key|] == '=';
    assert f[..|key|] == key;
  }

  // ---------------------------------------------------------------------------
  // Connection manager configuration
  // ---------------------------------------------------------------------------

  /** The settings `ConnectionManager.__init__` reads once; `_connection` itself is not modelled. */
  datatype Config = Config(
    connectionString: string,
    queryTimeout: int,
    defaultMaxRows: int,
    maxRowsLimit: int,
    authorizedUsers: seq<string>)

  /** A literal that is the rendering of `n` reads back as `n`. */
  lemma {:induction false} ParseIntOfRendering(s: string, n: int)
    requires s == IntToString(n)
    ensures ParseInt(s) == Some(n)
  {
    ParseIntToString(n);
  }

  lemma {:induction false} TimeoutDefaultParses()
    ensures ParseInt(TimeoutDefault) == Some(30)
  {
    ParseIntOfRendering(TimeoutDefault, 30);
  }

  lemma {:induction false} MaxRowsDefaultParses()
    ensures ParseInt(MaxRowsDefault) == Some(1000)
  {
    ParseIntOfRendering(MaxRowsDefault, 1000);
  }

  lemma {:induction false} RowsLimitDefaultParses()
    ensures ParseInt(RowsLimitDefault) == Some(10000)
  {
    ParseIntOfRendering(RowsLimitDefault, 10000);
  }

  /** The three integer defaults read as 30, 1000 and 10000. */
  lemma {:induction false} DefaultIntegers()
    ensures ParseInt(TimeoutDefault) == Some(30)
    ensures ParseInt(MaxRowsDefault) == Some(1000)
    ensures ParseInt(RowsLimitDefault) == Some(10000)
  {
    TimeoutDefaultParses();
    MaxRowsDefaultParses();
    RowsLimitDefaultParses();
  }

  /** `ValueError` raised while reading the configuration. */
  datatype ConfigError = MissingDatabase | InvalidInteger(variable: string, text: string)

  /**
    * `ConnectionManager.__init__`: the connection string first, then the three integers in
    * order (each failing as `int()` does), then the authorized users.
    */
  method LoadConfig(env: Env) returns (r: Result<Config, ConfigError>)
    ensures r.Err? && r.error == MissingDatabase <==>
      Getenv(env, ConnectionStringVar, "") == "" && Getenv(env, DatabaseVar, "") == ""
    ensures r.Ok? <==>
      (Getenv(env, ConnectionStringVar, "") != "" || Getenv(env, DatabaseVar, "") != "") &&
      ParseInt(Getenv(env, QueryTimeoutVar, TimeoutDefault)).Some? &&
      ParseInt(Getenv(env, MaxRowsVar, MaxRowsDefault)).Some? &&
      ParseInt(Getenv(env, MaxRowsLimitVar, RowsLimitDefault)).Some?
    ensures r.Ok? ==> r.value.authorizedUsers == ParseAuthorizedUsers(env)
    ensures r.Ok? && QueryTimeoutVar !in env ==> r.value.queryTimeout == 30
    ensures r.Ok? && MaxRowsVar !in env ==> r.value.defaultMaxRows == 1000
    ensures r.Ok? && MaxRowsLimitVar !in env ==> r.value.maxRowsLimit == 10000
    ensures r.Ok? && QueryTimeoutVar in env ==> Some(r.value.queryTimeout) == ParseInt(env[QueryTimeoutVar])
    ensures r.Ok? && MaxRowsVar in env ==> Some(r.value.defaultMaxRows) == ParseInt(env[MaxRowsVar])
    ensures r.Ok? && MaxRowsLimitVar in env ==> Some(r.value.maxRowsLimit) == ParseInt(env[MaxRowsLimitVar])
  {
    var connectionString, warned := BuildConnectionString(env);
    if connectionString.Err? {
      return Err(MissingDatabase);
    }
    DefaultIntegers();
    var timeoutText := Getenv(env, QueryTimeoutVar, TimeoutDefault);
    var timeout := ParseInt(timeoutText);
    if timeout.None? {
      return Err(InvalidInteger(QueryTimeoutVar, timeoutText));
    }
    var maxRowsText := Getenv(env, MaxRowsVar, MaxRowsDefault);
    var maxRows := ParseInt(maxRowsText);
    if maxRows.None? {
      return Err(InvalidInteger(MaxRowsVar, maxRowsText));
    }
    var limitText := Getenv(env, MaxRowsLimitVar, RowsLimitDefault);
    var limit := ParseInt(limitText);
    if limit.None? {
      return Err(InvalidInteger(MaxRowsLimitVar, limitText));
    }
    return Ok(Config(connectionString.value, timeout.value, maxRows.value, limit.value,
      ParseAuthorizedUsers(env)));
  }

  // ---------------------------------------------------------------------------
  // Row fetch with the truncation probe
  // ---------------------------------------------------------------------------

  /** An executed cursor: the column names of `cursor.description` and the rows still to fetch. */
  datatype Cursor = Cursor(description: seq<string>, available: seq<seq<Cell>>)

  /** `cursor.fetchmany(n)`: the next `n` rows, or all that remain when fewer do. */
  function FetchMany(cursor: Cursor, n: nat): (rows: seq<seq<Cell>>)
    ensures rows <= cursor.available
    ensures |rows| == Min(n, |cursor.available|)
  {
    if n < |cursor.available| then cursor.available[..n] else cursor.available
  }

  function Min(a: int, b: int): int {
    if a < b then a else b
  }

  /** Every row the driver holds has one value per described column. */
  predicate Aligned(cursor: Cursor) {
    forall i :: 0 <= i < |cursor.available| ==> |cursor.available[i]| == |cursor.description|
  }

  /** How many rows the fetch keeps: at most a truthy `maxRows`, all of them otherwise. */
  function FetchedCount(cursor: Cursor, maxRows: Option<int>): nat
    requires maxRows.Some? ==> maxRows.value >= 0
  {
    if maxRows.Some? && maxRows.value != 0 then Min(|cursor.available|, maxRows.value)
    else |cursor.available|
  }

  /** The first `n` rows as `dict(zip(columns, row))`. */
  function Zipped(cursor: Cursor, n: nat): (rows: seq<Row>)
    requires n <= |cursor.available|
    ensures |rows| == n
    ensures forall i :: 0 <= i < n ==> rows[i] == FromZip(cursor.description, cursor.available[i])
  {
    seq(n, i requires 0 <= i < n => FromZip(cursor.description, cursor.available[i]))
  }

  /**
    * With distinct column names, each zipped row maps every described column to the value the
    * driver delivered in that position.
    */
  lemma {:induction false} ZippedValues(cursor: Cursor, n: nat)
    requires n <= |cursor.available| && Aligned(cursor) && Grouping.Distinct(cursor.description)
    ensures forall i, k :: 0 <= i < n && 0 <= k < |cursor.description| ==>
      cursor.description[k] in Keys(Zipped(cursor, n)[i]) &&
      Get(Zipped(cursor, n)[i], cursor.description[k]) == cursor.available[i][k]
  {
    forall i, k | 0 <= i < n && 0 <= k < |cursor.description|
      ensures cursor.description[k] in Keys(Zipped(cursor, n)[i])
      ensures Get(Zipped(cursor, n)[i], cursor.description[k]) == cursor.available[i][k]
    {
      FromZipGet(cursor.description, cursor.available[i], k);
    }
  }

  /** Rows zipped from an aligned cursor all have the same keys, in the same order. */
  lemma {:induction false} ZippedKeys(cursor: Cursor, n: nat)
    requires n <= |cursor.available| && Aligned(cursor)
    ensures forall i :: 0 <= i < n ==> Keys(Zipped(cursor, n)[i]) == Keys(Zipped(cursor, n)[0])
  {
    forall i | 0 <= i < n
      ensures Keys(Zipped(cursor, n)[i]) == Keys(Zipped(cursor, n)[0])
    {
      FromZipKeys(cursor.description, cursor.available[i], cursor.available[0]);
    }
  }

  /** `[dict(zip(columns, row)) for row in rows]` */
  method ZipRows(columns: seq<string>, fetched: seq<seq<Cell>>) returns (rows: seq<Row>)
    ensures |rows| == |fetched|
    ensures forall k :: 0 <= k < |rows| ==> rows[k] == FromZip(columns, fetched[k])
  {
    rows := [];
    for i := 0 to |fetched|
      invariant |rows| == i
      invariant forall k :: 0 <= k < i ==> rows[k] == FromZip(columns, fetched[k])
    {
      var row := FromZip(columns, fetched[i]);
      rows := rows + [row];
    }
  }

  /**
    * The fetch of `execute_query_with_metadata`. With a truthy `maxRows` one row more than the
    * limit is asked for: more rows exist exactly when it arrives, and it is dropped. With `None`
    * or 0 everything is fetched and nothing is reported as left over.
    */
  method FetchWithMetadata(cursor: Cursor, maxRows: Option<int>)
    returns (rows: seq<Row>, rowCount: nat, hasMore: bool)
    requires maxRows.Some? ==> maxRows.value >= 0
    ensures rowCount == |rows|
    ensures maxRows.Some? && maxRows.value != 0 ==>
      hasMore == (|cursor.available| > maxRows.value) &&
      |rows| == Min(|cursor.available|, maxRows.value)
    ensures !(maxRows.Some? && maxRows.value != 0) ==> !hasMore && |rows| == |cursor.available|
    ensures |rows| <= |cursor.available|
    ensures forall i :: 0 <= i < |rows| ==> rows[i] == FromZip(cursor.description, cursor.available[i])
    ensures rows == Zipped(cursor, FetchedCount(cursor, maxRows))
  {
    var fetched: seq<seq<Cell>>;
    if maxRows.Some? && maxRows.value != 0 {
      fetched := FetchMany(cursor, maxRows.value + 1);
      hasMore := |fetched| > maxRows.value;
      if hasMore {
        fetched := fetched[..maxRows.value];
      }
    } else {
      fetched := cursor.available;
      hasMore := false;
    }
    assert fetched == cursor.available[..FetchedCount(cursor, maxRows)];
    rows := ZipRows(cursor.description, fetched);
    rowCount := |rows|;
  }
}
