/**
 * Statement layer of include/php/classes/Database.php: the statement text
 * that select / insert / update / count / delete send, the query wrapper
 * that records the last statement and turns driver errors into a
 * DatabaseException, and the process-wide instance created by init.
 */
module DatabaseLayer {
  import opened Wrappers
  import opened PhpStrings
  import opened SqlValues
  import opened SqlAttributes
  import opened SqlConditions
  import opened SqlClauses

  /** The exceptions the layer throws. */
  datatype DbError =
    | DatabaseException(message: string, query: Option<string>)
    | NotInitialized(message: string)
    | InvalidArgument(message: string)
    | ConnectionFailed(message: string, cause: string)

  /**
   * What the driver hands back for a statement that ran: the result handle,
   * reduced to the insert id and the integer value of the first column of
   * the first row.
   */
  datatype DriverResult = DriverResult(insertId: int, firstColumn: int)

  /** The driver's answer to one statement: its errno, its error text and its result. */
  datatype Reply = Reply(errno: int, error: string, result: DriverResult)

  /** The outcome of opening the connection. */
  datatype ConnectReply = Connected(escape: Escape) | Refused(reason: string)

  const NOT_INITIALIZED_MESSAGE := "Database must be initialized before using it (see Database::init)."
  const MISSING_PARAMETERS_MESSAGE := "Missing parameters for database initialization."
  const CONNECT_FAILED_MESSAGE := "Unable to connect to the database."

  /** What query returns or throws for a statement, given the driver's reply. */
  function Answer(sql: string, reply: Reply): Result<DriverResult, DbError>
  {
    if reply.errno != 0 then
      Failure(DatabaseException("There was an error running the query [" + reply.error + "]", Some(sql)))
    else
      Success(reply.result)
  }

  // ---------------------------------------------------------------- statements

  function Columns(values: seq<(string, Value)>): seq<Attr>
  {
    seq(|values|, j requires 0 <= j < |values| => Verbatim(values[j].0))
  }

  function Keys(values: seq<(string, Value)>): seq<string>
  {
    seq(|values|, j requires 0 <= j < |values| => values[j].0)
  }

  function ValuesOf(values: seq<(string, Value)>): seq<Value>
  {
    seq(|values|, j requires 0 <= j < |values| => values[j].1)
  }

  /** The SET part of update: one (attribute, '=', value) condition per pair. */
  function Assignments(values: seq<(string, Value)>): seq<Condition>
  {
    seq(|values|, j requires 0 <= j < |values| => Compare(values[j].0, "=", values[j].1))
  }

  function SelectSql(esc: Escape, table: string, conditions: ConditionInput, connector: string,
                     orderBy: Option<seq<OrderEntry>>, limit: Limit): string
  {
    "SELECT * FROM `" + table + "` " + WhereSql(esc, conditions, connector) + OrderBySql(orderBy) + LimitSql(limit)
  }

  function InsertSql(esc: Escape, table: string, values: seq<(string, Value)>): string
  {
    "INSERT INTO `" + table + "` (" + AttributeListSql(Columns(values)) + ") VALUES " + ValueListSql(esc, ValuesOf(values))
  }

  function UpdateSql(esc: Escape, table: string, values: seq<(string, Value)>,
                     conditions: ConditionInput, connector: string): string
  {
    "UPDATE `" + table + "` SET " + ConditionListSql(esc, Nested(Assignments(values)), ",")
      + " " + WhereSql(esc, conditions, connector)
  }

  function CountSql(esc: Escape, table: string, byAttribute: string, conditions: ConditionInput, connector: string): string
  {
    "SELECT COUNT(`" + byAttribute + "`) FROM `" + table + "` " + WhereSql(esc, conditions, connector)
  }

  function DeleteSql(esc: Escape, table: string, attribute: string, value: Value): string
  {
    "DELETE FROM `" + table + "` " + WhereSql(esc, Flat(Equals(attribute, value)), "AND")
  }

  // ---------------------------------------------------------------- configuration

  /** The first argument of init: null, a host name, or an array of settings. */
  datatype HostArg = NullHost | HostName(name: string) | Settings(settings: map<string, string>)

  datatype Config = Config(host: string, user: string, password: string, database: string)

  /** `isset($host[key]) ? $host[key] : fallback`, for a settings array. */
  function Setting(host: HostArg, key: string, fallback: Option<string>): Option<string>
  {
    if host.Settings? && key in host.settings then Some(host.settings[key]) else fallback
  }

  /**
   * The merge as written: without a 'host' key the settings array itself
   * stays in $host, passes the null check and is handed to the connection.
   */
  function MergeConfigAsWritten(host: HostArg, user: Option<string>, password: Option<string>, database: Option<string>)
    : Result<(HostArg, string, string, string), DbError>
  {
    var db := Setting(host, "database", database);
    var pw := Setting(host, "password", password);
    var us := Setting(host, "user", user);
    var h := if host.Settings? && "host" in host.settings then HostName(host.settings["host"]) else host;
    if h.NullHost? || us.None? || pw.None? || db.None? then Failure(InvalidArgument(MISSING_PARAMETERS_MESSAGE))
    else Success((h, us.value, pw.value, db.value))
  }

  /** The merge with a settings array that lacks 'host' counted as a missing host. */
  function MergeConfig(host: HostArg, user: Option<string>, password: Option<string>, database: Option<string>)
    : Result<Config, DbError>
  {
    var db := Setting(host, "database", database);
    var pw := Setting(host, "password", password);
    var us := Setting(host, "user", user);
    var h := match host
      case NullHost => None
      case HostName(n) => Some(n)
      case Settings(m) => if "host" in m then Some(m["host"]) else None;
    if h.None? || us.None? || pw.None? || db.None? then Failure(InvalidArgument(MISSING_PARAMETERS_MESSAGE))
    else Success(Config(h.value, us.value, pw.value, db.value))
  }

  // ---------------------------------------------------------------- the connection

  class Database {
    /** The database name. */
    const config: string
    /** The connection's real_escape_string. */
    const escape: Escape
    var lastQuery: Option<string>
    /** The statements handed to the driver so far. */
    ghost var sent: seq<string>

    constructor (database: string, escape: Escape)
      ensures config == database && this.escape == escape
      ensures lastQuery == None && sent == []
    {
      config := database;
      this.escape := escape;
      lastQuery := None;
      sent := [];
    }

    /** query: records the statement, then runs it; a non-zero errno becomes a DatabaseException. */
    method Query(sql: string, reply: Reply) returns (r: Result<DriverResult, DbError>)
      modifies this
      ensures lastQuery == Some(sql) && sent == old(sent) + [sql]
      ensures r == Answer(sql, reply)
    {
      lastQuery := Some(sql);
      sent := sent + [sql];
      if reply.errno != 0 {
        var ex := DatabaseException("There was an error running the query [" + reply.error + "]", None);
        if lastQuery.Some? {
          ex := ex.(query := lastQuery);
        }
        return Failure(ex);
      }
      return Success(reply.result);
    }

    method Select(table: string, conditions: ConditionInput, connector: string,
                  orderBy: Option<seq<OrderEntry>>, limit: Limit, reply: Reply)
      returns (r: Result<DriverResult, DbError>)
      modifies this
      ensures var sql := SelectSql(escape, table, conditions, connector, orderBy, limit);
        lastQuery == Some(sql) && sent == old(sent) + [sql] && r == Answer(sql, reply)
    {
      var where := HelperWhere(escape, conditions, connector);
      var order := HelperOrderBy(orderBy);
      r := Query("SELECT * FROM `" + table + "` " + where + order + LimitSql(limit), reply);
    }

    /** insert: nothing is sent for an empty array; otherwise the new row's id. */
    method Insert(table: string, values: seq<(string, Value)>, reply: Reply)
      returns (r: Result<Option<int>, DbError>)
      modifies this
      ensures values == [] ==> r == Success(None) && lastQuery == old(lastQuery) && sent == old(sent)
      ensures values != [] ==>
        var sql := InsertSql(escape, table, values);
        && lastQuery == Some(sql) && sent == old(sent) + [sql]
        && r == match Answer(sql, reply)
             case Success(res) => Success(Some(res.insertId))
             case Failure(e) => Failure(e)
    {
      if |values| == 0 {
        return Success(None);
      }
      var columns := HelperAttributeList(Columns(values));
      var list := HelperValueList(escape, ValuesOf(values));
      var res := Query("INSERT INTO `" + table + "` (" + columns + ") VALUES " + list, reply);
      match res
      case Success(driverResult) => r := Success(Some(driverResult.insertId));
      case Failure(e) => r := Failure(e);
    }

    /** update: nothing is sent for an empty array. */
    method Update(table: string, values: seq<(string, Value)>, conditions: ConditionInput, connector: string, reply: Reply)
      returns (r: Option<DbError>)
      modifies this
      ensures values == [] ==> r == None && lastQuery == old(lastQuery) && sent == old(sent)
      ensures values != [] ==>
        var sql := UpdateSql(escape, table, values, conditions, connector);
        && lastQuery == Some(sql) && sent == old(sent) + [sql]
        && r == if reply.errno != 0 then Some(Answer(sql, reply).error) else None
    {
      if |values| == 0 {
        return None;
      }
      var sqlValues: seq<Condition> := [];
      for k := 0 to |values|
        invariant |sqlValues| == k
        invariant forall j :: 0 <= j < k ==> sqlValues[j] == Compare(values[j].0, "=", values[j].1)
      {
        sqlValues := sqlValues + [Compare(values[k].0, "=", values[k].1)];
      }
      assert sqlValues == Assignments(values);
      var setClause := HelperConditionList(escape, Nested(sqlValues), ",");
      var where := HelperWhere(escape, conditions, connector);
      var res := Query("UPDATE `" + table + "` SET " + setClause + " " + where, reply);
      r := if res.Failure? then Some(res.error) else None;
    }

    /** count: the integer in the first column of the first row. */
    method Count(table: string, byAttribute: string, conditions: ConditionInput, connector: string, reply: Reply)
      returns (r: Result<int, DbError>)
      modifies this
      ensures var sql := CountSql(escape, table, byAttribute, conditions, connector);
        && lastQuery == Some(sql) && sent == old(sent) + [sql]
        && r == match Answer(sql, reply)
             case Success(res) => Success(res.firstColumn)
             case Failure(e) => Failure(e)
    {
      var where := HelperWhere(escape, conditions, connector);
      var res := Query("SELECT COUNT(`" + byAttribute + "`) FROM `" + table + "` " + where, reply);
      match res
      case Success(driverResult) => r := Success(driverResult.firstColumn);
      case Failure(e) => r := Failure(e);
    }

    /** delete: always a single equality condition. */
    method Delete(table: string, attribute: string, value: Value, reply: Reply)
      returns (r: Option<DbError>)
      modifies this
      ensures var sql := DeleteSql(escape, table, attribute, value);
        && lastQuery == Some(sql) && sent == old(sent) + [sql]
        && r == if reply.errno != 0 then Some(Answer(sql, reply).error) else None
    {
      var where := HelperWhere(escape, Flat(Equals(attribute, value)), "AND");
      var res := Query("DELETE FROM `" + table + "` " + where, reply);
      r := if res.Failure? then Some(res.error) else None;
    }
  }

  /** The static `$instance` slot of the Database class: unset until init succeeds. */
  class Registry {
    var instance: Database?

    constructor ()
      ensures instance == null
    {
      instance := null;
    }

    predicate IsInitialized()
      reads this
    {
      instance != null
    }

    /** getInstance */
    method GetInstance() returns (r: Result<Database, DbError>)
      ensures !IsInitialized() ==> r == Failure(NotInitialized(NOT_INITIALIZED_MESSAGE))
      ensures IsInitialized() ==> r.Success? && r.value == instance
    {
      if !IsInitialized() {
        return Failure(NotInitialized(NOT_INITIALIZED_MESSAGE));
      }
      return Success(instance);
    }

    /**
     * init: a no-op once initialized; otherwise merges the arguments, rejects
     * missing ones, connects, and only on success sets the instance.
     */
    method Init(host: HostArg, user: Option<string>, password: Option<string>, database: Option<string>,
                connect: ConnectReply)
      returns (r: Option<DbError>)
      modifies this
      ensures old(IsInitialized()) ==> instance == old(instance) && r == None
      ensures !old(IsInitialized()) && MergeConfig(host, user, password, database).Failure? ==>
        !IsInitialized() && r == Some(MergeConfig(host, user, password, database).error)
      ensures !old(IsInitialized()) && MergeConfig(host, user, password, database).Success? && connect.Refused? ==>
        !IsInitialized() && r == Some(ConnectionFailed(CONNECT_FAILED_MESSAGE, connect.reason))
      ensures !old(IsInitialized()) && MergeConfig(host, user, password, database).Success? && connect.Connected? ==>
        && r == None && IsInitialized() && fresh(instance)
        && instance.config == MergeConfig(host, user, password, database).value.database
        && instance.escape == connect.escape
        && instance.lastQuery == None && instance.sent == []
    {
      if IsInitialized() {
        return None;
      }
      var merged := MergeConfig(host, user, password, database);
      if merged.Failure? {
        return Some(merged.error);
      }
      match connect
      case Refused(reason) =>
        return Some(ConnectionFailed(CONNECT_FAILED_MESSAGE, reason));
      case Connected(esc) =>
        var db := new Database(merged.value.database, esc);
        instance := db;
        return None;
    }
  }

  // ---------------------------------------------------------------- properties

  /** query throws exactly on a non-zero errno, and the exception carries the driver's text and the statement. */
  lemma AnswerFailure(sql: string, reply: Reply)
    ensures Answer(sql, reply).Failure? <==> reply.errno != 0
    ensures reply.errno != 0 ==>
      && Answer(sql, reply).error.DatabaseException?
      && Answer(sql, reply).error.query == Some(sql)
      && Answer(sql, reply).error.message == "There was an error running the query [" + reply.error + "]"
    ensures reply.errno == 0 ==> Answer(sql, reply) == Success(reply.result)
  {
  }

  /** insert names the columns verbatim and lists the values in parentheses, in order. */
  lemma InsertStatement(esc: Escape, table: string, values: seq<(string, Value)>)
    ensures InsertSql(esc, table, values)
      == "INSERT INTO `" + table + "` (" + Join(Keys(values), ", ") + ") VALUES ("
         + Join(ItemsSql(esc, ValuesOf(values)), ", ") + ")"
  {
    var keys := Keys(values);
    var attrs := seq(|keys|, j requires 0 <= j < |keys| => Verbatim(keys[j]));
    assert attrs == Columns(values);
    VerbatimList(keys);
  }

  /** The SET part of update is the comma-joined list of `col` = value, in input order. */
  lemma UpdateSetClause(esc: Escape, values: seq<(string, Value)>)
    ensures ConditionListSql(esc, Nested(Assignments(values)), ",")
      == Join(seq(|values|, j requires 0 <= j < |values| => "`" + values[j].0 + "` = " + ValueSql(esc, values[j].1)), ", ")
  {
    var cs := Assignments(values);
    var expected := seq(|values|, j requires 0 <= j < |values| => "`" + values[j].0 + "` = " + ValueSql(esc, values[j].1));
    FragmentsAllSupported(esc, cs);
    UpperFixed("=");
    forall j | 0 <= j < |values|
      ensures Fragments(esc, cs)[j] == expected[j]
    {
      AssignmentText(esc, values[j].0, values[j].1);
      assert Some(Fragments(esc, cs)[j]) == ConditionSql(esc, cs[j]);
    }
    assert Fragments(esc, cs) == expected;
    assert Upper(",") == ",";
    assert ConnectorSql(",") == ", ";
    assert ConditionListSql(esc, Nested(cs), ",") == Join(Fragments(esc, cs), ", ");
  }

  /** One SET entry: `attr` = value. */
  lemma AssignmentText(esc: Escape, attr: string, v: Value)
    requires Upper("=") == "="
    ensures ConditionSql(esc, Compare(attr, "=", v)) == Some("`" + attr + "` = " + ValueSql(esc, v))
  {
    assert "`" + attr + "` " + "=" + " " + ValueSql(esc, v) == "`" + attr + "` = " + ValueSql(esc, v);
  }

  /** delete always issues the single equality WHERE `attr` = value (after the format's own space). */
  lemma DeleteStatement(esc: Escape, table: string, attribute: string, value: Value)
    ensures DeleteSql(esc, table, attribute, value)
      == "DELETE FROM `" + table + "`  WHERE `" + attribute + "` = " + ValueSql(esc, value)
  {
    FlatIsSingleton(esc, Equals(attribute, value), "AND");
  }

  /** select: a WHERE clause follows the format's own space, so two spaces precede WHERE. */
  lemma SelectWhereAfterDoubleSpace(esc: Escape, table: string, conditions: ConditionInput, connector: string,
                                    orderBy: Option<seq<OrderEntry>>, limit: Limit)
    requires !IsEmptyInput(conditions)
    ensures SelectSql(esc, table, conditions, connector, orderBy, limit)
      == "SELECT * FROM `" + table + "`  WHERE " + ConditionListSql(esc, conditions, connector)
         + OrderBySql(orderBy) + LimitSql(limit)
  {
    WhereEmptyIff(esc, conditions, connector);
    SelectText(table, ConditionListSql(esc, conditions, connector), OrderBySql(orderBy), LimitSql(limit));
  }

  lemma SelectText(table: string, w: string, order: string, limit: string)
    ensures "SELECT * FROM `" + table + "` " + (" WHERE " + w) + order + limit
      == "SELECT * FROM `" + table + "`  WHERE " + w + order + limit
  {
    assert "` " + " WHERE " == "`  WHERE ";
    assert "SELECT * FROM `" + table + "` " + (" WHERE " + w) + order + limit
      == "SELECT * FROM `" + table + ("` " + " WHERE ") + w + order + limit;
  }

  /** count: the same double space before WHERE. */
  lemma CountWhereAfterDoubleSpace(esc: Escape, table: string, attr: string, conditions: ConditionInput, connector: string)
    requires !IsEmptyInput(conditions)
    ensures CountSql(esc, table, attr, conditions, connector)
      == "SELECT COUNT(`" + attr + "`) FROM `" + table + "`  WHERE " + ConditionListSql(esc, conditions, connector)
  {
    var w := ConditionListSql(esc, conditions, connector);
    assert WhereSql(esc, conditions, connector) == " WHERE " + w;
    assert "` " + " WHERE " == "`  WHERE ";
    assert CountSql(esc, table, attr, conditions, connector)
      == "SELECT COUNT(`" + attr + "`) FROM `" + table + ("` " + " WHERE ") + w;
  }

  /** select with no conditions, order or limit is the bare statement with its trailing space. */
  lemma SelectWithoutClauses(esc: Escape, table: string, connector: string)
    ensures SelectSql(esc, table, Nested([]), connector, None, Count(0)) == "SELECT * FROM `" + table + "` "
  {
  }

  /** Array keys override the positional arguments. */
  lemma SettingsOverride(m: map<string, string>, user: Option<string>, password: Option<string>, database: Option<string>)
    requires "host" in m && "user" in m && "password" in m && "database" in m
    ensures MergeConfig(Settings(m), user, password, database)
      == Success(Config(m["host"], m["user"], m["password"], m["database"]))
  {
  }

  /**
   * Each key of a settings array overrides its positional argument, and
   * each absent key falls back to it.
   */
  lemma SettingsPerKey(m: map<string, string>, user: Option<string>, password: Option<string>, database: Option<string>)
    requires "host" in m && MergeConfig(Settings(m), user, password, database).Success?
    ensures var c := MergeConfig(Settings(m), user, password, database).value;
      && c.host == m["host"]
      && c.user == (if "user" in m then m["user"] else user.value)
      && c.password == (if "password" in m then m["password"] else password.value)
      && c.database == (if "database" in m then m["database"] else database.value)
  {
  }

  /** A settings array holding only the host takes the rest from the positional arguments. */
  lemma PositionalFallback()
    ensures MergeConfig(Settings(map["host" := "h"]), Some("u"), Some("p"), Some("d"))
      == Success(Config("h", "u", "p", "d"))
  {
    var m := map["host" := "h"];
    assert "user" !in m && "password" !in m && "database" !in m;
  }

  /** init rejects the arguments exactly when one of the four settings is missing after the merge. */
  lemma MergeMissingIff(host: HostArg, user: Option<string>, password: Option<string>, database: Option<string>)
    ensures MergeConfig(host, user, password, database).Failure? <==>
      || host.NullHost?
      || (host.Settings? && "host" !in host.settings)
      || Setting(host, "user", user).None?
      || Setting(host, "password", password).None?
      || Setting(host, "database", database).None?
    ensures MergeConfig(host, user, password, database).Failure? ==>
      MergeConfig(host, user, password, database).error == InvalidArgument(MISSING_PARAMETERS_MESSAGE)
  {
  }

  /** As written, a settings array without 'host' is not rejected: the array itself becomes the host. */
  lemma MissingHostKeyAsWritten(m: map<string, string>)
    requires m == map["user" := "u", "password" := "p", "database" := "d"]
    ensures MergeConfigAsWritten(Settings(m), None, None, None) == Success((Settings(m), "u", "p", "d"))
    ensures MergeConfig(Settings(m), None, None, None) == Failure(InvalidArgument(MISSING_PARAMETERS_MESSAGE))
  {
    assert "host" !in m;
  }

  /** The two merges agree whenever the settings array, if any, has a 'host' key. */
  lemma MergeAgreesWithAsWritten(host: HostArg, user: Option<string>, password: Option<string>, database: Option<string>)
    requires host.Settings? ==> "host" in host.settings
    ensures MergeConfig(host, user, password, database).Success?
      <==> MergeConfigAsWritten(host, user, password, database).Success?
    ensures MergeConfig(host, user, password, database).Success? ==>
      var c := MergeConfig(host, user, password, database).value;
      MergeConfigAsWritten(host, user, password, database).value == (HostName(c.host), c.user, c.password, c.database)
  {
  }
}
