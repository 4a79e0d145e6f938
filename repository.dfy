/** `BaseRepository`: a connection per call to the MySQL server named by a
    `DatabaseConfig`, `execute` for statements without a result set,
    `executeQuery` for queries, and `getById`, which builds a SELECT from an
    entity's metadata and hydrates the first row.

    The MySQL Connector/C++ driver is the value `Driver`: whether it accepts
    a login, what `executeUpdate` reports for a statement, and what
    `executeQuery` delivers for a query. Every `sql::SQLException` the
    repository catches is an error reply. The template `getById` is written
    out once for each of the two entities. */
module Repository {
  import opened Wrappers
  import opened Numbers
  import opened Entities
  import opened Config
  import opened Samples

  /** What `createConnection` passes to the driver: the URL, the
      credentials, and the schema chosen with `setSchema`. */
  datatype Login = Login(url: string, user: string, password: string, schema: string)

  /** An open connection, made with `login`. */
  datatype Connection = Connection(login: Login)

  /** The outcome of `executeUpdate`: an exception, or the count of affected
      rows. */
  datatype UpdateReply = UpdateError | Affected(count: nat)

  /** The outcome of `executeQuery` on a statement: an exception before any
      row, or a result set with `columns` columns and the records that
      `next()` delivered before the end or before an exception. A record
      answers `getString(k)` for the 1-based column `k`. */
  datatype QueryReply = QueryError | Cursor(columns: nat, records: seq<nat -> string>)

  datatype Driver = Driver(
    accepts: Login -> bool,
    update: (Login, string) -> UpdateReply,
    query: (Login, string) -> QueryReply)

  /** Cells 1 to `n` of a record, in order. */
  function Cells(record: nat -> string, n: nat): (r: Row)
    ensures |r| == n && forall k :: 0 <= k < n ==> r[k] == record(k + 1)
  {
    if n == 0 then [] else Cells(record, n - 1) + [record(n)]
  }

  /** The data set of a result set: every record as its `columns` cells. */
  function Table(records: seq<nat -> string>, columns: nat): (r: DataSet)
    ensures |r| == |records|
    ensures forall i :: 0 <= i < |r| ==> r[i] == Cells(records[i], columns)
  {
    if records == [] then []
    else Table(records[..|records| - 1], columns) + [Cells(records[|records| - 1], columns)]
  }

  /** The column list of a SELECT: the names separated by ", ". */
  function Join(columns: seq<string>): string
  {
    if |columns| == 0 then ""
    else if |columns| == 1 then columns[0]
    else Join(columns[..|columns| - 1]) + ", " + columns[|columns| - 1]
  }

  /** The statement `getById` sends for an entity's select columns, its
      table and an id. */
  function SelectByIdSql(columns: seq<string>, table: string, id: Int64): string
  {
    "SELECT " + Join(columns) + " FROM " + table + " WHERE id = " + IntToDecimal(id) + ";"
  }

  /** Joining two non-empty lists joins their joins. */
  lemma {:induction false} JoinAppend(a: seq<string>, b: seq<string>)
    requires a != [] && b != []
    ensures Join(a + b) == Join(a) + ", " + Join(b)
    decreases |b|
  {
    var ab := a + b;
    if |b| == 1 {
      assert ab[..|ab| - 1] == a;
    } else {
      var init := b[..|b| - 1];
      assert ab[..|ab| - 1] == a + init;
      JoinAppend(a, init);
    }
  }

  /** The select list of one column is that column, and a longer one ends
      with its last column after a separator. */
  lemma JoinEndsWithLast(columns: seq<string>)
    requires columns != []
    ensures var j := Join(columns); var last := columns[|columns| - 1];
      |j| >= |last| && j[|j| - |last|..] == last
      && (|columns| > 1 ==> j[..|j| - |last|] == Join(columns[..|columns| - 1]) + ", ")
  {
  }

  /** Appending one column to a non-empty list adds a separator and the
      column. */
  lemma JoinSnoc(columns: seq<string>, i: nat)
    requires 0 < i < |columns|
    ensures Join(columns[..i + 1]) == Join(columns[..i]) + ", " + columns[i]
  {
    assert columns[..i + 1][..i] == columns[..i];
  }

  /** The join of five columns, as both entities select them: the names
      with ", " between them. */
  lemma JoinFive(a: string, b: string, c: string, d: string, e: string)
    ensures Join([a, b, c, d, e]) == a + ", " + b + ", " + c + ", " + d + ", " + e
  {
    var s := [a, b, c, d, e];
    assert s[..1] == [a];
    JoinSnoc(s, 1);
    JoinSnoc(s, 2);
    JoinSnoc(s, 3);
    JoinSnoc(s, 4);
    assert s[..5] == s;
  }

  /** What `getById`'s loop has written after the first `i` columns: their
      join, and a separator unless none or all have been written. */
  function SelectListPrefix(columns: seq<string>, i: nat): string
    requires i <= |columns|
  {
    Join(columns[..i]) + (if 0 < i < |columns| then ", " else "")
  }

  /** One turn of the loop appends the next column, and a separator unless
      it is the last. */
  lemma SelectListStep(columns: seq<string>, i: nat)
    requires i < |columns|
    ensures SelectListPrefix(columns, i + 1)
      == SelectListPrefix(columns, i) + columns[i] + (if i < |columns| - 1 then ", " else "")
  {
    if i == 0 {
      assert columns[..1] == [columns[0]];
    } else {
      JoinSnoc(columns, i);
    }
  }

  /** `getById`'s loop: each name, and ", " after every name but the last;
      then table and id. */
  method BuildSelectById(columns: seq<string>, table: string, id: Int64) returns (sql: string)
    ensures sql == SelectByIdSql(columns, table, id)
  {
    sql := "SELECT ";
    var i := 0;
    assert columns[..0] == [];
    while i < |columns|
      invariant 0 <= i <= |columns|
      invariant sql == "SELECT " + SelectListPrefix(columns, i)
    {
      SelectListStep(columns, i);
      sql := sql + columns[i];
      if i < |columns| - 1 {
        sql := sql + ", ";
      }
      i := i + 1;
    }
    assert columns[..|columns|] == columns;
    sql := sql + " FROM " + table + " WHERE id = " + IntToDecimal(id) + ";";
  }

  class Repository {
    const driver: Driver
    const host: string
    const user: string
    const password: string
    const database: string
    const port: string

    /** The credentials are copied from the configuration. */
    constructor (config: DatabaseConfig, driver: Driver)
      ensures this.driver == driver
      ensures host == config.host && user == config.user && password == config.password
      ensures database == config.database && port == config.port
    {
      this.driver := driver;
      host := config.host;
      user := config.user;
      password := config.password;
      database := config.database;
      port := config.port;
    }

    /** The login `createConnection` tries: "tcp://host:port", the user and
        password, and the database as schema. */
    function ServerLogin(): Login
    {
      Login("tcp://" + host + ":" + port, user, password, database)
    }

    /** `createConnection`: a connection to the configured server, or none
        (`nullptr`) when connecting or selecting the schema fails. */
    function Connect(): (c: Option<Connection>)
      ensures c.Some? <==> driver.accepts(ServerLogin())
      ensures c.Some? ==> c.value.login.url == "tcp://" + host + ":" + port && c.value.login.schema == database
    {
      if driver.accepts(ServerLogin()) then Some(Connection(ServerLogin())) else None
    }

    /** `execute`: the number of affected rows, or -1 when no connection is
        made or the statement throws. */
    method Execute(sql: string) returns (affected: int)
      ensures affected >= -1
      ensures affected == -1 <==> Connect().None? || driver.update(ServerLogin(), sql).UpdateError?
      ensures affected != -1 ==> affected == driver.update(ServerLogin(), sql).count
    {
      var con := Connect();
      if con.None? {
        return -1;
      }
      var reply := driver.update(con.value.login, sql);
      match reply
      case UpdateError =>
        return -1;
      case Affected(count) =>
        return count;
    }

    /** What `executeQuery` returns for a statement: the rows of the result
        set, each with as many cells as the result set has columns; no rows
        when no connection is made or the query throws. */
    function QueryRows(sql: string): DataSet
    {
      match Connect()
      case None => []
      case Some(con) =>
        match driver.query(con.login, sql)
        case QueryError => []
        case Cursor(columns, records) => Table(records, columns)
    }

    /** `executeQuery`: the `next()` loop, which appends one row per
        record. */
    method ExecuteQuery(sql: string) returns (results: DataSet)
      ensures results == QueryRows(sql)
    {
      results := [];
      var con := Connect();
      if con.None? {
        return;
      }
      var reply := driver.query(con.value.login, sql);
      if reply.QueryError? {
        return;
      }
      var numColumns := reply.columns;
      var records := reply.records;
      var r := 0;
      while r < |records|
        invariant 0 <= r <= |records|
        invariant results == Table(records[..r], numColumns)
      {
        var rowData := FetchRow(records[r], numColumns);
        assert records[..r + 1][..r] == records[..r];
        results := results + [rowData];
        r := r + 1;
      }
      assert records[..|records|] == records;
    }

    /** The inner loop of `executeQuery`: `getString(1)` to
        `getString(numColumns)` of the current record, in order. */
    method FetchRow(record: nat -> string, numColumns: nat) returns (rowData: Row)
      ensures rowData == Cells(record, numColumns)
    {
      rowData := [];
      var i := 1;
      while i <= numColumns
        invariant 1 <= i <= numColumns + 1
        invariant rowData == Cells(record, i - 1)
      {
        rowData := rowData + [record(i)];
        i := i + 1;
      }
    }

    /** `getById` for products: null when the query yields no row or the
        first row does not hydrate; otherwise a new product filled from the
        first row, created and updated "now". The metadata are static here,
        so the temporary instance that reads them is not needed. */
    method GetProductById(id: Int64, now: string, parsePrice: string -> Option<real>) returns (product: Product?)
      ensures var results := QueryRows(SelectByIdSql(Product.ColumnsForSelect(), Product.TableName(), id));
        && (product == null <==> results == [] || !ProductRowFits(results[0], parsePrice))
        && (product != null ==>
              && fresh(product) && fresh(product.entity)
              && product.entity.id == ParseLongLong(results[0][0]).value
              && product.name == results[0][1]
              && product.price == parsePrice(results[0][2]).value
              && product.entity.createdAt == now && product.entity.updatedAt == now)
    {
      var tableName := Product.TableName();
      var sql := BuildSelectById(Product.ColumnsForSelect(), tableName, id);
      var results := ExecuteQuery(sql);
      if results == [] {
        return null;
      }
      var entity := new Product(now);
      var ok := entity.FillFromRow(results[0], parsePrice);
      if !ok {
        return null;
      }
      return entity;
    }

    /** `getById` for users: null when the query yields no row or the first
        row does not hydrate; otherwise a new user holding what the first
        row holds, created and updated "now". The metadata are read as in
        `GetProductById`. */
    method GetUserById(id: Int64, now: string) returns (user: User?)
      ensures var results := QueryRows(SelectByIdSql(User.ColumnsForSelect(), User.TableName(), id));
        && (user == null <==> results == [] || HydrateUser(results[0]).None?)
        && (user != null ==>
              && fresh(user) && fresh(user.entity)
              && HydrateUser(results[0]) == Some(UserFields(user.entity.id, user.username, user.email))
              && user.entity.createdAt == now && user.entity.updatedAt == now)
    {
      var tableName := User.TableName();
      var sql := BuildSelectById(User.ColumnsForSelect(), tableName, id);
      var results := ExecuteQuery(sql);
      if results == [] {
        return null;
      }
      var entity := new User(now);
      var ok := entity.FillFromRow(results[0]);
      if !ok {
        return null;
      }
      return entity;
    }

    /** A failed connection reads as an empty result, the same as a query
        that finds nothing. */
    lemma NoConnectionNoRows(sql: string)
      requires !driver.accepts(ServerLogin())
      ensures QueryRows(sql) == []
    {
    }

    /** A user that the server returns as the first row of its lookup, with
        the id rendered as text, comes back with that id and those fields. */
    lemma StoredUserReadsBack(id: Int64, username: string, email: string, createdAt: string, updatedAt: string)
      requires driver.accepts(ServerLogin())
      requires var record := driver.query(ServerLogin(), SelectByIdSql(User.ColumnsForSelect(), User.TableName(), id));
        && record.Cursor? && record.columns == RowCells && |record.records| > 0
        && Cells(record.records[0], RowCells) == UserRow(id, username, email, createdAt, updatedAt)
      ensures var results := QueryRows(SelectByIdSql(User.ColumnsForSelect(), User.TableName(), id));
        results != [] && HydrateUser(results[0]) == Some(UserFields(id, username, email))
    {
      UserRowReadsBack(id, username, email, createdAt, updatedAt);
    }
  }
}
