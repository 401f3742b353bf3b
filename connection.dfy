/**
 * The connections of pkg/dvdbdata/connection.go: a connection is defined by the
 * property DB_CONNECTION_<name> as "<sql name>,<connection string>", and closed
 * connections go back to a bounded per-name pool that hands them out again last in,
 * first out. Opening and closing a database are not modelled beyond whether a handle
 * is still open; the locks are left out and the pool is modelled sequentially.
 */
module DvDbData {
  import opened Wrappers
  import opened Text

  /** How many idle connections a pool keeps. */
  const MaxConnections: nat := 20

  /** Kind masks of the sql drivers (placeholder values). */
  const SqlOracleLike: int := 1
  const SqlPostgresLike: int := 2

  /** A property map lookup: a missing key reads as the empty string. */
  function Lookup(props: map<string, string>, key: string): (v: string)
    ensures key in props ==> v == props[key]
    ensures key !in props ==> v == ""
  {
    if key in props then props[key] else ""
  }

  /** The property that defines connection `connName`. */
  function ConnectionProperty(connName: string): string {
    "DB_CONNECTION_" + connName
  }

  /** The two parts of a connection definition. */
  datatype ConnectionSpec = ConnectionSpec(SqlName: string, Conn: string)

  /** The errors of GetDBConnectionDirect; Message gives the text each is reported with. */
  datatype ConnectionError =
    | MissingDefinition(param: string, connName: string)
    | MalformedDefinition(param: string)
    | OpenFailed(cause: string, connName: string, connParams: string)

  function Message(e: ConnectionError): string {
    match e
    case MissingDefinition(param, connName) => param + " expected as the definition for connection " + connName
    case MalformedDefinition(param) => param + " must be <sql name>,<connection string>"
    case OpenFailed(cause, connName, connParams) => cause + " for " + connName + "(" + connParams + ")"
  }

  /**
   * The parsing of GetDBConnectionDirect: the definition must be present, its first
   * comma must not be the first character, and both parts must be non-blank; the parts
   * are trimmed.
   */
  function ParseConnection(connName: string, connParams: string): (r: Result<ConnectionSpec, ConnectionError>)
    ensures |connParams| == 0 ==> r == Failure(MissingDefinition(ConnectionProperty(connName), connName))
    ensures r.Success? <==>
      var p := IndexChar(connParams, ',');
      p > 0 && !AllSpace(connParams[..p]) && !AllSpace(connParams[p + 1..])
    ensures |connParams| > 0 && r.Failure? ==> r.error == MalformedDefinition(ConnectionProperty(connName))
    ensures r.Success? ==>
      var p := IndexChar(connParams, ',');
      r.value.SqlName == TrimSpace(connParams[..p]) && r.value.Conn == TrimSpace(connParams[p + 1..])
  {
    var param := ConnectionProperty(connName);
    if |connParams| == 0 then Failure(MissingDefinition(param, connName))
    else
      var p := IndexChar(connParams, ',');
      var sqlName := if p > 0 then TrimSpace(connParams[..p]) else "";
      var conn := if p > 0 then TrimSpace(connParams[p + 1..]) else "";
      if |sqlName| == 0 || |conn| == 0 then Failure(MalformedDefinition(param))
      else Success(ConnectionSpec(sqlName, conn))
  }

  /** A well-formed definition parses back into its parts. */
  lemma ParseOfDefinition(connName: string, sqlName: string, conn: string)
    requires |sqlName| > 0 && ',' !in sqlName && !IsSpace(sqlName[0]) && !IsSpace(sqlName[|sqlName| - 1])
    requires |conn| > 0 && !IsSpace(conn[0]) && !IsSpace(conn[|conn| - 1])
    ensures ParseConnection(connName, sqlName + "," + conn) == Success(ConnectionSpec(sqlName, conn))
  {
    var s := sqlName + "," + conn;
    assert s[..|sqlName|] == sqlName;
    IndexCharAt(s, ',', |sqlName|);
    var p := IndexChar(s, ',');
    assert s[p + 1..] == conn;
    TrimSpaceOfTrimmed(sqlName);
    TrimSpaceOfTrimmed(conn);
  }

  /** GetConnectionKindMask: the kind mask of a driver name; unknown drivers have none. */
  function GetConnectionKindMask(kind: string): (r: int)
    ensures r == SqlOracleLike <==> kind == "oracle"
    ensures r == SqlPostgresLike <==> kind == "postgres"
    ensures r == 0 <==> kind != "oracle" && kind != "postgres"
  {
    if kind == "oracle" then SqlOracleLike
    else if kind == "postgres" then SqlPostgresLike
    else 0
  }

  /**
   * GetConnectionType: the kind mask of the driver named by property `connName`,
   * the trimmed text before its first comma when that comma is not the first character.
   */
  function GetConnectionType(props: map<string, string>, connName: string): int {
    var sqlName := Lookup(props, connName);
    var p := IndexChar(sqlName, ',');
    GetConnectionKindMask(if p > 0 then TrimSpace(sqlName[..p]) else sqlName)
  }

  /** For a property holding a valid definition, the type is the kind mask of its sql name. */
  lemma ConnectionTypeOfDefinition(props: map<string, string>, connName: string, name: string)
    requires ParseConnection(name, Lookup(props, connName)).Success?
    ensures GetConnectionType(props, connName) == GetConnectionKindMask(ParseConnection(name, Lookup(props, connName)).value.SqlName)
  {
  }

  /** A property without a comma is taken whole, untrimmed, as the driver name. */
  lemma ConnectionTypeWithoutComma(props: map<string, string>, connName: string)
    requires ',' !in Lookup(props, connName)
    ensures GetConnectionType(props, connName) == GetConnectionKindMask(Lookup(props, connName))
  {
  }

  /** The first comma decides: before it, trimmed, is the driver name; a comma in first place leaves the property whole and untrimmed. */
  lemma ConnectionTypeAtFirstComma(props: map<string, string>, connName: string, p: nat)
    requires var s := Lookup(props, connName); p < |s| && s[p] == ',' && ',' !in s[..p]
    ensures var s := Lookup(props, connName);
      GetConnectionType(props, connName) == GetConnectionKindMask(if p == 0 then s else TrimSpace(s[..p]))
  {
    IndexCharAt(Lookup(props, connName), ',', p);
  }

  /** The global property map, updated in place by a direct connection. */
  class Properties {
    var values: map<string, string>

    constructor (values: map<string, string>)
      ensures this.values == values
    {
      this.values := values;
    }
  }

  /** An sql.DB handle: only whether it has been closed is modelled. */
  class SqlDb {
    var Closed: bool

    constructor ()
      ensures !Closed
    {
      Closed := false;
    }

    method Close()
      modifies this
      ensures Closed
    {
      Closed := true;
    }
  }

  /** A DBConnection: the handle (nil once closed), its driver, its name and its kind mask. */
  class DBConnection {
    var Db: SqlDb?
    var Kind: string
    var Name: string
    var KindMask: int

    constructor (db: SqlDb?, kind: string, name: string)
      ensures Db == db && Kind == ToLower(kind) && Name == name && KindMask == GetConnectionKindMask(ToLower(kind))
    {
      var lower := ToLower(kind);
      Db, Kind, Name, KindMask := db, lower, name, GetConnectionKindMask(lower);
    }
  }

  /** What a direct connection comes to: the parsed definition, unless it is malformed or sql.Open fails. */
  function OpenOutcome(connName: string, connParams: string, openError: (string, string) -> Option<string>): (r: Result<ConnectionSpec, ConnectionError>)
    ensures ParseConnection(connName, connParams).Failure? ==> r == ParseConnection(connName, connParams)
    ensures r.Success? ==> ParseConnection(connName, connParams) == r && openError(r.value.SqlName, r.value.Conn).None?
    ensures ParseConnection(connName, connParams).Success? && r.Failure? ==>
      var spec := ParseConnection(connName, connParams).value;
      openError(spec.SqlName, spec.Conn).Some? && r.error == OpenFailed(openError(spec.SqlName, spec.Conn).value, connName, connParams)
  {
    match ParseConnection(connName, connParams)
    case Failure(e) => Failure(e)
    case Success(spec) =>
      var e := openError(spec.SqlName, spec.Conn);
      if e.Some? then Failure(OpenFailed(e.value, connName, connParams)) else Success(spec)
  }

  /**
   * GetDBConnectionDirect: parses the definition, opens the database, where
   * `openError(sqlName, conn)` is the error sql.Open gives, if any, and on success
   * records the driver under `defaultKindPrefix + connName` in the properties.
   */
  method GetDBConnectionDirect(props: Properties, connName: string, defaultKindPrefix: string,
                               openError: (string, string) -> Option<string>)
    returns (db: SqlDb?, kind: string, err: Option<ConnectionError>)
    modifies props
    ensures var connParams := Lookup(old(props.values), ConnectionProperty(connName));
      match OpenOutcome(connName, connParams, openError)
      case Failure(e) =>
        db == null && kind == "" && err == Some(e) && props.values == old(props.values)
      case Success(spec) =>
        db != null && fresh(db) && !db.Closed && kind == spec.SqlName && err == None &&
        props.values == old(props.values)[defaultKindPrefix + connName := spec.SqlName]
  {
    var connParams := Lookup(props.values, ConnectionProperty(connName));
    var parsed := ParseDefinition(connName, connParams);
    if parsed.Failure? {
      return null, "", Some(parsed.error);
    }
    var sqlName, conn := parsed.value.SqlName, parsed.value.Conn;
    var e := openError(sqlName, conn);
    if e.Some? {
      return null, "", Some(OpenFailed(e.value, connName, connParams));
    }
    props.values := props.values[defaultKindPrefix + connName := sqlName];
    db := new SqlDb();
    kind := sqlName;
    err := None;
  }

  /** The checks of GetDBConnectionDirect on the definition, in source order. */
  method ParseDefinition(connName: string, connParams: string) returns (r: Result<ConnectionSpec, ConnectionError>)
    ensures r == ParseConnection(connName, connParams)
  {
    var param := ConnectionProperty(connName);
    if |connParams| == 0 {
      return Failure(MissingDefinition(param, connName));
    }
    var sqlName := "";
    var conn := "";
    var p := Index(connParams, ",");
    IndexOfOneChar(connParams, ',');
    if p > 0 {
      sqlName := TrimSpace(connParams[..p]);
      conn := TrimSpace(connParams[p + 1..]);
    }
    if |sqlName| == 0 || |conn| == 0 {
      return Failure(MalformedDefinition(param));
    }
    r := Success(ConnectionSpec(sqlName, conn));
  }

  /** A connectionPool: up to MaxConnections idle handles, the last returned on top. */
  class ConnectionPool {
    var db: array<SqlDb?>
    var amount: nat
    var kind: string

    /** The buffer has MaxConnections slots and the first `amount` hold open handles. */
    predicate Valid()
      reads this, db
    {
      db.Length == MaxConnections && amount <= MaxConnections &&
      forall k :: 0 <= k < amount ==> db[k] != null
    }

    /** The pooled handles, bottom first. */
    function Stack(): (s: seq<SqlDb?>)
      requires Valid()
      reads this, db
      ensures |s| == amount <= MaxConnections
      ensures forall k :: 0 <= k < |s| ==> s[k] != null
    {
      db[..amount]
    }

    constructor (kind: string)
      ensures Valid() && fresh(db) && amount == 0 && Stack() == [] && this.kind == kind
    {
      db := new SqlDb?[MaxConnections](_ => null);
      amount := 0;
      this.kind := kind;
    }

    /** Take the most recently pooled handle, or null when the pool is empty. */
    method Pop() returns (d: SqlDb?)
      requires Valid()
      modifies this`amount
      ensures Valid()
      ensures old(amount) == 0 ==> d == null && amount == 0
      ensures old(amount) > 0 ==> d != null && old(Stack()) == Stack() + [d]
    {
      if amount != 0 {
        amount := amount - 1;
        d := db[amount];
      } else {
        d := null;
      }
    }

    /** Store a handle on top when there is room; report whether it was stored. */
    method Push(d: SqlDb) returns (pooled: bool)
      requires Valid()
      modifies this`amount, db
      ensures Valid()
      ensures pooled <==> old(amount) < MaxConnections
      ensures pooled ==> Stack() == old(Stack()) + [d]
      ensures !pooled ==> Stack() == old(Stack())
    {
      if amount < MaxConnections {
        db[amount] := d;
        amount := amount + 1;
        pooled := true;
      } else {
        pooled := false;
      }
    }
  }

  /** The connectionGraph: the pool of each connection name; perDB is nil until initialised. */
  class ConnectionGraph {
    var perDB: Option<map<string, ConnectionPool>>
    ghost var Pools: set<ConnectionPool>
    ghost var Buffers: set<array<SqlDb?>>

    /** Every pool and its buffer belong to the graph, each pool is valid, and no two names share a pool or a buffer. */
    ghost predicate Valid()
      reads this, Pools, Buffers
    {
      perDB.Some? ==>
        (forall n :: n in perDB.value ==> perDB.value[n] in Pools && perDB.value[n].db in Buffers) &&
        (forall n :: n in perDB.value ==> perDB.value[n].Valid()) &&
        (forall n, n' :: n in perDB.value && n' in perDB.value && n != n' ==>
           perDB.value[n] != perDB.value[n'] && perDB.value[n].db != perDB.value[n'].db)
    }

    /** The idle handles of connection `name`, bottom first; none when it has no pool. */
    ghost function Idle(name: string): (s: seq<SqlDb?>)
      requires Valid()
      reads this, Pools, Buffers
      ensures |s| <= MaxConnections
    {
      if perDB.Some? && name in perDB.value then perDB.value[name].Stack() else []
    }

    constructor ()
      ensures Valid() && perDB == None
    {
      perDB := None;
      Pools, Buffers := {}, {};
    }
  }

  /** The pooled half of GetDBConnection: pop the top idle handle of `connName`, with the pool's driver. */
  method TakeIdle(graph: ConnectionGraph, connName: string) returns (db: SqlDb?, kind: string)
    requires graph.Valid()
    modifies graph.Pools
    ensures graph.Valid()
    ensures forall n :: n != connName ==> graph.Idle(n) == old(graph.Idle(n))
    ensures |old(graph.Idle(connName))| == 0 ==> db == null && graph.Idle(connName) == []
    ensures |old(graph.Idle(connName))| > 0 ==>
      db != null && old(graph.Idle(connName)) == graph.Idle(connName) + [db] && kind == graph.perDB.value[connName].kind
  {
    db, kind := null, "";
    if graph.perDB.Some? && connName in graph.perDB.value {
      var pool := graph.perDB.value[connName];
      db := pool.Pop();
      kind := pool.kind;
    }
  }

  /** The rest of GetDBConnection: a pooled handle is used as it is, otherwise a direct connection is made. */
  method Connect(props: Properties, connName: string, defaultKindPrefix: string,
                 openError: (string, string) -> Option<string>, pooled: SqlDb?, kind: string)
    returns (r: DBConnection, err: Option<ConnectionError>)
    modifies props
    ensures fresh(r) && r.Name == connName && r.KindMask == GetConnectionKindMask(r.Kind)
    ensures pooled != null ==> r.Db == pooled && r.Kind == ToLower(kind) && err == None && props.values == old(props.values)
    ensures pooled == null ==>
      match OpenOutcome(connName, Lookup(old(props.values), ConnectionProperty(connName)), openError)
      case Failure(e) => r.Db == null && r.Kind == "" && err == Some(e)
      case Success(spec) => r.Db != null && fresh(r.Db) && !r.Db.Closed && r.Kind == ToLower(spec.SqlName) && err == None
  {
    var db, k := pooled, kind;
    err := None;
    if db == null {
      db, k, err := GetDBConnectionDirect(props, connName, defaultKindPrefix, openError);
    }
    r := new DBConnection(db, k, connName);
  }

  /**
   * GetDBConnection: the most recently pooled handle of `connName` when there is one,
   * with the pool's driver; otherwise a direct connection. The driver is lower-cased and
   * the kind mask derived from it; a connection is returned even when `err` is set.
   */
  method GetDBConnection(graph: ConnectionGraph, props: Properties, connName: string, defaultKindPrefix: string,
                         openError: (string, string) -> Option<string>) returns (r: DBConnection, err: Option<ConnectionError>)
    requires graph.Valid()
    modifies graph.Pools, props
    ensures graph.Valid()
    ensures fresh(r) && r.Name == connName && r.KindMask == GetConnectionKindMask(r.Kind)
    ensures forall n :: n != connName ==> graph.Idle(n) == old(graph.Idle(n))
    ensures |old(graph.Idle(connName))| > 0 ==>
      old(graph.Idle(connName)) == graph.Idle(connName) + [r.Db] && err == None &&
      r.Kind == ToLower(graph.perDB.value[connName].kind) && props.values == old(props.values)
    ensures |old(graph.Idle(connName))| == 0 ==> graph.Idle(connName) == []
    ensures |old(graph.Idle(connName))| == 0 ==>
      match OpenOutcome(connName, Lookup(old(props.values), ConnectionProperty(connName)), openError)
      case Failure(e) => r.Db == null && r.Kind == "" && err == Some(e)
      case Success(spec) => r.Db != null && fresh(r.Db) && !r.Db.Closed && r.Kind == ToLower(spec.SqlName) && err == None
  {
    var db, kind := TakeIdle(graph, connName);
    label taken:
    r, err := Connect(props, connName, defaultKindPrefix, openError, db, kind);
    assert graph.Valid();
    forall n ensures graph.Idle(n) == old@taken(graph.Idle(n)) { }
  }

  /** The pool of `name`, created with driver `kind` on first use. */
  method PoolOf(graph: ConnectionGraph, name: string, kind: string) returns (pool: ConnectionPool)
    requires graph.Valid() && graph.perDB.Some?
    modifies graph
    ensures graph.Valid() && graph.perDB.Some? && name in graph.perDB.value && pool == graph.perDB.value[name]
    ensures name in old(graph.perDB.value) ==> graph.perDB == old(graph.perDB) && graph.Pools == old(graph.Pools) && graph.Buffers == old(graph.Buffers)
    ensures name !in old(graph.perDB.value) ==>
      fresh(pool) && fresh(pool.db) && pool.kind == kind && pool.Stack() == [] &&
      graph.perDB.value == old(graph.perDB.value)[name := pool] &&
      graph.Pools == old(graph.Pools) + {pool} && graph.Buffers == old(graph.Buffers) + {pool.db}
    ensures forall n :: n != name ==> graph.Idle(n) == old(graph.Idle(n))
    ensures graph.Idle(name) == old(graph.Idle(name))
  {
    if name in graph.perDB.value {
      return graph.perDB.value[name];
    }
    pool := new ConnectionPool(kind);
    graph.perDB := Some(graph.perDB.value[name := pool]);
    graph.Pools := graph.Pools + {pool};
    graph.Buffers := graph.Buffers + {pool.db};
  }

  /** The pooling half of backToPool: the handle goes on top of the pool of `name` when it has room. */
  method PushIdle(graph: ConnectionGraph, name: string, handle: SqlDb) returns (pooled: bool)
    requires graph.Valid() && graph.perDB.Some? && name in graph.perDB.value
    modifies graph.Pools, graph.Buffers
    ensures graph.Valid()
    ensures graph.perDB.value[name].kind == old(graph.perDB.value[name].kind)
    ensures pooled <==> |old(graph.Idle(name))| < MaxConnections
    ensures pooled ==> graph.Idle(name) == old(graph.Idle(name)) + [handle]
    ensures !pooled ==> graph.Idle(name) == old(graph.Idle(name))
    ensures forall n :: n != name ==> graph.Idle(n) == old(graph.Idle(n))
  {
    var pool := graph.perDB.value[name];
    pooled := pool.Push(handle);
    forall n | n != name && n in graph.perDB.value
      ensures graph.perDB.value[n].Stack() == old(graph.perDB.value[n].Stack())
    {
      var other := graph.perDB.value[n];
      assert other != pool && other.db != pool.db;
    }
  }

  /** The pool side of backToPool: find or create the pool of `name`, then push the handle when there is room. */
  method ReturnHandle(graph: ConnectionGraph, name: string, kind: string, handle: SqlDb) returns (pooled: bool)
    requires graph.Valid() && graph.perDB.Some?
    modifies graph, graph.Pools, graph.Buffers
    ensures graph.Valid() && graph.perDB.Some? && name in graph.perDB.value
    ensures fresh(graph.Pools - old(graph.Pools)) && fresh(graph.Buffers - old(graph.Buffers))
    ensures name in old(graph.perDB.value) ==> graph.perDB == old(graph.perDB)
    ensures name !in old(graph.perDB.value) ==> graph.perDB.value[name].kind == kind
    ensures forall n :: n != name ==> graph.Idle(n) == old(graph.Idle(n))
    ensures pooled <==> |old(graph.Idle(name))| < MaxConnections
    ensures pooled ==> graph.Idle(name) == old(graph.Idle(name)) + [handle]
    ensures !pooled ==> graph.Idle(name) == old(graph.Idle(name))
  {
    var pool := PoolOf(graph, name, kind);
    pooled := PushIdle(graph, name, handle);
  }

  /**
   * backToPool: the pool of the connection's name is created on first use with the
   * connection's driver; the handle goes on top while the pool has room, and is closed
   * otherwise. Needs an initialised perDB map.
   */
  method BackToPool(graph: ConnectionGraph, db: DBConnection)
    requires graph.Valid() && graph.perDB.Some? && db.Db != null
    modifies graph, graph.Pools, graph.Buffers, db`Db, db.Db
    ensures graph.Valid() && graph.perDB.Some? && db.Name in graph.perDB.value
    ensures fresh(graph.Pools - old(graph.Pools)) && fresh(graph.Buffers - old(graph.Buffers))
    ensures db.Name in old(graph.perDB.value) ==> graph.perDB == old(graph.perDB)
    ensures db.Name !in old(graph.perDB.value) ==> graph.perDB.value[db.Name].kind == db.Kind
    ensures forall n :: n != db.Name ==> graph.Idle(n) == old(graph.Idle(n))
    ensures |old(graph.Idle(db.Name))| < MaxConnections ==>
      graph.Idle(db.Name) == old(graph.Idle(db.Name)) + [old(db.Db)] && db.Db == null && old(db.Db).Closed == old(db.Db.Closed)
    ensures |old(graph.Idle(db.Name))| == MaxConnections ==>
      graph.Idle(db.Name) == old(graph.Idle(db.Name)) && db.Db == old(db.Db) && db.Db.Closed
  {
    var handle := db.Db;
    var pooled := ReturnHandle(graph, db.Name, db.Kind, handle);
    if pooled {
      db.Db := null;
    } else {
      handle.Close();
    }
  }

  /** The unforced half of Close: the handle goes back to the pool and the connection lets go of it. */
  method ReturnToPool(db: DBConnection, graph: ConnectionGraph)
    requires graph.Valid() && graph.perDB.Some? && db.Db != null
    modifies graph, graph.Pools, graph.Buffers, db`Db, db.Db
    ensures graph.Valid() && db.Db == null
    ensures fresh(graph.Pools - old(graph.Pools)) && fresh(graph.Buffers - old(graph.Buffers))
    ensures graph.perDB.Some? && db.Name in graph.perDB.value
    ensures forall n :: n != db.Name ==> graph.Idle(n) == old(graph.Idle(n))
    ensures |old(graph.Idle(db.Name))| < MaxConnections ==>
      graph.Idle(db.Name) == old(graph.Idle(db.Name)) + [old(db.Db)] && old(db.Db).Closed == old(db.Db.Closed)
    ensures |old(graph.Idle(db.Name))| == MaxConnections ==>
      graph.Idle(db.Name) == old(graph.Idle(db.Name)) && old(db.Db).Closed
  {
    BackToPool(graph, db);
    db.Db := null;
  }

  /**
   * DBConnection.Close: nothing happens for a missing connection or one already closed;
   * otherwise the handle is closed when `forced` and given back to the pool when not,
   * and the connection no longer holds it. The error returned is always nil.
   */
  method Close(db: DBConnection?, graph: ConnectionGraph, forced: bool) returns (err: Option<ConnectionError>)
    requires graph.Valid()
    requires db != null && db.Db != null && !forced ==> graph.perDB.Some?
    modifies graph, graph.Pools, graph.Buffers, if db != null then {db, db.Db} else {}
    ensures err == None && graph.Valid()
    ensures fresh(graph.Pools - old(graph.Pools)) && fresh(graph.Buffers - old(graph.Buffers))
    ensures db != null ==> db.Db == null && db.Name == old(db.Name) && db.Kind == old(db.Kind) && db.KindMask == old(db.KindMask)
    ensures db == null || old(db.Db) == null || forced ==>
      graph.perDB == old(graph.perDB) && forall n :: graph.Idle(n) == old(graph.Idle(n))
    ensures db != null && old(db.Db) != null && forced ==> old(db.Db).Closed
    ensures db != null && old(db.Db) != null && !forced ==>
      graph.perDB.Some? && db.Name in graph.perDB.value && forall n :: n != db.Name ==> graph.Idle(n) == old(graph.Idle(n))
    ensures db != null && old(db.Db) != null && !forced && |old(graph.Idle(db.Name))| < MaxConnections ==>
      graph.Idle(db.Name) == old(graph.Idle(db.Name)) + [old(db.Db)] && old(db.Db).Closed == old(db.Db.Closed)
    ensures db != null && old(db.Db) != null && !forced && |old(graph.Idle(db.Name))| == MaxConnections ==>
      graph.Idle(db.Name) == old(graph.Idle(db.Name)) && old(db.Db).Closed
  {
    err := None;
    if db != null && db.Db != null {
      if forced {
        db.Db.Close();
        db.Db := null;
      } else {
        ReturnToPool(db, graph);
      }
    }
  }

  /** Last in, first out: a connection closed into a pool with room is the one the next request gets. */
  method CloseThenGet(graph: ConnectionGraph, props: Properties, db: DBConnection, defaultKindPrefix: string,
                      openError: (string, string) -> Option<string>) returns (r: DBConnection, err: Option<ConnectionError>)
    requires graph.Valid() && graph.perDB.Some? && db.Db != null && |graph.Idle(db.Name)| < MaxConnections
    modifies graph, graph.Pools, graph.Buffers, db, db.Db, props
    ensures r.Db == old(db.Db) && err == None && r.Name == db.Name
    ensures graph.Valid() && forall n :: graph.Idle(n) == old(graph.Idle(n))
  {
    var handle, name := db.Db, db.Name;
    ghost var idle := graph.Idle(name);
    var closed := Close(db, graph, false);
    assert graph.Idle(name) == idle + [handle];
    label closedState:
    r, err := GetDBConnection(graph, props, name, defaultKindPrefix, openError);
    var after := graph.Idle(name) + [r.Db];
    assert after == idle + [handle];
    assert after[..|idle|] == graph.Idle(name) && after[|idle|] == r.Db;
    forall n | n != name ensures graph.Idle(n) == old(graph.Idle(n)) {
      assert graph.Idle(n) == old@closedState(graph.Idle(n));
    }
  }
}
