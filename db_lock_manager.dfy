/**
 * The peer bookkeeping of a database-backed quorum lock manager: the
 * sanitised bucket configuration, the lock expiry and the safe delay
 * derived from it, the expiring "server recently down" cache, the registry
 * holding one connection per lock server, the server probe, the merging
 * of per-type lock results, and teardown.
 *
 * The database driver is reached through parameters: a connection factory
 * (given the server's name, which stands for its whole configuration, its
 * type and its flags) and a connection initialiser that may fail, and the
 * per-type lock call.
 * The cache is a map from key to expiry time, read against an explicit
 * clock `now` (in seconds).
 */
module DBLockManagers {
  import opened Wrappers
  import opened PhpValues
  import opened StatusValues

  // ---------------------------------------------------------------------
  // Configuration
  // ---------------------------------------------------------------------

  /** A handle to an open database connection. */
  datatype Conn = Conn(handle: nat)

  /** What the configuration says about one lock server. */
  datatype ServerEntry =
    | Injected(conn: Conn)                            // a connection object given directly
    | Params(dbType: string, flags: Option<bv64>)     // parameters for a new connection
    | Unusable                                        // any other value

  datatype ServerConfig = ServerConfig(name: string, entry: ServerEntry)

  /** The constructor's configuration, in the array's order. */
  datatype LockConfig = LockConfig(
    dbServers: seq<ServerConfig>,
    dbsByBucket: Option<seq<Value>>,   // the values of 'dbsByBucket', when it is set
    lockExpiry: Option<int>,           // 'lockExpiry', when it is set
    srvCache: Option<Cache>)           // 'srvCache', when one is given

  /** Server names are keys of the configuration array, so no two entries share one. */
  predicate DistinctNames(servers: seq<ServerConfig>) {
    forall i, j :: 0 <= i < j < |servers| ==> servers[i].name != servers[j].name
  }

  /** The entry configured for a server name; an unknown name reads as unusable. */
  function EntryOf(servers: seq<ServerConfig>, name: string): ServerEntry {
    if servers == [] then Unusable
    else if servers[0].name == name then servers[0].entry
    else EntryOf(servers[1..], name)
  }

  function ServerNames(servers: seq<ServerConfig>): (r: seq<string>)
    ensures |r| == |servers|
    ensures forall k :: 0 <= k < |r| ==> r[k] == servers[k].name
  {
    if servers == [] then [] else [servers[0].name] + ServerNames(servers[1..])
  }

  /** The array-valued entries, in order. */
  function ArraysOnly(vals: seq<Value>): (r: seq<Value>)
    ensures |r| <= |vals|
    ensures forall k :: 0 <= k < |r| ==> r[k].Arr?
    ensures forall v :: v in r <==> v in vals && v.Arr?
  {
    if vals == [] then []
    else if vals[0].Arr? then [vals[0]] + ArraysOnly(vals[1..])
    else ArraysOnly(vals[1..])
  }

  /** Filtering distributes over concatenation: the kept entries keep their order and multiplicity. */
  lemma {:induction false} ArraysOnlyAppend(a: seq<Value>, b: seq<Value>)
    ensures ArraysOnly(a + b) == ArraysOnly(a) + ArraysOnly(b)
    decreases |a|
  {
    if a != [] {
      assert (a + b)[0] == a[0] && (a + b)[1..] == a[1..] + b;
      ArraysOnlyAppend(a[1..], b);
    } else {
      assert a + b == b;
    }
  }

  /** One entry is kept iff it is an array; nothing comes from nothing. */
  lemma ArraysOnlyUnit(v: Value)
    ensures ArraysOnly([]) == []
    ensures ArraysOnly([v]) == if v.Arr? then [v] else []
  {
    assert [v][1..] == [];
  }

  /** Entries that are all arrays are kept as they are, in the same positions. */
  lemma {:induction false} ArraysOnlyKeepsArrays(vals: seq<Value>)
    requires forall k :: 0 <= k < |vals| ==> vals[k].Arr?
    ensures ArraysOnly(vals) == vals
  {
    if vals != [] {
      ArraysOnlyKeepsArrays(vals[1..]);
      assert vals == [vals[0]] + vals[1..];
    }
  }

  /** Bucket numbering follows the order of the configured entries: sanitising two halves is sanitising the whole. */
  lemma SanitizeBucketsInOrder(a: seq<Value>, b: seq<Value>, servers: seq<ServerConfig>)
    ensures SanitizeBuckets(Some(a + b), servers) == SanitizeBuckets(Some(a), servers) + SanitizeBuckets(Some(b), servers)
  {
    ArraysOnlyAppend(a, b);
  }

  /**
   * The buckets: the array-valued entries of 'dbsByBucket', numbered from
   * 0; without that option, one bucket holding every server name.
   */
  function SanitizeBuckets(dbsByBucket: Option<seq<Value>>, servers: seq<ServerConfig>): (r: seq<Value>)
    ensures forall k :: 0 <= k < |r| ==> r[k].Arr?
    ensures dbsByBucket.Some? ==> forall v :: v in r <==> v in dbsByBucket.value && v.Arr?
    ensures dbsByBucket.None? ==> |r| == 1 && Values(r[0].items) == seq(|servers|, k requires 0 <= k < |servers| => Str(servers[k].name))
  {
    match dbsByBucket
    case Some(vals) => ArraysOnly(vals)
    case None =>
      var names := ServerNames(servers);
      [List(seq(|names|, k requires 0 <= k < |names| => Str(names[k])))]
  }

  /** The lock expiry: the configured one, else the execution-time limit, else 60 when that is 0. */
  function LockExpiryOf(configured: Option<int>, maxExecutionTime: int): (r: int)
    ensures configured.Some? ==> r == configured.value
    ensures configured.None? ==> r == (if maxExecutionTime != 0 then maxExecutionTime else 60)
  {
    match configured
    case Some(e) => e
    case None => if maxExecutionTime != 0 then maxExecutionTime else 60
  }

  /** How long a server stays marked down: the lock expiry, or 60 when that is not positive. */
  function SafeDelayOf(lockExpiry: int): (r: int)
    ensures r > 0
    ensures lockExpiry > 0 ==> r == lockExpiry
    ensures lockExpiry <= 0 ==> r == 60
  {
    if lockExpiry <= 0 then 60 else lockExpiry
  }

  // ---------------------------------------------------------------------
  // The failure cache
  // ---------------------------------------------------------------------

  /** Cache key to expiry time. */
  type Cache = map<string, int>

  /** An entry is read back while the clock is before its expiry. */
  predicate Alive(cache: Cache, key: string, now: int) {
    key in cache && now < cache[key]
  }

  /** Storing an entry with a time-to-live. */
  function CacheSet(cache: Cache, key: string, ttl: int, now: int): Cache {
    cache[key := now + ttl]
  }

  /** A server name with every space replaced by an underscore. */
  function Underscored(name: string): (r: string)
    ensures |r| == |name|
    ensures forall k :: 0 <= k < |r| ==> r[k] == (if name[k] == ' ' then '_' else name[k])
  {
    if name == [] then []
    else [if name[0] == ' ' then '_' else name[0]] + Underscored(name[1..])
  }

  const MissKeyPrefix := "dblockmanager:downservers:"

  /** The cache key marking a server as recently down. */
  function MissKey(lockDb: string): (r: string)
    ensures |r| == |MissKeyPrefix| + |lockDb|
    ensures r[..|MissKeyPrefix|] == MissKeyPrefix
    ensures forall k :: 0 <= k < |lockDb| ==> r[|MissKeyPrefix| + k] == (if lockDb[k] == ' ' then '_' else lockDb[k])
    ensures forall k :: |MissKeyPrefix| <= k < |r| ==> r[k] != ' '
  {
    MissKeyPrefix + Underscored(lockDb)
  }

  // ---------------------------------------------------------------------
  // Connections
  // ---------------------------------------------------------------------

  /** DBO_TRX and DBO_DEFAULT, the flags a lock connection must not carry. */
  const DBO_TRX: bv64 := 8
  const DBO_DEFAULT: bv64 := 16

  /** `$flags & ~( DBO_TRX | DBO_DEFAULT )`. */
  function WithoutTrx(flags: bv64): bv64 {
    flags & !(DBO_TRX | DBO_DEFAULT)
  }

  /** What the connection factory did. */
  datatype FactoryOutcome = Connected(conn: Conn) | NoConnection | FactoryDBError

  datatype ConnError = DBError | Unexpected(message: string)

  /** Calls the lock manager makes on the outside world, in order. */
  datatype Event =
    | Factory(dbType: string, flags: bv64)
    | SessionOptions(conn: Conn, connTimeout: Option<int>)
    | InitConnection(lockDb: string, conn: Conn)
    | ReleaseAllLocks
    | Close(conn: Conn)

  /** The session options of a new connection: a connect timeout only for a positive lock expiry. */
  function ConnTimeout(lockExpiry: int): Option<int> {
    if lockExpiry > 0 then Some(lockExpiry) else None
  }

  /**
   * Opening a connection to a server the registry does not hold yet: the
   * handle (or why there is none) and the calls made on the way.
   * `initialise` says whether setting the session options and the
   * initialisation succeed on a connection.
   */
  function Open(entry: ServerEntry, lockDb: string, lockExpiry: int,
                factory: (string, string, bv64) -> FactoryOutcome, initialise: (string, Conn) -> bool)
    : (Result<Conn, ConnError>, seq<Event>)
  {
    match entry
    case Unusable => (Failure(Unexpected("No server called '" + lockDb + "'.")), [])
    case Injected(c) => Initialise(c, lockDb, lockExpiry, initialise, [])
    case Params(dbType, flags) =>
      var cleared := WithoutTrx(flags.GetOr(0));
      var made := [Factory(dbType, cleared)];
      match factory(lockDb, dbType, cleared)
      case NoConnection => (Failure(Unexpected("No database connection for server called '" + lockDb + "'.")), made)
      case FactoryDBError => (Failure(DBError), made)
      case Connected(c) => Initialise(c, lockDb, lockExpiry, initialise, made)
  }

  function Initialise(c: Conn, lockDb: string, lockExpiry: int, initialise: (string, Conn) -> bool, before: seq<Event>)
    : (Result<Conn, ConnError>, seq<Event>)
  {
    var events := before + [SessionOptions(c, ConnTimeout(lockExpiry)), InitConnection(lockDb, c)];
    if initialise(lockDb, c) then (Success(c), events) else (Failure(DBError), events)
  }

  /** Closing each connection in the given order. */
  function Closes(order: seq<string>, conns: map<string, Conn>): (r: seq<Event>)
    requires forall k :: 0 <= k < |order| ==> order[k] in conns
    ensures |r| == |order|
    ensures forall k :: 0 <= k < |order| ==> r[k] == Close(conns[order[k]])
  {
    if order == [] then [] else [Close(conns[order[0]])] + Closes(order[1..], conns)
  }

  /** The status of one lock server: the merge of the per-type results. */
  function MergeAll(results: seq<Status<()>>): (r: Status<()>)
  {
    if results == [] then NewGood(None) else Merge(MergeAll(results[..|results| - 1]), results[|results| - 1])
  }

  // ---------------------------------------------------------------------
  // The lock manager
  // ---------------------------------------------------------------------

  class LockManager {
    const dbServers: seq<ServerConfig>
    const srvsByBucket: seq<Value>
    const lockExpiry: int
    const safeDelay: int
    var statusCache: Cache
    /** The open connections, by server name. */
    var conns: map<string, Conn>
    /** The server names of the open connections, in the order they were opened. */
    var connOrder: seq<string>
    /** The calls made on the database driver and the lock layer so far. */
    ghost var log: seq<Event>

    /** The registry lists every open connection once, in opening order. */
    predicate Valid()
      reads this
    {
      (forall name :: name in conns ==> name in connOrder) &&
      (forall k :: 0 <= k < |connOrder| ==> connOrder[k] in conns) &&
      (forall i, j :: 0 <= i < j < |connOrder| ==> connOrder[i] != connOrder[j]) &&
      DistinctNames(dbServers)
    }

    /** `maxExecutionTime` is the execution-time limit of the environment (0 when unlimited or unknown). */
    constructor (config: LockConfig, maxExecutionTime: int)
      requires DistinctNames(config.dbServers)
      ensures Valid()
      ensures dbServers == config.dbServers
      ensures srvsByBucket == SanitizeBuckets(config.dbsByBucket, config.dbServers)
      ensures lockExpiry == LockExpiryOf(config.lockExpiry, maxExecutionTime)
      ensures safeDelay == SafeDelayOf(lockExpiry)
      ensures statusCache == config.srvCache.GetOr(map[])
      ensures conns == map[] && connOrder == [] && log == []
    {
      dbServers := config.dbServers;
      srvsByBucket := SanitizeBuckets(config.dbsByBucket, config.dbServers);
      var expiry := LockExpiryOf(config.lockExpiry, maxExecutionTime);
      lockExpiry := expiry;
      safeDelay := if expiry <= 0 then 60 else expiry;
      statusCache := config.srvCache.GetOr(map[]);
      conns := map[];
      connOrder := [];
      log := [];
    }

    /** Whether the server has not been marked down recently; always true without a positive delay. */
    function CacheCheckFailures(lockDb: string, now: int): (r: bool)
      reads this
      ensures safeDelay <= 0 ==> r
      ensures safeDelay > 0 ==> (r <==> !Alive(statusCache, MissKey(lockDb), now))
    {
      if safeDelay > 0 then !Alive(statusCache, MissKey(lockDb), now) else true
    }

    /**
     * Marks the server down for `safeDelay` seconds from now. `stored` is
     * whether the cache backend accepts the write; the result is the
     * backend's answer, or true when there is no positive delay.
     */
    method CacheRecordFailure(lockDb: string, now: int, stored: bool) returns (r: bool)
      modifies this
      ensures r <==> safeDelay <= 0 || stored
      ensures statusCache ==
        if safeDelay > 0 && stored then CacheSet(old(statusCache), MissKey(lockDb), safeDelay, now) else old(statusCache)
      ensures conns == old(conns) && connOrder == old(connOrder) && log == old(log)
    {
      if safeDelay > 0 {
        if stored {
          statusCache := CacheSet(statusCache, MissKey(lockDb), safeDelay, now);
        }
        return stored;
      }
      return true;
    }

    /**
     * The connection to a lock server: the stored one when there is one;
     * otherwise a new one is opened, initialised and stored, and nothing is
     * stored when that fails.
     */
    method GetConnection(lockDb: string, factory: (string, string, bv64) -> FactoryOutcome, initialise: (string, Conn) -> bool)
      returns (r: Result<Conn, ConnError>)
      requires Valid()
      modifies this
      ensures Valid()
      ensures statusCache == old(statusCache)
      ensures lockDb in old(conns) ==>
        r == Success(old(conns)[lockDb]) && conns == old(conns) && connOrder == old(connOrder) && log == old(log)
      ensures lockDb !in old(conns) ==>
        var (res, events) := Open(EntryOf(dbServers, lockDb), lockDb, lockExpiry, factory, initialise);
        r == res && log == old(log) + events &&
        (res.Success? ==> conns == old(conns)[lockDb := res.value] && connOrder == old(connOrder) + [lockDb]) &&
        (res.Failure? ==> conns == old(conns) && connOrder == old(connOrder))
    {
      if lockDb in conns {
        return Success(conns[lockDb]);
      }
      ghost var before := log;
      var db: Conn;
      match EntryOf(dbServers, lockDb) {
        case Injected(c) =>
          db := c;
        case Params(dbType, flags) =>
          var cleared := flags.GetOr(0);
          cleared := WithoutTrx(cleared);
          log := log + [Factory(dbType, cleared)];
          match factory(lockDb, dbType, cleared) {
            case NoConnection =>
              return Failure(Unexpected("No database connection for server called '" + lockDb + "'."));
            case FactoryDBError =>
              return Failure(DBError);
            case Connected(c) =>
              db := c;
          }
        case Unusable =>
          return Failure(Unexpected("No server called '" + lockDb + "'."));
      }
      ghost var made := log[|before|..];
      assert log == before + made;
      assert lockDb !in connOrder;
      var options: Option<int> := None;
      if lockExpiry > 0 {
        options := Some(lockExpiry);
      }
      log := log + [SessionOptions(db, options), InitConnection(lockDb, db)];
      assert log == before + (made + [SessionOptions(db, options), InitConnection(lockDb, db)]);
      assert Open(EntryOf(dbServers, lockDb), lockDb, lockExpiry, factory, initialise) ==
        Initialise(db, lockDb, lockExpiry, initialise, made);
      if !initialise(lockDb, db) {
        return Failure(DBError);
      }
      RegisterKeepsValid(conns, connOrder, lockDb, db);
      conns := conns[lockDb := db];
      connOrder := connOrder + [lockDb];
      return Success(db);
    }

    /**
     * Whether a lock server can be used: false without trying to connect
     * when it was marked down recently; false, marking it down, when
     * connecting fails with a database error. A new connection is kept in
     * the registry. `cacheStores` is whether the cache backend accepts the
     * failure record.
     */
    method IsServerUp(lockDb: string, now: int, factory: (string, string, bv64) -> FactoryOutcome, initialise: (string, Conn) -> bool,
                      cacheStores: bool)
      returns (r: Result<bool, ConnError>)
      requires Valid()
      modifies this
      ensures Valid()
      ensures !old(CacheCheckFailures(lockDb, now)) ==>
        r == Success(false) && conns == old(conns) && connOrder == old(connOrder) &&
        statusCache == old(statusCache) && log == old(log)
      ensures old(CacheCheckFailures(lockDb, now)) && lockDb in old(conns) ==>
        r == Success(true) && conns == old(conns) && connOrder == old(connOrder) &&
        statusCache == old(statusCache) && log == old(log)
      ensures old(CacheCheckFailures(lockDb, now)) && lockDb !in old(conns) ==>
        var (res, events) := Open(EntryOf(dbServers, lockDb), lockDb, lockExpiry, factory, initialise);
        log == old(log) + events &&
        (res.Success? ==>
          r == Success(true) && statusCache == old(statusCache) &&
          conns == old(conns)[lockDb := res.value] && connOrder == old(connOrder) + [lockDb]) &&
        (res.Failure? ==> conns == old(conns) && connOrder == old(connOrder)) &&
        (res == Failure(DBError) ==>
          r == Success(false) &&
          statusCache == if safeDelay > 0 && cacheStores then CacheSet(old(statusCache), MissKey(lockDb), safeDelay, now)
                         else old(statusCache)) &&
        (res.Failure? && res.error.Unexpected? ==> r == res.PropagateFailure() && statusCache == old(statusCache))
    {
      if !CacheCheckFailures(lockDb, now) {
        return Success(false);
      }
      var c := GetConnection(lockDb, factory, initialise);
      match c {
        case Success(_) =>
          return Success(true);
        case Failure(DBError) =>
          var _ := CacheRecordFailure(lockDb, now, cacheStores);
          return Success(false);
        case Failure(Unexpected(m)) =>
          return Failure(Unexpected(m));
      }
    }

    /** The locks on one server: every per-type request is made, and the results merged. */
    method GetLocksOnServer(lockSrv: string, pathsByType: seq<(string, seq<string>)>,
                            doGetLocksOnServer: (string, seq<string>, string) -> Status<()>)
      returns (status: Status<()>)
      ensures status == MergeAll(seq(|pathsByType|, k requires 0 <= k < |pathsByType| =>
        doGetLocksOnServer(lockSrv, pathsByType[k].1, pathsByType[k].0)))
      ensures status.ok <==> forall k :: 0 <= k < |pathsByType| ==>
        doGetLocksOnServer(lockSrv, pathsByType[k].1, pathsByType[k].0).ok
    {
      ghost var results := seq(|pathsByType|, k requires 0 <= k < |pathsByType| =>
        doGetLocksOnServer(lockSrv, pathsByType[k].1, pathsByType[k].0));
      status := NewGood(None);
      var i := 0;
      while i < |pathsByType|
        invariant 0 <= i <= |pathsByType|
        invariant status == MergeAll(results[..i])
      {
        var (paths, lockType) := (pathsByType[i].1, pathsByType[i].0);
        assert results[..i + 1][..i] == results[..i];
        status := Merge(status, doGetLocksOnServer(lockSrv, paths, lockType));
        i := i + 1;
      }
      assert results[..|pathsByType|] == results;
      MergeAllOk(results);
      assert forall k :: 0 <= k < |results| ==> results[k] == doGetLocksOnServer(lockSrv, pathsByType[k].1, pathsByType[k].0);
    }

    /** Releasing is done elsewhere: the per-server release always reports success. */
    function FreeLocksOnServer(lockSrv: string, pathsByType: seq<(string, seq<string>)>): (r: Status<()>)
      ensures IsGood(r)
    {
      NewGood(None)
    }

    /** Teardown: release every lock, then close every open connection in opening order. */
    method Destruct()
      requires Valid()
      modifies this
      ensures conns == old(conns) && connOrder == old(connOrder) && statusCache == old(statusCache)
      ensures Valid()
      ensures log == old(log) + [ReleaseAllLocks] + Closes(connOrder, conns)
    {
      var order, open := connOrder, conns;
      ghost var closed: seq<Event> := [];
      var i := 0;
      while i < |order|
        invariant 0 <= i <= |order|
        invariant |closed| == i
        invariant forall k :: 0 <= k < i ==> closed[k] == Close(open[order[k]])
        modifies {}
      {
        closed := closed + [Close(open[order[i]])];
        i := i + 1;
      }
      assert closed == Closes(order, open);
      log := log + [ReleaseAllLocks] + closed;
    }
  }

  // ---------------------------------------------------------------------
  // Lemmas
  // ---------------------------------------------------------------------

  lemma RegisterKeepsValid(conns: map<string, Conn>, order: seq<string>, name: string, c: Conn)
    requires forall n :: n in conns ==> n in order
    requires forall k :: 0 <= k < |order| ==> order[k] in conns
    requires forall i, j :: 0 <= i < j < |order| ==> order[i] != order[j]
    requires name !in conns
    ensures forall n :: n in conns[name := c] ==> n in order + [name]
    ensures forall k :: 0 <= k < |order + [name]| ==> (order + [name])[k] in conns[name := c]
    ensures forall i, j :: 0 <= i < j < |order + [name]| ==> (order + [name])[i] != (order + [name])[j]
  {
  }

  /** The merged status is OK iff every result is, and carries all their messages in order. */
  lemma {:induction false} MergeAllOk(results: seq<Status<()>>)
    ensures MergeAll(results).ok <==> forall k :: 0 <= k < |results| ==> results[k].ok
    ensures MergeAll(results).messages == MessagesOf(results)
  {
    if results != [] {
      var init := results[..|results| - 1];
      MergeAllOk(init);
      assert forall k :: 0 <= k < |init| ==> init[k] == results[k];
    }
  }

  /** All messages of a list of statuses, in order. */
  function MessagesOf(results: seq<Status<()>>): seq<Message> {
    if results == [] then [] else MessagesOf(results[..|results| - 1]) + results[|results| - 1].messages
  }

  /**
   * A recorded failure keeps the server ineligible for exactly `safeDelay`
   * seconds: until then the check fails, from then on it passes again.
   */
  lemma RecordedFailureExpires(cache: Cache, lockDb: string, safeDelay: int, recordedAt: int, now: int)
    requires safeDelay > 0
    ensures Alive(CacheSet(cache, MissKey(lockDb), safeDelay, recordedAt), MissKey(lockDb), now) <==>
      now < recordedAt + safeDelay
  {
  }

  /** Different server names can share a miss key: a space and an underscore are not told apart. */
  lemma MissKeyConflatesSpaces()
    ensures MissKey("db 1") == MissKey("db_1")
  {
    assert Underscored("db 1") == "db_1";
  }

  /**
   * The flags handed to the factory never carry DBO_TRX or DBO_DEFAULT and
   * keep every other configured bit; an absent flags entry counts as 0.
   */
  lemma OpenClearsFlags(lockDb: string, dbType: string, flags: Option<bv64>, lockExpiry: int,
                        factory: (string, string, bv64) -> FactoryOutcome, initialise: (string, Conn) -> bool)
    ensures var events := Open(Params(dbType, flags), lockDb, lockExpiry, factory, initialise).1;
      |events| >= 1 && events[0].Factory? && events[0].dbType == dbType &&
      events[0].flags & (DBO_TRX | DBO_DEFAULT) == 0 &&
      events[0].flags | (flags.GetOr(0) & (DBO_TRX | DBO_DEFAULT)) == flags.GetOr(0)
  {
    OpenCallsFactoryFirst(lockDb, dbType, flags, lockExpiry, factory, initialise);
    WithoutTrxClears(flags.GetOr(0));
  }

  /** Opening from parameters starts with one factory call, given the cleared flags. */
  lemma OpenCallsFactoryFirst(lockDb: string, dbType: string, flags: Option<bv64>, lockExpiry: int,
                              factory: (string, string, bv64) -> FactoryOutcome, initialise: (string, Conn) -> bool)
    ensures var events := Open(Params(dbType, flags), lockDb, lockExpiry, factory, initialise).1;
      |events| >= 1 && events[0] == Factory(dbType, WithoutTrx(flags.GetOr(0)))
  {
    var events := Open(Params(dbType, flags), lockDb, lockExpiry, factory, initialise).1;
    assert events[..1] == [Factory(dbType, WithoutTrx(flags.GetOr(0)))];
  }

  /** Clearing the two bits leaves neither set and keeps every other bit. */
  lemma WithoutTrxClears(flags: bv64)
    ensures WithoutTrx(flags) & (DBO_TRX | DBO_DEFAULT) == 0
    ensures WithoutTrx(flags) | (flags & (DBO_TRX | DBO_DEFAULT)) == flags
  {
  }

  /** An unknown or unusable server fails with UnexpectedValueException and nothing is called. */
  lemma OpenUnknownServer(servers: seq<ServerConfig>, lockDb: string, lockExpiry: int,
                          factory: (string, string, bv64) -> FactoryOutcome, initialise: (string, Conn) -> bool)
    requires lockDb !in ServerNames(servers)
    ensures Open(EntryOf(servers, lockDb), lockDb, lockExpiry, factory, initialise) ==
      (Failure(Unexpected("No server called '" + lockDb + "'.")), [])
  {
    UnknownEntry(servers, lockDb);
  }

  lemma {:induction false} UnknownEntry(servers: seq<ServerConfig>, name: string)
    requires name !in ServerNames(servers)
    ensures EntryOf(servers, name) == Unusable
  {
    if servers != [] {
      assert ServerNames(servers) == [servers[0].name] + ServerNames(servers[1..]);
      UnknownEntry(servers[1..], name);
    }
  }

  /**
   * A successfully opened connection gets a connect timeout equal to the
   * lock expiry when that is positive and none otherwise, before it is
   * initialised.
   */
  lemma OpenSetsTimeout(entry: ServerEntry, lockDb: string, lockExpiry: int,
                        factory: (string, string, bv64) -> FactoryOutcome, initialise: (string, Conn) -> bool)
    requires Open(entry, lockDb, lockExpiry, factory, initialise).0.Success?
    ensures var (res, events) := Open(entry, lockDb, lockExpiry, factory, initialise);
      |events| >= 2 &&
      events[|events| - 2] == SessionOptions(res.value, if lockExpiry > 0 then Some(lockExpiry) else None) &&
      events[|events| - 1] == InitConnection(lockDb, res.value)
  {
  }

  /** The safe delay a manager derives is always positive, so its failure cache is always in use. */
  lemma DerivedSafeDelayPositive(configured: Option<int>, maxExecutionTime: int)
    ensures SafeDelayOf(LockExpiryOf(configured, maxExecutionTime)) > 0
    ensures configured.None? ==>
      SafeDelayOf(LockExpiryOf(configured, maxExecutionTime)) == if maxExecutionTime > 0 then maxExecutionTime else 60
  {
  }
}
