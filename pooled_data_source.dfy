/**
 * PooledDataSource: a JDBC connection pool. Connections handed out are
 * wrappers (PooledConnection) around real connections; the pool keeps the
 * wrappers on loan in an active list and returned ones in an idle list,
 * hands out the idle head first, opens a new real connection while the
 * active list is below its cap, reclaims the oldest active connection once
 * it is overdue, and otherwise waits.
 *
 * The model is sequential: the lock, wait/notifyAll and the clock are
 * replaced by inputs, one `Tick` per pass of popConnection's loop. The
 * answers of the JDBC driver (opening a connection, isClosed, the ping
 * query) are inputs too. PooledConnection.java, PoolState.java and
 * UnpooledDataSource.java are not part of this model: a wrapper is a
 * record, its valid flag is kept by the pool as the set of invalidated
 * wrappers, PoolState's counters are one record, and the
 * UnpooledDataSource is the settings record it holds.
 */
module PooledDataSource {
  import opened Wrappers
  import opened Collections
  import opened JavaInt

  /**
   * A PooledConnection: the wrapper's own identity, the real connection
   * it wraps, and its type code and timestamps.
   */
  datatype PooledConnection = PooledConnection(
    id: nat,
    realConnection: nat,
    connectionTypeCode: Int32,
    createdTimestamp: int,
    lastUsedTimestamp: int,
    checkoutTimestamp: int)

  /** The pool's tuning parameters, with the defaults of a new pool. */
  datatype PoolConfig = PoolConfig(
    poolMaximumActiveConnections: Int32,
    poolMaximumIdleConnections: Int32,
    poolMaximumCheckoutTime: Int32,
    poolTimeToWait: Int32,
    poolMaximumLocalBadConnectionTolerance: Int32,
    poolPingQuery: Option<string>,
    poolPingEnabled: bool,
    poolPingConnectionsNotUsedFor: Int32)

  const DEFAULT_CONFIG: PoolConfig := PoolConfig(10, 5, 20000, 20000, 3, Some("NO PING QUERY SET"), false, 0)

  /** The settings of the UnpooledDataSource that opens real connections. */
  datatype DriverSettings = DriverSettings(
    driver: Option<string>,
    url: Option<string>,
    username: Option<string>,
    password: Option<string>,
    autoCommit: Option<bool>,
    defaultTransactionIsolationLevel: Option<Int32>,
    driverProperties: Option<map<string, string>>)

  const NO_SETTINGS: DriverSettings := DriverSettings(None, None, None, None, None, None, None)

  /** PoolState's statistics. */
  datatype PoolStatistics = PoolStatistics(
    requestCount: int,
    accumulatedRequestTime: int,
    accumulatedCheckoutTime: int,
    claimedOverdueConnectionCount: int,
    accumulatedCheckoutTimeOfOverdueConnections: int,
    accumulatedWaitTime: int,
    hadToWaitCount: int,
    badConnectionCount: int)

  const NO_STATISTICS: PoolStatistics := PoolStatistics(0, 0, 0, 0, 0, 0, 0, 0)

  /**
   * assembleConnectionTypeCode: the hash code of the string concatenation
   * of url, username and password, each null written as "null".
   */
  function AssembleConnectionTypeCode(url: Option<string>, username: Option<string>, password: Option<string>): (c: Int32)
    ensures c == Wrap32(Polynomial31(Utf16(Concat(url) + Concat(username) + Concat(password))))
  {
    StringHashCode(Concat(url) + Concat(username) + Concat(password))
  }

  /**
   * The type code cannot tell a null username from the string "null", nor
   * where the url ends and the username begins.
   */
  lemma TypeCodeSeesOnlyTheConcatenation(url: string, username: string, password: Option<string>, split: nat)
    requires split <= |url|
    ensures AssembleConnectionTypeCode(Some(url), None, password)
         == AssembleConnectionTypeCode(Some(url), Some("null"), password)
    ensures AssembleConnectionTypeCode(Some(url), Some(username), password)
         == AssembleConnectionTypeCode(Some(url[..split]), Some(url[split..] + username), password)
  {
    assert url[..split] + (url[split..] + username) == url + username;
  }

  // ---------------------------------------------------------------------
  // The inputs the pool reads from the outside world

  /** What realConnection.isClosed() does. */
  datatype IsClosedAnswer = ReportsOpen | ReportsClosed | Throws

  /** How a real connection answers when the pool checks it. */
  datatype ConnectionProbe = ConnectionProbe(isClosed: IsClosedAnswer, pingSucceeds: bool)

  /**
   * One pass of popConnection's loop: the current time, whether the driver
   * opens a connection if asked, how a candidate answers its check, and
   * whether a wait is interrupted and how long it took otherwise.
   */
  datatype Tick = Tick(now: int, driverConnects: bool, probe: ConnectionProbe, interrupted: bool, waitedMillis: nat)

  // ---------------------------------------------------------------------
  // pingConnection

  /** Whether pingConnection sends the ping query to a connection that reports itself open. */
  predicate PingRuns(config: PoolConfig, conn: PooledConnection, now: int)
  {
    && config.poolPingEnabled
    && config.poolPingConnectionsNotUsedFor >= 0
    && now - conn.lastUsedTimestamp > config.poolPingConnectionsNotUsedFor
  }

  /** The verdict of pingConnection, and whether it closed the real connection. */
  datatype PingResult = PingResult(usable: bool, closesReal: bool)

  /**
   * pingConnection: a connection that reports itself closed, or whose
   * isClosed throws, is unusable; otherwise the ping query runs only when
   * pinging is enabled, the idle threshold is not negative and the
   * connection has been unused for longer than it, and a failing ping
   * closes the real connection and makes it unusable.
   */
  function PingConnection(config: PoolConfig, conn: PooledConnection, now: int, probe: ConnectionProbe)
    : (r: PingResult)
    ensures r.usable ==> probe.isClosed == ReportsOpen
    ensures probe.isClosed == ReportsOpen && !PingRuns(config, conn, now) ==> r == PingResult(true, false)
    ensures r.closesReal <==> probe.isClosed == ReportsOpen && PingRuns(config, conn, now) && !probe.pingSucceeds
    ensures r.closesReal ==> !r.usable
    ensures probe.isClosed == ReportsOpen && probe.pingSucceeds ==> r.usable
  {
    var result := probe.isClosed == ReportsOpen;
    if result && PingRuns(config, conn, now) then
      if probe.pingSucceeds then PingResult(true, false) else PingResult(false, true)
    else PingResult(result, false)
  }

  // ---------------------------------------------------------------------
  // Facts about lists of wrappers

  /** No wrapper and no real connection occurs twice in the list. */
  predicate Disjoint(s: seq<PooledConnection>)
  {
    forall i, j | 0 <= i < j < |s| :: s[i].id != s[j].id && s[i].realConnection != s[j].realConnection
  }

  /** Neither `c` nor another wrapper of its real connection is in the list. */
  predicate Absent(s: seq<PooledConnection>, c: PooledConnection)
  {
    forall i | 0 <= i < |s| :: s[i].id != c.id && s[i].realConnection != c.realConnection
  }

  /** Every listed wrapper is valid and its real connection open. */
  predicate Live(s: seq<PooledConnection>, invalidated: set<nat>, closed: set<nat>)
  {
    forall i | 0 <= i < |s| :: s[i].id !in invalidated && s[i].realConnection !in closed
  }

  /** Every listed wrapper and real connection was made before the counters' values. */
  predicate Below(s: seq<PooledConnection>, nextWrapperId: nat, nextRealId: nat)
  {
    forall i | 0 <= i < |s| :: s[i].id < nextWrapperId && s[i].realConnection < nextRealId
  }

  /** Taking one wrapper out of a list keeps its facts, and the wrapper is then absent. */
  lemma {:induction false} RemoveAt(s: seq<PooledConnection>, k: nat, invalidated: set<nat>, closed: set<nat>,
                                    nextWrapperId: nat, nextRealId: nat)
    requires k < |s| && Disjoint(s) && Live(s, invalidated, closed) && Below(s, nextWrapperId, nextRealId)
    ensures var t := s[..k] + s[k + 1..];
      && Disjoint(t) && Live(t, invalidated, closed) && Below(t, nextWrapperId, nextRealId)
      && Absent(t, s[k])
  {
    var t := s[..k] + s[k + 1..];
    assert forall i | 0 <= i < |t| :: t[i] == s[if i < k then i else i + 1];
  }

  /**
   * Taking the k-th wrapper out of the active list keeps the pool's facts
   * and leaves no trace of it; an active wrapper of the same real
   * connection is that very wrapper.
   */
  lemma RemoveActiveAt(idle: seq<PooledConnection>, active: seq<PooledConnection>, k: nat, conn: PooledConnection,
                       invalidated: set<nat>, closed: set<nat>, nextWrapperId: nat, nextRealId: nat)
    requires k < |active| && active[k].realConnection == conn.realConnection
    requires var pool := idle + active;
      Disjoint(pool) && Live(pool, invalidated, closed) && Below(pool, nextWrapperId, nextRealId)
    ensures var pool := idle + (active[..k] + active[k + 1..]);
      && Disjoint(pool) && Live(pool, invalidated, closed) && Below(pool, nextWrapperId, nextRealId)
      && Absent(pool, active[k])
    ensures active[k].id !in invalidated && active[k].realConnection !in closed
    ensures active[k].id < nextWrapperId && active[k].realConnection < nextRealId
    ensures conn in active ==> conn == active[k]
  {
    var pool := idle + active;
    var n := |idle|;
    assert pool[n + k] == active[k];
    RemoveAt(pool, n + k, invalidated, closed, nextWrapperId, nextRealId);
    assert pool[..n + k] + pool[n + k + 1..] == idle + (active[..k] + active[k + 1..]);
    if conn in active {
      var j :| 0 <= j < |active| && active[j] == conn;
      assert pool[n + j] == conn && pool[n + k].realConnection == conn.realConnection;
    }
  }

  /** Putting an absent, valid, open wrapper into a list keeps its facts. */
  lemma {:induction false} InsertAt(s: seq<PooledConnection>, k: nat, c: PooledConnection, invalidated: set<nat>,
                                    closed: set<nat>, nextWrapperId: nat, nextRealId: nat)
    requires k <= |s| && Disjoint(s) && Live(s, invalidated, closed) && Below(s, nextWrapperId, nextRealId)
    requires Absent(s, c) && c.id !in invalidated && c.realConnection !in closed
    requires c.id < nextWrapperId && c.realConnection < nextRealId
    ensures var t := s[..k] + [c] + s[k..];
      Disjoint(t) && Live(t, invalidated, closed) && Below(t, nextWrapperId, nextRealId)
  {
    var t := s[..k] + [c] + s[k..];
    assert t[k] == c;
    assert forall i | 0 <= i < |t| && i != k :: t[i] == s[if i < k then i else i - 1];
  }

  /** Invalidating and closing pooled wrappers made before the counters keeps every id below them. */
  lemma ClosingKeepsBounds(active: seq<PooledConnection>, idle: seq<PooledConnection>, invalidated: set<nat>,
                           closed: set<nat>, nextWrapperId: nat, nextRealId: nat)
    requires Below(idle + active, nextWrapperId, nextRealId)
    requires forall id | id in invalidated :: id < nextWrapperId
    requires forall rc | rc in closed :: rc < nextRealId
    ensures forall id | id in invalidated + Ids(active) + Ids(idle) :: id < nextWrapperId
    ensures forall rc | rc in closed + Reals(active) + Reals(idle) :: rc < nextRealId
  {
    var pool := idle + active;
    assert forall c | c in pool :: c.id < nextWrapperId && c.realConnection < nextRealId by {
      forall c | c in pool ensures c.id < nextWrapperId && c.realConnection < nextRealId {
        var i :| 0 <= i < |pool| && pool[i] == c;
      }
    }
    assert forall c | c in active || c in idle :: c in pool;
  }

  /** List.remove(conn) with PooledConnection.equals: the first wrapper of the same real connection goes. */
  function RemoveFirstReal(s: seq<PooledConnection>, rc: nat): seq<PooledConnection>
  {
    if s == [] then []
    else if s[0].realConnection == rc then s[1..]
    else [s[0]] + RemoveFirstReal(s[1..], rc)
  }

  /** The position of the first wrapper of `rc`, or |s| when there is none. */
  function IndexOfReal(s: seq<PooledConnection>, rc: nat): (k: nat)
    ensures k <= |s|
    ensures k < |s| ==> s[k].realConnection == rc
    ensures forall i | 0 <= i < k :: s[i].realConnection != rc
  {
    if s == [] then 0
    else if s[0].realConnection == rc then 0
    else 1 + IndexOfReal(s[1..], rc)
  }

  /** Removing by real connection takes out exactly the first matching wrapper, if there is one. */
  lemma {:induction false} RemoveFirstRealAt(s: seq<PooledConnection>, rc: nat)
    ensures var k := IndexOfReal(s, rc);
      RemoveFirstReal(s, rc) == if k < |s| then s[..k] + s[k + 1..] else s
  {
    if s != [] && s[0].realConnection != rc {
      RemoveFirstRealAt(s[1..], rc);
      var k := IndexOfReal(s[1..], rc);
      if k < |s[1..]| {
        assert [s[0]] + (s[1..][..k] + s[1..][k + 1..]) == s[..k + 1] + s[k + 2..];
      } else {
        assert [s[0]] + s[1..] == s;
      }
    }
  }

  /** The ids and the real connections of a list of wrappers. */
  function Ids(s: seq<PooledConnection>): set<nat>
  {
    set c | c in s :: c.id
  }

  function Reals(s: seq<PooledConnection>): set<nat>
  {
    set c | c in s :: c.realConnection
  }

  // ---------------------------------------------------------------------
  // The pool

  /** What one pass of popConnection's loop found before checking the connection. */
  datatype Claim = Candidate(conn: PooledConnection) | Waited | Interrupted | Thrown(error: PoolError)

  datatype PoolError =
    | CouldNotGetGoodConnection   // more bad candidates than the tolerance
    | UnknownSevereError          // the loop ended without a connection
    | DriverFailure               // the driver failed to open a connection
    | IndexOutOfBounds            // activeConnections.get(0) on an empty list
    | NegativeWaitTimeout         // the IllegalArgumentException of state.wait with a negative poolTimeToWait

  datatype PopOutcome = Acquired(conn: PooledConnection) | Failed(error: PoolError) | StillWaiting

  /** The part of the pool's state that popConnection and pushConnection change. */
  datatype PoolSnapshot = PoolSnapshot(
    idle: seq<PooledConnection>,
    active: seq<PooledConnection>,
    stats: PoolStatistics,
    invalidated: set<nat>,
    closed: set<nat>,
    nextWrapperId: nat,
    nextRealId: nat)

  /** poolMaximumIdleConnections + poolMaximumLocalBadConnectionTolerance, added as Java ints. */
  function BadThreshold(config: PoolConfig): Int32
  {
    Wrap32(config.poolMaximumIdleConnections + config.poolMaximumLocalBadConnectionTolerance)
  }

  /**
   * The first half of one pass of popConnection's loop, on values: the
   * idle head; else a new connection while the active list is below its
   * cap (or the driver's failure); else the IndexOutOfBoundsException of
   * get(0) on an empty active list; else the oldest active wrapper
   * reclaimed when overdue; else a wait, the first of the call counted.
   * A negative poolTimeToWait makes the wait itself throw, after the
   * count and before any interrupt is noticed.
   */
  function ClaimStep(p: PoolSnapshot, config: PoolConfig, tick: Tick, countedWait: bool): (PoolSnapshot, Claim)
  {
    if p.idle != [] then (p.(idle := p.idle[1..]), Candidate(p.idle[0]))
    else if |p.active| < config.poolMaximumActiveConnections then
      if !tick.driverConnects then (p, Thrown(DriverFailure))
      else (p.(nextWrapperId := p.nextWrapperId + 1, nextRealId := p.nextRealId + 1),
            Candidate(PooledConnection(p.nextWrapperId, p.nextRealId, 0, tick.now, tick.now, 0)))
    else if p.active == [] then (p, Thrown(IndexOutOfBounds))
    else
      var oldest := p.active[0];
      var longestCheckoutTime := tick.now - oldest.checkoutTimestamp;
      if longestCheckoutTime > config.poolMaximumCheckoutTime then
        (p.(active := RemoveFirstReal(p.active, oldest.realConnection),
            invalidated := p.invalidated + {oldest.id},
            nextWrapperId := p.nextWrapperId + 1,
            stats := p.stats.(
              claimedOverdueConnectionCount := p.stats.claimedOverdueConnectionCount + 1,
              accumulatedCheckoutTimeOfOverdueConnections :=
                p.stats.accumulatedCheckoutTimeOfOverdueConnections + longestCheckoutTime,
              accumulatedCheckoutTime := p.stats.accumulatedCheckoutTime + longestCheckoutTime)),
         Candidate(PooledConnection(p.nextWrapperId, oldest.realConnection, 0,
                                    oldest.createdTimestamp, oldest.lastUsedTimestamp, 0)))
      else
        var counted := if countedWait then p.stats else p.stats.(hadToWaitCount := p.stats.hadToWaitCount + 1);
        if config.poolTimeToWait < 0 then (p.(stats := counted), Thrown(NegativeWaitTimeout))
        else if tick.interrupted then (p.(stats := counted), Interrupted)
        else (p.(stats := counted.(accumulatedWaitTime := counted.accumulatedWaitTime + tick.waitedMillis)), Waited)
  }

  /**
   * The second half of a pass, on values: isValid (the valid flag, then
   * pingConnection); a valid candidate gets the type code of url, username
   * and password and fresh timestamps, joins the active list and counts as
   * a request; any other counts as bad.
   */
  function CheckoutStep(p: PoolSnapshot, config: PoolConfig, url: Option<string>, username: Option<string>,
                        password: Option<string>, c: PooledConnection, start: int, now: int, probe: ConnectionProbe)
    : (PoolSnapshot, Option<PooledConnection>)
  {
    var valid := c.id !in p.invalidated;
    var ping := PingConnection(config, c, now, probe);
    var closed := if valid && ping.closesReal then p.closed + {c.realConnection} else p.closed;
    if valid && ping.usable then
      var conn := c.(connectionTypeCode := AssembleConnectionTypeCode(url, username, password),
                     checkoutTimestamp := now, lastUsedTimestamp := now);
      (p.(active := p.active + [conn], closed := closed,
          stats := p.stats.(requestCount := p.stats.requestCount + 1,
                            accumulatedRequestTime := p.stats.accumulatedRequestTime + (now - start))),
       Some(conn))
    else
      (p.(closed := closed, stats := p.stats.(badConnectionCount := p.stats.badConnectionCount + 1)), None)
  }

  /**
   * What one claim changes in the counts, and why it can end a call: only
   * a wait moves hadToWaitCount, by one and only for the first wait; an
   * interrupt needs an interrupted wait; a driver failure needs a failed
   * connect; get(0) on an empty list needs a cap of at most 0; a wait
   * throws only for a negative poolTimeToWait.
   */
  lemma ClaimStepFacts(p: PoolSnapshot, config: PoolConfig, tick: Tick, countedWait: bool)
    ensures var (p1, claim) := ClaimStep(p, config, tick, countedWait);
      && p1.stats.requestCount == p.stats.requestCount
      && p1.stats.badConnectionCount == p.stats.badConnectionCount
      && p1.stats.hadToWaitCount
         == p.stats.hadToWaitCount
            + (if (claim.Waited? || claim.Interrupted? || claim == Thrown(NegativeWaitTimeout)) && !countedWait
               then 1 else 0)
      && (claim.Interrupted? ==> tick.interrupted)
      && (claim == Thrown(DriverFailure) ==> !tick.driverConnects)
      && (claim == Thrown(IndexOutOfBounds) ==> config.poolMaximumActiveConnections <= 0)
      && (claim == Thrown(NegativeWaitTimeout) ==> config.poolTimeToWait < 0)
      && (claim.Thrown? ==> claim.error in {DriverFailure, IndexOutOfBounds, NegativeWaitTimeout})
  {
  }

  /** A checkout counts a request exactly when it acquires, and a bad connection otherwise. */
  lemma CheckoutStepCounts(p: PoolSnapshot, config: PoolConfig, url: Option<string>, username: Option<string>,
                           password: Option<string>, c: PooledConnection, start: int, now: int, probe: ConnectionProbe)
    ensures var (p2, acquired) := CheckoutStep(p, config, url, username, password, c, start, now, probe);
      && p2.stats.hadToWaitCount == p.stats.hadToWaitCount
      && p2.stats.requestCount == p.stats.requestCount + (if acquired.Some? then 1 else 0)
      && p2.stats.badConnectionCount == p.stats.badConnectionCount + (if acquired.None? then 1 else 0)
  {
  }

  /**
   * popConnection on values, over the passes `ticks`: a wait goes on to
   * the next pass, an interrupted wait and an exception end the call, a
   * valid candidate is acquired, and a bad one goes on to the next pass
   * unless it is one more than `threshold` bad candidates.
   */
  function PopSpec(p: PoolSnapshot, config: PoolConfig, url: Option<string>, username: Option<string>,
                   password: Option<string>, start: int, ticks: seq<Tick>, countedWait: bool,
                   localBad: int, threshold: int): (PoolSnapshot, PopOutcome)
    decreases |ticks|
  {
    if ticks == [] then (p, StillWaiting)
    else
      var (p1, claim) := ClaimStep(p, config, ticks[0], countedWait);
      match claim
      case Waited => PopSpec(p1, config, url, username, password, start, ticks[1..], true, localBad, threshold)
      case Interrupted => (p1, Failed(UnknownSevereError))
      case Thrown(e) => (p1, Failed(e))
      case Candidate(c) =>
        var (p2, acquired) := CheckoutStep(p1, config, url, username, password, c, start, ticks[0].now, ticks[0].probe);
        if acquired.Some? then (p2, Acquired(acquired.value))
        else if localBad + 1 > threshold then (p2, Failed(CouldNotGetGoodConnection))
        else PopSpec(p2, config, url, username, password, start, ticks[1..], countedWait, localBad + 1, threshold)
  }

  /**
   * What the statistics record of a call: the first wait is counted and
   * no other, and a request is counted exactly when a connection is
   * acquired.
   */
  lemma {:induction false} PopCounts(p: PoolSnapshot, config: PoolConfig, url: Option<string>,
                                     username: Option<string>, password: Option<string>, start: int,
                                     ticks: seq<Tick>, countedWait: bool, localBad: int, threshold: int)
    decreases |ticks|
    ensures var (q, r) := PopSpec(p, config, url, username, password, start, ticks, countedWait, localBad, threshold);
      && p.stats.hadToWaitCount <= q.stats.hadToWaitCount
           <= p.stats.hadToWaitCount + (if countedWait then 0 else 1)
      && q.stats.requestCount == p.stats.requestCount + (if r.Acquired? then 1 else 0)
  {
    if ticks != [] {
      var (p1, claim) := ClaimStep(p, config, ticks[0], countedWait);
      ClaimStepFacts(p, config, ticks[0], countedWait);
      match claim
      case Waited =>
        PopCounts(p1, config, url, username, password, start, ticks[1..], true, localBad, threshold);
      case Interrupted =>
      case Thrown(e) =>
      case Candidate(c) =>
        var (p2, acquired) := CheckoutStep(p1, config, url, username, password, c, start, ticks[0].now, ticks[0].probe);
        CheckoutStepCounts(p1, config, url, username, password, c, start, ticks[0].now, ticks[0].probe);
        if acquired.None? && localBad + 1 <= threshold {
          PopCounts(p2, config, url, username, password, start, ticks[1..], countedWait, localBad + 1, threshold);
        }
    }
  }

  /**
   * At most threshold + 1 bad candidates are counted in a call, and
   * exactly that many when it fails for want of a good connection.
   */
  lemma {:induction false} PopBadCount(p: PoolSnapshot, config: PoolConfig, url: Option<string>,
                                       username: Option<string>, password: Option<string>, start: int,
                                       ticks: seq<Tick>, countedWait: bool, localBad: int, threshold: int)
    requires 0 <= localBad <= Max0(threshold)
    decreases |ticks|
    ensures var (q, r) := PopSpec(p, config, url, username, password, start, ticks, countedWait, localBad, threshold);
      && p.stats.badConnectionCount <= q.stats.badConnectionCount
           <= p.stats.badConnectionCount + Max0(threshold) - localBad + 1
      && (r == Failed(CouldNotGetGoodConnection) <==>
            q.stats.badConnectionCount == p.stats.badConnectionCount + Max0(threshold) - localBad + 1)
  {
    if ticks != [] {
      var (p1, claim) := ClaimStep(p, config, ticks[0], countedWait);
      ClaimStepFacts(p, config, ticks[0], countedWait);
      match claim
      case Waited =>
        PopBadCount(p1, config, url, username, password, start, ticks[1..], true, localBad, threshold);
      case Interrupted =>
      case Thrown(e) =>
      case Candidate(c) =>
        var (p2, acquired) := CheckoutStep(p1, config, url, username, password, c, start, ticks[0].now, ticks[0].probe);
        CheckoutStepCounts(p1, config, url, username, password, c, start, ticks[0].now, ticks[0].probe);
        if acquired.None? && localBad + 1 <= threshold {
          PopBadCount(p2, config, url, username, password, start, ticks[1..], countedWait, localBad + 1, threshold);
        }
    }
  }

  /**
   * An acquired connection is the last of the active list and carries the
   * type code of url, username and password.
   */
  lemma {:induction false} PopAcquiredIsLastActive(p: PoolSnapshot, config: PoolConfig, url: Option<string>,
                                                   username: Option<string>, password: Option<string>, start: int,
                                                   ticks: seq<Tick>, countedWait: bool, localBad: int, threshold: int)
    decreases |ticks|
    ensures var (q, r) := PopSpec(p, config, url, username, password, start, ticks, countedWait, localBad, threshold);
      r.Acquired? ==>
        && q.active != [] && q.active[|q.active| - 1] == r.conn
        && r.conn.connectionTypeCode == AssembleConnectionTypeCode(url, username, password)
  {
    if ticks != [] {
      var (p1, claim) := ClaimStep(p, config, ticks[0], countedWait);
      match claim
      case Waited =>
        PopAcquiredIsLastActive(p1, config, url, username, password, start, ticks[1..], true, localBad, threshold);
      case Interrupted =>
      case Thrown(e) =>
      case Candidate(c) =>
        var (p2, acquired) := CheckoutStep(p1, config, url, username, password, c, start, ticks[0].now, ticks[0].probe);
        if acquired.None? && localBad + 1 <= threshold {
          PopAcquiredIsLastActive(p2, config, url, username, password, start, ticks[1..], countedWait, localBad + 1, threshold);
        }
    }
  }

  /**
   * Why a call fails: UnknownSevereError only after an interrupted wait,
   * the driver's failure only when some pass's driver refused, and the
   * IndexOutOfBoundsException only when poolMaximumActiveConnections is
   * not positive, the IllegalArgumentException of the wait only when
   * poolTimeToWait is negative; and a call still waiting has used up every
   * pass.
   */
  lemma {:induction false} PopFailureCauses(p: PoolSnapshot, config: PoolConfig, url: Option<string>,
                                            username: Option<string>, password: Option<string>, start: int,
                                            ticks: seq<Tick>, countedWait: bool, localBad: int, threshold: int)
    decreases |ticks|
    ensures var (q, r) := PopSpec(p, config, url, username, password, start, ticks, countedWait, localBad, threshold);
      && (r == Failed(UnknownSevereError) ==> exists k | 0 <= k < |ticks| :: ticks[k].interrupted)
      && (r == Failed(DriverFailure) ==> exists k | 0 <= k < |ticks| :: !ticks[k].driverConnects)
      && (r == Failed(IndexOutOfBounds) ==> config.poolMaximumActiveConnections <= 0)
      && (r == Failed(NegativeWaitTimeout) ==> config.poolTimeToWait < 0)
      && (r.Failed? ==> r.error in {CouldNotGetGoodConnection, UnknownSevereError, DriverFailure, IndexOutOfBounds,
                                    NegativeWaitTimeout})
      && (r == StillWaiting ==> q.stats.requestCount == p.stats.requestCount)
  {
    PopCounts(p, config, url, username, password, start, ticks, countedWait, localBad, threshold);
    if ticks != [] {
      var (p1, claim) := ClaimStep(p, config, ticks[0], countedWait);
      ClaimStepFacts(p, config, ticks[0], countedWait);
      match claim
      case Waited =>
        PopFailureCauses(p1, config, url, username, password, start, ticks[1..], true, localBad, threshold);
        ForwardWitness(ticks);
      case Interrupted =>
      case Thrown(e) =>
      case Candidate(c) =>
        var (p2, acquired) := CheckoutStep(p1, config, url, username, password, c, start, ticks[0].now, ticks[0].probe);
        if acquired.None? && localBad + 1 <= threshold {
          PopFailureCauses(p2, config, url, username, password, start, ticks[1..], countedWait, localBad + 1, threshold);
          ForwardWitness(ticks);
        }
    }
  }

  /** A pass found among the later passes is a pass of the whole call. */
  lemma ForwardWitness(ticks: seq<Tick>)
    requires ticks != []
    ensures (exists k | 0 <= k < |ticks[1..]| :: ticks[1..][k].interrupted) ==>
              exists k | 0 <= k < |ticks| :: ticks[k].interrupted
    ensures (exists k | 0 <= k < |ticks[1..]| :: !ticks[1..][k].driverConnects) ==>
              exists k | 0 <= k < |ticks| :: !ticks[k].driverConnects
  {
    if exists k | 0 <= k < |ticks[1..]| :: ticks[1..][k].interrupted {
      var k :| 0 <= k < |ticks[1..]| && ticks[1..][k].interrupted;
      assert ticks[k + 1].interrupted;
    }
    if exists k | 0 <= k < |ticks[1..]| :: !ticks[1..][k].driverConnects {
      var k :| 0 <= k < |ticks[1..]| && !ticks[1..][k].driverConnects;
      assert !ticks[k + 1].driverConnects;
    }
  }

  /**
   * A call that has ended is not changed by further passes: more time
   * only matters while the call is still waiting.
   */
  lemma {:induction false} PopDecidedByPrefix(p: PoolSnapshot, config: PoolConfig, url: Option<string>,
                                              username: Option<string>, password: Option<string>, start: int,
                                              ticks: seq<Tick>, more: seq<Tick>, countedWait: bool,
                                              localBad: int, threshold: int)
    decreases |ticks|
    ensures var outcome := PopSpec(p, config, url, username, password, start, ticks, countedWait, localBad, threshold);
      outcome.1 != StillWaiting ==>
        PopSpec(p, config, url, username, password, start, ticks + more, countedWait, localBad, threshold) == outcome
  {
    if ticks != [] {
      assert (ticks + more)[0] == ticks[0] && (ticks + more)[1..] == ticks[1..] + more;
      var (p1, claim) := ClaimStep(p, config, ticks[0], countedWait);
      match claim
      case Waited =>
        PopDecidedByPrefix(p1, config, url, username, password, start, ticks[1..], more, true, localBad, threshold);
      case Interrupted =>
      case Thrown(e) =>
      case Candidate(c) =>
        var (p2, acquired) := CheckoutStep(p1, config, url, username, password, c, start, ticks[0].now, ticks[0].probe);
        if acquired.None? && localBad + 1 <= threshold {
          PopDecidedByPrefix(p2, config, url, username, password, start, ticks[1..], more, countedWait,
                             localBad + 1, threshold);
        }
    }
  }

  /**
   * The idle head is handed out on the first pass when it is valid and
   * passes its check, stamped with the type code and the current time.
   */
  lemma PopTakesGoodIdleHead(p: PoolSnapshot, config: PoolConfig, url: Option<string>,
                             username: Option<string>, password: Option<string>, start: int,
                             ticks: seq<Tick>, countedWait: bool, localBad: int, threshold: int)
    requires ticks != [] && p.idle != [] && p.idle[0].id !in p.invalidated
    requires PingConnection(config, p.idle[0], ticks[0].now, ticks[0].probe).usable
    ensures PopSpec(p, config, url, username, password, start, ticks, countedWait, localBad, threshold).1
      == Acquired(p.idle[0].(connectionTypeCode := AssembleConnectionTypeCode(url, username, password),
                             checkoutTimestamp := ticks[0].now, lastUsedTimestamp := ticks[0].now))
  {
  }

  class PooledDataSource {
    var settings: DriverSettings
    var config: PoolConfig
    var expectedConnectionTypeCode: Int32
    var idleConnections: seq<PooledConnection>
    var activeConnections: seq<PooledConnection>
    var stats: PoolStatistics
    /** The wrappers whose valid flag has been cleared by invalidate(). */
    var invalidated: set<nat>
    /** The real connections that have been closed. */
    var closedConnections: set<nat>
    /** Counters that name the next wrapper and the next real connection. */
    var nextWrapperId: nat
    var nextRealId: nat

    /** Every wrapper and real connection the pool knows of was made before the counters' values. */
    ghost predicate Counted()
      reads this
    {
      && Below(idleConnections + activeConnections, nextWrapperId, nextRealId)
      && (forall id | id in invalidated :: id < nextWrapperId)
      && (forall rc | rc in closedConnections :: rc < nextRealId)
    }

    /**
     * The pool's invariant: idle and active wrappers are distinct, wrap
     * distinct real connections, are all valid and their real connections
     * open; at most poolMaximumActiveConnections wrappers are pooled in all
     * and at most poolMaximumIdleConnections are idle.
     */
    ghost predicate Valid()
      reads this
    {
      var pool := idleConnections + activeConnections;
      && Counted()
      && Disjoint(pool)
      && Live(pool, invalidated, closedConnections)
      && |pool| <= Max0(config.poolMaximumActiveConnections)
      && |idleConnections| <= Max0(config.poolMaximumIdleConnections)
    }

    /** The lists, statistics, invalidations, closings and counters, as one value. */
    function Snapshot(): PoolSnapshot
      reads this
    {
      PoolSnapshot(idleConnections, activeConnections, stats, invalidated, closedConnections, nextWrapperId, nextRealId)
    }

    /**
     * The state forceCloseAll leaves behind, given the state before it: no
     * wrapper is pooled, every wrapper that was pooled is invalidated and
     * its real connection closed, the statistics and counters are kept,
     * and the expected type code is that of the current url, username and
     * password.
     */
    ghost predicate ClosedAllOf(before: PoolSnapshot)
      reads this
    {
      && idleConnections == [] && activeConnections == []
      && invalidated == before.invalidated + Ids(before.active) + Ids(before.idle)
      && closedConnections == before.closed + Reals(before.active) + Reals(before.idle)
      && stats == before.stats
      && nextWrapperId == before.nextWrapperId && nextRealId == before.nextRealId
      && TypeCodeCurrent()
    }

    /** A wrapper that may join the pool: valid, fresh, open, and with room for it. */
    ghost predicate Admissible(c: PooledConnection)
      reads this
    {
      var pool := idleConnections + activeConnections;
      && c.id < nextWrapperId && c.id !in invalidated
      && c.realConnection < nextRealId && c.realConnection !in closedConnections
      && Absent(pool, c)
      && |pool| + 1 <= Max0(config.poolMaximumActiveConnections)
    }

    /**
     * PooledDataSource() and PooledDataSource(UnpooledDataSource): the
     * default configuration, empty lists, and an expected type code of 0,
     * which is not computed from the settings.
     */
    constructor (settings: DriverSettings)
      ensures Valid() && this.settings == settings && config == DEFAULT_CONFIG
      ensures idleConnections == [] && activeConnections == [] && stats == NO_STATISTICS
      ensures expectedConnectionTypeCode == 0
    {
      this.settings := settings;
      config := DEFAULT_CONFIG;
      expectedConnectionTypeCode := 0;
      idleConnections := [];
      activeConnections := [];
      stats := NO_STATISTICS;
      invalidated := {};
      closedConnections := {};
      nextWrapperId := 0;
      nextRealId := 0;
    }

    /**
     * The constructors that take a driver and url: the expected type code
     * is computed from url, username and password.
     */
    constructor WithDriver(settings: DriverSettings)
      ensures Valid() && this.settings == settings && config == DEFAULT_CONFIG
      ensures idleConnections == [] && activeConnections == [] && stats == NO_STATISTICS
      ensures expectedConnectionTypeCode == AssembleConnectionTypeCode(settings.url, settings.username, settings.password)
    {
      this.settings := settings;
      config := DEFAULT_CONFIG;
      expectedConnectionTypeCode := AssembleConnectionTypeCode(settings.url, settings.username, settings.password);
      idleConnections := [];
      activeConnections := [];
      stats := NO_STATISTICS;
      invalidated := {};
      closedConnections := {};
      nextWrapperId := 0;
      nextRealId := 0;
    }

    // -------------------------------------------------------------------
    // forceCloseAll and the setters

    /**
     * forceCloseAll: the expected type code is recomputed, and every active
     * and then every idle wrapper is removed from the back, invalidated and
     * its real connection closed.
     */
    method ForceCloseAll()
      requires Counted()
      modifies this`expectedConnectionTypeCode, this`activeConnections, this`idleConnections, this`invalidated,
               this`closedConnections
      ensures Valid()
      ensures idleConnections == [] && activeConnections == []
      ensures expectedConnectionTypeCode == AssembleConnectionTypeCode(settings.url, settings.username, settings.password)
      ensures invalidated == old(invalidated) + Ids(old(activeConnections)) + Ids(old(idleConnections))
      ensures closedConnections == old(closedConnections) + Reals(old(activeConnections)) + Reals(old(idleConnections))
      ensures settings == old(settings) && config == old(config) && stats == old(stats)
      ensures nextWrapperId == old(nextWrapperId) && nextRealId == old(nextRealId)
    {
      RecomputeTypeCode();
      CloseAll();
    }

    /** The first statement of forceCloseAll: the expected type code of the current settings. */
    method RecomputeTypeCode()
      requires Counted()
      modifies this`expectedConnectionTypeCode
      ensures Counted()
      ensures expectedConnectionTypeCode == AssembleConnectionTypeCode(settings.url, settings.username, settings.password)
    {
      expectedConnectionTypeCode := AssembleConnectionTypeCode(settings.url, settings.username, settings.password);
    }

    /**
     * The two loops of forceCloseAll: every active, then every idle wrapper
     * is closed, which leaves an empty pool that keeps the invariant.
     */
    method CloseAll()
      requires Counted()
      modifies this`activeConnections, this`idleConnections, this`invalidated, this`closedConnections
      ensures Valid()
      ensures idleConnections == [] && activeConnections == []
      ensures invalidated == old(invalidated) + Ids(old(activeConnections)) + Ids(old(idleConnections))
      ensures closedConnections == old(closedConnections) + Reals(old(activeConnections)) + Reals(old(idleConnections))
    {
      CloseActive();
      CloseIdle();
      ClosingKeepsBounds(old(activeConnections), old(idleConnections), old(invalidated), old(closedConnections),
                         nextWrapperId, nextRealId);
      assert idleConnections + activeConnections == [];
    }

    /** The first loop of forceCloseAll, over the active wrappers from the back. */
    method CloseActive()
      modifies this`activeConnections, this`invalidated, this`closedConnections
      ensures activeConnections == []
      ensures invalidated == old(invalidated) + Ids(old(activeConnections))
      ensures closedConnections == old(closedConnections) + Reals(old(activeConnections))
    {
      var i := |activeConnections|;
      while i > 0
        invariant 0 <= i <= |old(activeConnections)|
        invariant activeConnections == old(activeConnections)[..i]
        invariant invalidated == old(invalidated) + Ids(old(activeConnections)[i..])
        invariant closedConnections == old(closedConnections) + Reals(old(activeConnections)[i..])
      {
        var conn := activeConnections[i - 1];
        assert old(activeConnections)[i - 1..] == [conn] + old(activeConnections)[i..];
        activeConnections := activeConnections[..i - 1];
        invalidated := invalidated + {conn.id};
        closedConnections := closedConnections + {conn.realConnection};
        i := i - 1;
      }
      assert old(activeConnections)[0..] == old(activeConnections);
    }

    /** The second loop of forceCloseAll, over the idle wrappers from the back. */
    method CloseIdle()
      modifies this`idleConnections, this`invalidated, this`closedConnections
      ensures idleConnections == []
      ensures invalidated == old(invalidated) + Ids(old(idleConnections))
      ensures closedConnections == old(closedConnections) + Reals(old(idleConnections))
    {
      var i := |idleConnections|;
      while i > 0
        invariant 0 <= i <= |old(idleConnections)|
        invariant idleConnections == old(idleConnections)[..i]
        invariant invalidated == old(invalidated) + Ids(old(idleConnections)[i..])
        invariant closedConnections == old(closedConnections) + Reals(old(idleConnections)[i..])
      {
        var conn := idleConnections[i - 1];
        assert old(idleConnections)[i - 1..] == [conn] + old(idleConnections)[i..];
        idleConnections := idleConnections[..i - 1];
        invalidated := invalidated + {conn.id};
        closedConnections := closedConnections + {conn.realConnection};
        i := i - 1;
      }
      assert old(idleConnections)[0..] == old(idleConnections);
    }

    method SetDriver(driver: Option<string>)
      requires Valid()
      modifies this
      ensures Valid() && settings == old(settings).(driver := driver) && config == old(config)
      ensures idleConnections == [] && activeConnections == [] && ClosedAllOf(old(Snapshot()))
      ensures expectedConnectionTypeCode == AssembleConnectionTypeCode(settings.url, settings.username, settings.password)
    {
      settings := settings.(driver := driver);
      ForceCloseAll();
    }

    method SetUrl(url: Option<string>)
      requires Valid()
      modifies this
      ensures Valid() && settings == old(settings).(url := url) && config == old(config)
      ensures idleConnections == [] && activeConnections == [] && ClosedAllOf(old(Snapshot()))
      ensures expectedConnectionTypeCode == AssembleConnectionTypeCode(url, settings.username, settings.password)
    {
      settings := settings.(url := url);
      ForceCloseAll();
    }

    method SetUsername(username: Option<string>)
      requires Valid()
      modifies this
      ensures Valid() && settings == old(settings).(username := username) && config == old(config)
      ensures idleConnections == [] && activeConnections == [] && ClosedAllOf(old(Snapshot()))
      ensures expectedConnectionTypeCode == AssembleConnectionTypeCode(settings.url, username, settings.password)
    {
      settings := settings.(username := username);
      ForceCloseAll();
    }

    method SetPassword(password: Option<string>)
      requires Valid()
      modifies this
      ensures Valid() && settings == old(settings).(password := password) && config == old(config)
      ensures idleConnections == [] && activeConnections == [] && ClosedAllOf(old(Snapshot()))
      ensures expectedConnectionTypeCode == AssembleConnectionTypeCode(settings.url, settings.username, password)
    {
      settings := settings.(password := password);
      ForceCloseAll();
    }

    method SetDefaultAutoCommit(defaultAutoCommit: bool)
      requires Valid()
      modifies this
      ensures Valid() && settings == old(settings).(autoCommit := Some(defaultAutoCommit)) && config == old(config)
      ensures idleConnections == [] && activeConnections == [] && ClosedAllOf(old(Snapshot()))
    {
      settings := settings.(autoCommit := Some(defaultAutoCommit));
      ForceCloseAll();
    }

    method SetDefaultTransactionIsolationLevel(level: Option<Int32>)
      requires Valid()
      modifies this
      ensures Valid() && settings == old(settings).(defaultTransactionIsolationLevel := level) && config == old(config)
      ensures idleConnections == [] && activeConnections == [] && ClosedAllOf(old(Snapshot()))
    {
      settings := settings.(defaultTransactionIsolationLevel := level);
      ForceCloseAll();
    }

    method SetDriverProperties(driverProps: Option<map<string, string>>)
      requires Valid()
      modifies this
      ensures Valid() && settings == old(settings).(driverProperties := driverProps) && config == old(config)
      ensures idleConnections == [] && activeConnections == [] && ClosedAllOf(old(Snapshot()))
    {
      settings := settings.(driverProperties := driverProps);
      ForceCloseAll();
    }

    method SetPoolMaximumActiveConnections(n: Int32)
      requires Valid()
      modifies this
      ensures Valid() && config == old(config).(poolMaximumActiveConnections := n) && settings == old(settings)
      ensures idleConnections == [] && activeConnections == [] && ClosedAllOf(old(Snapshot()))
    {
      config := config.(poolMaximumActiveConnections := n);
      ForceCloseAll();
    }

    method SetPoolMaximumIdleConnections(n: Int32)
      requires Valid()
      modifies this
      ensures Valid() && config == old(config).(poolMaximumIdleConnections := n) && settings == old(settings)
      ensures idleConnections == [] && activeConnections == [] && ClosedAllOf(old(Snapshot()))
    {
      config := config.(poolMaximumIdleConnections := n);
      ForceCloseAll();
    }

    /** The one setter that keeps the pooled connections. */
    method SetPoolMaximumLocalBadConnectionTolerance(n: Int32)
      requires Valid()
      modifies this
      ensures Valid() && config == old(config).(poolMaximumLocalBadConnectionTolerance := n)
      ensures idleConnections == old(idleConnections) && activeConnections == old(activeConnections)
      ensures invalidated == old(invalidated) && closedConnections == old(closedConnections)
      ensures settings == old(settings) && stats == old(stats)
      ensures expectedConnectionTypeCode == old(expectedConnectionTypeCode)
      ensures nextWrapperId == old(nextWrapperId) && nextRealId == old(nextRealId)
    {
      config := config.(poolMaximumLocalBadConnectionTolerance := n);
    }

    method SetPoolMaximumCheckoutTime(n: Int32)
      requires Valid()
      modifies this
      ensures Valid() && config == old(config).(poolMaximumCheckoutTime := n) && settings == old(settings)
      ensures idleConnections == [] && activeConnections == [] && ClosedAllOf(old(Snapshot()))
    {
      config := config.(poolMaximumCheckoutTime := n);
      ForceCloseAll();
    }

    method SetPoolTimeToWait(n: Int32)
      requires Valid()
      modifies this
      ensures Valid() && config == old(config).(poolTimeToWait := n) && settings == old(settings)
      ensures idleConnections == [] && activeConnections == [] && ClosedAllOf(old(Snapshot()))
    {
      config := config.(poolTimeToWait := n);
      ForceCloseAll();
    }

    method SetPoolPingQuery(query: Option<string>)
      requires Valid()
      modifies this
      ensures Valid() && config == old(config).(poolPingQuery := query) && settings == old(settings)
      ensures idleConnections == [] && activeConnections == [] && ClosedAllOf(old(Snapshot()))
    {
      config := config.(poolPingQuery := query);
      ForceCloseAll();
    }

    method SetPoolPingEnabled(enabled: bool)
      requires Valid()
      modifies this
      ensures Valid() && config == old(config).(poolPingEnabled := enabled) && settings == old(settings)
      ensures idleConnections == [] && activeConnections == [] && ClosedAllOf(old(Snapshot()))
    {
      config := config.(poolPingEnabled := enabled);
      ForceCloseAll();
    }

    method SetPoolPingConnectionsNotUsedFor(milliseconds: Int32)
      requires Valid()
      modifies this
      ensures Valid() && config == old(config).(poolPingConnectionsNotUsedFor := milliseconds) && settings == old(settings)
      ensures idleConnections == [] && activeConnections == [] && ClosedAllOf(old(Snapshot()))
    {
      config := config.(poolPingConnectionsNotUsedFor := milliseconds);
      ForceCloseAll();
    }

    // -------------------------------------------------------------------
    // pushConnection

    /**
     * pushConnection: the wrapper (or rather the first active wrapper of
     * the same real connection) leaves the active list. A valid wrapper is
     * then either rewrapped into the idle list, when there is room and its
     * type code is the expected one, or its real connection is closed; in
     * both cases the old wrapper is invalidated and its checkout time is
     * added up. An invalid wrapper counts as bad; if it was invalid only
     * because its ping failed, that ping has closed its real connection.
     */
    method PushConnection(conn: PooledConnection, now: int, probe: ConnectionProbe)
      requires Valid()
      requires conn in activeConnections || conn.id in invalidated
      modifies this`activeConnections, this`idleConnections, this`invalidated, this`closedConnections, this`stats,
               this`nextWrapperId
      ensures Valid()
      ensures activeConnections == RemoveFirstReal(old(activeConnections), conn.realConnection)
      ensures settings == old(settings) && config == old(config)
      ensures expectedConnectionTypeCode == old(expectedConnectionTypeCode)
      ensures nextRealId == old(nextRealId)
      ensures nextWrapperId == old(nextWrapperId)
        + (if conn.id !in old(invalidated) && PingConnection(config, conn, now, probe).usable
              && |old(idleConnections)| < config.poolMaximumIdleConnections
              && conn.connectionTypeCode == expectedConnectionTypeCode then 1 else 0)
      ensures var isValid := conn.id !in old(invalidated) && PingConnection(config, conn, now, probe).usable;
        && (isValid && |old(idleConnections)| < config.poolMaximumIdleConnections
              && conn.connectionTypeCode == expectedConnectionTypeCode ==>
              && idleConnections == old(idleConnections)
                   + [PooledConnection(old(nextWrapperId), conn.realConnection, 0, conn.createdTimestamp, conn.lastUsedTimestamp, 0)]
              && invalidated == old(invalidated) + {conn.id}
              && closedConnections == old(closedConnections)
              && stats == old(stats).(accumulatedCheckoutTime := old(stats).accumulatedCheckoutTime + (now - conn.checkoutTimestamp)))
        && (isValid && !(|old(idleConnections)| < config.poolMaximumIdleConnections
              && conn.connectionTypeCode == expectedConnectionTypeCode) ==>
              && idleConnections == old(idleConnections)
              && invalidated == old(invalidated) + {conn.id}
              && closedConnections == old(closedConnections) + {conn.realConnection}
              && stats == old(stats).(accumulatedCheckoutTime := old(stats).accumulatedCheckoutTime + (now - conn.checkoutTimestamp)))
        && (!isValid ==>
              && idleConnections == old(idleConnections)
              && invalidated == old(invalidated)
              && closedConnections == old(closedConnections)
                   + (if conn.id !in old(invalidated) && PingConnection(config, conn, now, probe).closesReal
                      then {conn.realConnection} else {})
              && stats == old(stats).(badConnectionCount := old(stats).badConnectionCount + 1))
    {
      RemoveFromActive(conn);
      var isValid := false;
      if conn.id !in invalidated {
        var ping := PingConnection(config, conn, now, probe);
        if ping.closesReal {
          closedConnections := closedConnections + {conn.realConnection};
        }
        isValid := ping.usable;
      }
      if isValid {
        if |idleConnections| < config.poolMaximumIdleConnections && conn.connectionTypeCode == expectedConnectionTypeCode {
          KeepIdle(conn, now);
        } else {
          CloseReturned(conn, now);
        }
      } else {
        stats := stats.(badConnectionCount := stats.badConnectionCount + 1);
      }
    }

    /** A wrapper that has left the pool while still valid and open, freeing its place. */
    ghost predicate Departed(conn: PooledConnection)
      reads this
    {
      && conn.id < nextWrapperId && conn.id !in invalidated
      && conn.realConnection < nextRealId && conn.realConnection !in closedConnections
      && Absent(idleConnections + activeConnections, conn)
      && |idleConnections + activeConnections| + 1 <= Max0(config.poolMaximumActiveConnections)
    }

    /**
     * The first branch of pushConnection for a valid wrapper: its checkout
     * time is added up, its real connection goes to the back of the idle
     * list in a new wrapper with the old timestamps, and it is invalidated.
     */
    method KeepIdle(conn: PooledConnection, now: int)
      requires Valid() && Departed(conn)
      requires |idleConnections| < config.poolMaximumIdleConnections
      modifies this`idleConnections, this`invalidated, this`stats, this`nextWrapperId
      ensures Valid()
      ensures idleConnections == old(idleConnections)
        + [PooledConnection(old(nextWrapperId), conn.realConnection, 0, conn.createdTimestamp, conn.lastUsedTimestamp, 0)]
      ensures invalidated == old(invalidated) + {conn.id}
      ensures nextWrapperId == old(nextWrapperId) + 1
      ensures stats == old(stats).(accumulatedCheckoutTime := old(stats).accumulatedCheckoutTime + (now - conn.checkoutTimestamp))
    {
      stats := stats.(accumulatedCheckoutTime := stats.accumulatedCheckoutTime + (now - conn.checkoutTimestamp));
      var newConn := PooledConnection(nextWrapperId, conn.realConnection, 0, conn.createdTimestamp, conn.lastUsedTimestamp, 0);
      nextWrapperId := nextWrapperId + 1;
      invalidated := invalidated + {conn.id};
      AddIdle(newConn);
    }

    /**
     * The second branch of pushConnection for a valid wrapper: its checkout
     * time is added up, its real connection closed, and it is invalidated.
     */
    method CloseReturned(conn: PooledConnection, now: int)
      requires Valid() && Departed(conn)
      modifies this`invalidated, this`closedConnections, this`stats
      ensures Valid()
      ensures invalidated == old(invalidated) + {conn.id}
      ensures closedConnections == old(closedConnections) + {conn.realConnection}
      ensures stats == old(stats).(accumulatedCheckoutTime := old(stats).accumulatedCheckoutTime + (now - conn.checkoutTimestamp))
    {
      stats := stats.(accumulatedCheckoutTime := stats.accumulatedCheckoutTime + (now - conn.checkoutTimestamp));
      closedConnections := closedConnections + {conn.realConnection};
      invalidated := invalidated + {conn.id};
    }

    /**
     * activeConnections.remove(conn): if the wrapper was active, it alone
     * leaves the pool and its real connection is no longer pooled.
     */
    method RemoveFromActive(conn: PooledConnection)
      requires Valid()
      modifies this`activeConnections
      ensures Valid()
      ensures activeConnections == RemoveFirstReal(old(activeConnections), conn.realConnection)
      ensures conn in old(activeConnections) ==> Departed(conn)
      ensures |idleConnections + activeConnections| <= |old(idleConnections + activeConnections)|
    {
      RemoveFirstRealAt(activeConnections, conn.realConnection);
      var k := IndexOfReal(activeConnections, conn.realConnection);
      if k < |activeConnections| {
        RemoveActiveAt(idleConnections, activeConnections, k, conn, invalidated, closedConnections,
                       nextWrapperId, nextRealId);
        activeConnections := activeConnections[..k] + activeConnections[k + 1..];
      }
    }

    /** idleConnections.add(c) for a wrapper that may join the pool. */
    method AddIdle(c: PooledConnection)
      requires Valid() && Admissible(c)
      requires |idleConnections| < config.poolMaximumIdleConnections
      modifies this`idleConnections
      ensures Valid() && idleConnections == old(idleConnections) + [c]
    {
      var pool := idleConnections + activeConnections;
      var n := |idleConnections|;
      InsertAt(pool, n, c, invalidated, closedConnections, nextWrapperId, nextRealId);
      assert pool[..n] + [c] + pool[n..] == (idleConnections + [c]) + activeConnections;
      idleConnections := idleConnections + [c];
    }

    /** activeConnections.add(c) for a wrapper that may join the pool. */
    method AddActive(c: PooledConnection)
      requires Valid() && Admissible(c)
      modifies this`activeConnections
      ensures Valid() && activeConnections == old(activeConnections) + [c]
    {
      var pool := idleConnections + activeConnections;
      InsertAt(pool, |pool|, c, invalidated, closedConnections, nextWrapperId, nextRealId);
      assert pool[..|pool|] + [c] + pool[|pool|..] == idleConnections + (activeConnections + [c]);
      activeConnections := activeConnections + [c];
    }

    // -------------------------------------------------------------------
    // popConnection

    /**
     * The first half of one pass of popConnection's loop, with the effect
     * and the claim that ClaimStep gives; a candidate it claims may join
     * the pool.
     */
    method ClaimCandidate(tick: Tick, countedWait: bool) returns (claim: Claim)
      requires Valid()
      modifies this`activeConnections, this`idleConnections, this`invalidated, this`stats, this`nextWrapperId,
               this`nextRealId
      ensures Valid()
      ensures settings == old(settings) && config == old(config)
      ensures expectedConnectionTypeCode == old(expectedConnectionTypeCode)
      ensures claim.Candidate? ==> Admissible(claim.conn)
      ensures (Snapshot(), claim) == ClaimStep(old(Snapshot()), config, tick, countedWait)
    {
      if idleConnections != [] {
        var conn := TakeIdle();
        return Candidate(conn);
      }
      if |activeConnections| < config.poolMaximumActiveConnections {
        if !tick.driverConnects {
          return Thrown(DriverFailure);
        }
        var conn := OpenNew(tick.now);
        return Candidate(conn);
      }
      if activeConnections == [] {
        return Thrown(IndexOutOfBounds);
      }
      var oldestActiveConnection := activeConnections[0];
      var longestCheckoutTime := tick.now - oldestActiveConnection.checkoutTimestamp;
      if longestCheckoutTime > config.poolMaximumCheckoutTime {
        var conn := ReclaimOldest(tick.now);
        return Candidate(conn);
      }
      if !countedWait {
        stats := stats.(hadToWaitCount := stats.hadToWaitCount + 1);
      }
      if config.poolTimeToWait < 0 {
        return Thrown(NegativeWaitTimeout);
      }
      if tick.interrupted {
        return Interrupted;
      }
      stats := stats.(accumulatedWaitTime := stats.accumulatedWaitTime + tick.waitedMillis);
      return Waited;
    }

    /** state.idleConnections.remove(0). */
    method TakeIdle() returns (conn: PooledConnection)
      requires Valid() && idleConnections != []
      modifies this`idleConnections
      ensures Valid() && Admissible(conn)
      ensures conn == old(idleConnections)[0] && idleConnections == old(idleConnections)[1..]
    {
      conn := idleConnections[0];
      var pool := idleConnections + activeConnections;
      RemoveAt(pool, 0, invalidated, closedConnections, nextWrapperId, nextRealId);
      assert pool[..0] + pool[1..] == idleConnections[1..] + activeConnections;
      idleConnections := idleConnections[1..];
    }

    /** A new wrapper around a new real connection, stamped with the current time. */
    method OpenNew(now: int) returns (conn: PooledConnection)
      requires Valid() && idleConnections == [] && |activeConnections| < config.poolMaximumActiveConnections
      modifies this`nextWrapperId, this`nextRealId
      ensures Valid() && Admissible(conn)
      ensures conn == PooledConnection(old(nextWrapperId), old(nextRealId), 0, now, now, 0)
      ensures nextWrapperId == old(nextWrapperId) + 1 && nextRealId == old(nextRealId) + 1
    {
      conn := PooledConnection(nextWrapperId, nextRealId, 0, now, now, 0);
      nextWrapperId := nextWrapperId + 1;
      nextRealId := nextRealId + 1;
    }

    /**
     * The overdue branch: the checkout time of the oldest active wrapper is
     * added up twice over, the wrapper leaves the active list and is
     * invalidated, and its real connection comes back in a new wrapper with
     * the old timestamps.
     */
    method ReclaimOldest(now: int) returns (conn: PooledConnection)
      requires Valid() && idleConnections == [] && activeConnections != []
      modifies this`activeConnections, this`invalidated, this`stats, this`nextWrapperId
      ensures Valid() && Admissible(conn)
      ensures var oldest := old(activeConnections)[0];
        var longestCheckoutTime := now - oldest.checkoutTimestamp;
        && conn == PooledConnection(old(nextWrapperId), oldest.realConnection, 0,
                                    oldest.createdTimestamp, oldest.lastUsedTimestamp, 0)
        && activeConnections == old(activeConnections)[1..]
        && invalidated == old(invalidated) + {oldest.id}
        && nextWrapperId == old(nextWrapperId) + 1
        && stats == old(stats).(
             claimedOverdueConnectionCount := old(stats).claimedOverdueConnectionCount + 1,
             accumulatedCheckoutTimeOfOverdueConnections :=
               old(stats).accumulatedCheckoutTimeOfOverdueConnections + longestCheckoutTime,
             accumulatedCheckoutTime := old(stats).accumulatedCheckoutTime + longestCheckoutTime)
    {
      var oldestActiveConnection := activeConnections[0];
      var longestCheckoutTime := now - oldestActiveConnection.checkoutTimestamp;
      stats := stats.(
        claimedOverdueConnectionCount := stats.claimedOverdueConnectionCount + 1,
        accumulatedCheckoutTimeOfOverdueConnections :=
          stats.accumulatedCheckoutTimeOfOverdueConnections + longestCheckoutTime,
        accumulatedCheckoutTime := stats.accumulatedCheckoutTime + longestCheckoutTime);
      RemoveFromActive(oldestActiveConnection);
      conn := PooledConnection(nextWrapperId, oldestActiveConnection.realConnection, 0,
                               oldestActiveConnection.createdTimestamp, oldestActiveConnection.lastUsedTimestamp, 0);
      nextWrapperId := nextWrapperId + 1;
      invalidated := invalidated + {oldestActiveConnection.id};
    }

    /**
     * The second half of a pass, with the effect and the result that
     * CheckoutStep gives for the data source's url and the given username
     * and password.
     */
    method Checkout(c: PooledConnection, username: Option<string>, password: Option<string>, start: int, now: int,
                    probe: ConnectionProbe) returns (acquired: Option<PooledConnection>)
      requires Valid() && Admissible(c)
      modifies this`activeConnections, this`closedConnections, this`stats
      ensures Valid()
      ensures settings == old(settings) && config == old(config)
      ensures expectedConnectionTypeCode == old(expectedConnectionTypeCode)
      ensures (Snapshot(), acquired) == CheckoutStep(old(Snapshot()), config, settings.url, username, password,
                                                     c, start, now, probe)
    {
      var valid := c.id !in invalidated;
      var ping := PingConnection(config, c, now, probe);
      if valid && ping.closesReal {
        closedConnections := closedConnections + {c.realConnection};
      }
      if valid && ping.usable {
        var conn := c.(connectionTypeCode := AssembleConnectionTypeCode(settings.url, username, password),
                       checkoutTimestamp := now, lastUsedTimestamp := now);
        AddActive(conn);
        stats := stats.(requestCount := stats.requestCount + 1,
                        accumulatedRequestTime := stats.accumulatedRequestTime + (now - start));
        return Some(conn);
      }
      stats := stats.(badConnectionCount := stats.badConnectionCount + 1);
      return None;
    }

    /**
     * popConnection, run for the passes given by `ticks`: the new state and
     * the outcome are those of PopSpec. So it returns the first candidate
     * that passes its check, fails after more bad candidates than
     * poolMaximumIdleConnections + poolMaximumLocalBadConnectionTolerance
     * (an int sum), fails when a wait is interrupted or the driver, the
     * active list or the wait itself throws, and is still waiting when the
     * passes run out.
     * The first wait of the call is counted, and only that one.
     */
    method PopConnection(username: Option<string>, password: Option<string>, start: int, ticks: seq<Tick>)
      returns (r: PopOutcome)
      requires Valid()
      modifies this
      ensures Valid()
      ensures settings == old(settings) && config == old(config)
      ensures expectedConnectionTypeCode == old(expectedConnectionTypeCode)
      ensures (Snapshot(), r) == PopSpec(old(Snapshot()), config, settings.url, username, password, start, ticks,
                                         false, 0, BadThreshold(config))
      ensures old(stats).hadToWaitCount <= stats.hadToWaitCount <= old(stats).hadToWaitCount + 1
      ensures r.Acquired? ==>
        && activeConnections != [] && activeConnections[|activeConnections| - 1] == r.conn
        && r.conn.connectionTypeCode == AssembleConnectionTypeCode(settings.url, username, password)
      ensures stats.requestCount == old(stats).requestCount + (if r.Acquired? then 1 else 0)
      ensures var threshold := BadThreshold(config);
        && old(stats).badConnectionCount <= stats.badConnectionCount <= old(stats).badConnectionCount + Max0(threshold) + 1
        && (r == Failed(CouldNotGetGoodConnection) <==>
              stats.badConnectionCount == old(stats).badConnectionCount + Max0(threshold) + 1)
    {
      ghost var p0 := Snapshot();
      var threshold := BadThreshold(config);
      r := PassLoop(username, password, start, ticks, threshold);
      PopCounts(p0, config, settings.url, username, password, start, ticks, false, 0, threshold);
      PopBadCount(p0, config, settings.url, username, password, start, ticks, false, 0, threshold);
      PopAcquiredIsLastActive(p0, config, settings.url, username, password, start, ticks, false, 0, threshold);
    }

    /** The while loop of popConnection, one pass per tick, with `threshold` the tolerated number of bad candidates. */
    method PassLoop(username: Option<string>, password: Option<string>, start: int, ticks: seq<Tick>, threshold: int)
      returns (r: PopOutcome)
      requires Valid()
      modifies this
      ensures Valid()
      ensures settings == old(settings) && config == old(config)
      ensures expectedConnectionTypeCode == old(expectedConnectionTypeCode)
      ensures (Snapshot(), r) == PopSpec(old(Snapshot()), config, settings.url, username, password, start, ticks,
                                         false, 0, threshold)
    {
      ghost var p0 := Snapshot();
      var countedWait := false;
      var localBadConnectionCount := 0;
      var i := 0;
      while i < |ticks|
        invariant 0 <= i <= |ticks| && Valid()
        invariant settings == old(settings) && config == old(config)
        invariant expectedConnectionTypeCode == old(expectedConnectionTypeCode)
        invariant PopSpec(p0, config, settings.url, username, password, start, ticks, false, 0, threshold)
          == PopSpec(Snapshot(), config, settings.url, username, password, start, ticks[i..],
                     countedWait, localBadConnectionCount, threshold)
      {
        var tick := ticks[i];
        assert ticks[i..][0] == tick && ticks[i..][1..] == ticks[i + 1..];
        var claim := ClaimCandidate(tick, countedWait);
        match claim {
          case Waited =>
            countedWait := true;
          case Interrupted =>
            return Failed(UnknownSevereError);
          case Thrown(e) =>
            return Failed(e);
          case Candidate(c) =>
            var acquired := Checkout(c, username, password, start, tick.now, tick.probe);
            if acquired.Some? {
              return Acquired(acquired.value);
            }
            localBadConnectionCount := localBadConnectionCount + 1;
            if localBadConnectionCount > threshold {
              return Failed(CouldNotGetGoodConnection);
            }
        }
        i := i + 1;
      }
      assert ticks[i..] == [];
      return StillWaiting;
    }

    /** The expected type code is the one of the data source's own url, username and password. */
    ghost predicate TypeCodeCurrent()
      reads this
    {
      expectedConnectionTypeCode == AssembleConnectionTypeCode(settings.url, settings.username, settings.password)
    }

    /**
     * getConnection(): popConnection with the data source's own username and
     * password. When the expected type code is current, a connection got
     * this way carries it, so that pushConnection may keep it.
     */
    method GetConnection(start: int, ticks: seq<Tick>) returns (r: PopOutcome)
      requires Valid()
      modifies this
      ensures Valid()
      ensures settings == old(settings) && config == old(config)
      ensures expectedConnectionTypeCode == old(expectedConnectionTypeCode)
      ensures r.Acquired? ==>
        && activeConnections != [] && activeConnections[|activeConnections| - 1] == r.conn
        && r.conn.connectionTypeCode == AssembleConnectionTypeCode(settings.url, settings.username, settings.password)
      ensures r.Acquired? && TypeCodeCurrent() ==> r.conn.connectionTypeCode == expectedConnectionTypeCode
      ensures (Snapshot(), r) == PopSpec(old(Snapshot()), config, settings.url, settings.username, settings.password,
                                         start, ticks, false, 0, BadThreshold(config))
    {
      r := PopConnection(settings.username, settings.password, start, ticks);
    }
  }
}
