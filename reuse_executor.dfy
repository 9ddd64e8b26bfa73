/**
 * ReuseExecutor: an executor that caches one JDBC statement per SQL text
 * and reuses it while its connection is open. Flushing (on commit,
 * rollback and close) closes every cached statement and empties the cache.
 *
 * Statement preparation, parameter binding, the transaction timeout and
 * closing are JDBC calls: the model records which statement each of them
 * was applied to. Whether a statement's connection reports itself closed
 * is an input.
 */
module ReuseExecutor {
  import opened Wrappers
  import opened Collections

  /** A prepared JDBC statement; `id` tells statements apart. */
  datatype Statement = Statement(id: nat, sql: string)

  /**
   * What statement.getConnection().isClosed() does for a cached statement:
   * answers open, answers closed, or throws SQLException.
   */
  datatype ConnectionStatus = Open | Closed | Throws

  /** BatchResult is not part of this model: a flush returns a list of them, always empty here. */
  datatype BatchResult = BatchResult(sql: string)

  /** No statement is stored under two keys. */
  ghost predicate Injective(m: map<string, Statement>)
  {
    forall a, b | a in m && b in m && a != b :: m[a] != m[b]
  }

  /**
   * `after` extends `before` by the statements of `m`, each exactly once,
   * in some order.
   */
  ghost predicate ClosesEachOnce(before: seq<Statement>, after: seq<Statement>, m: map<string, Statement>)
  {
    && |after| == |before| + |m|
    && after[..|before|] == before
    && (forall s | s in after[|before|..] :: s in m.Values)
    && (forall sql | sql in m :: m[sql] in after[|before|..])
    && Distinct(after[|before|..])
  }

  /** The statements stored under `keys`, in the order of the keys. */
  ghost function Images(m: map<string, Statement>, keys: seq<string>): (r: seq<Statement>)
    requires forall i | 0 <= i < |keys| :: keys[i] in m
    ensures |r| == |keys| && forall i | 0 <= i < |keys| :: r[i] == m[keys[i]]
  {
    seq(|keys|, i requires 0 <= i < |keys| => m[keys[i]])
  }

  /** Listing every key of an injective map once lists every statement once. */
  lemma ImagesOfAllKeys(m: map<string, Statement>, keys: seq<string>)
    requires Injective(m) && Distinct(keys)
    requires forall i | 0 <= i < |keys| :: keys[i] in m
    requires forall k | k in m :: k in keys
    ensures |keys| == |m.Keys|
    ensures forall s | s in Images(m, keys) :: s in m.Values
    ensures forall k | k in m :: m[k] in Images(m, keys)
    ensures Distinct(Images(m, keys))
  {
    var r := Images(m, keys);
    forall k | k in m
      ensures m[k] in r
    {
      var i :| 0 <= i < |keys| && keys[i] == k;
      assert r[i] == m[k];
    }
    DistinctCardinality(keys, m.Keys);
  }

  /** A duplicate-free listing of every element of a set has the set's size. */
  lemma {:induction false} DistinctCardinality<T>(keys: seq<T>, s: set<T>)
    requires Distinct(keys)
    requires forall i | 0 <= i < |keys| :: keys[i] in s
    requires forall k | k in s :: k in keys
    ensures |keys| == |s|
  {
    if keys != [] {
      var last := keys[|keys| - 1];
      var init := keys[..|keys| - 1];
      assert last !in init;
      forall k | k in s - {last}
        ensures k in init
      {
        var i :| 0 <= i < |keys| && keys[i] == k;
        assert i != |keys| - 1;
        assert init[i] == k;
      }
      DistinctCardinality(init, s - {last});
    } else {
      assert forall k | k in s :: false;
      assert s == {};
    }
  }

  /**
   * Part way through a pass over the keys of `m`: `doneKeys` lists the keys
   * visited, once each, and `todo` holds the others.
   */
  ghost predicate KeysSplit(m: map<string, Statement>, todo: set<string>, doneKeys: seq<string>)
  {
    && todo <= m.Keys && Distinct(doneKeys)
    && (forall i | 0 <= i < |doneKeys| :: doneKeys[i] in m && doneKeys[i] !in todo)
    && (forall k | k in m :: k in todo || k in doneKeys)
  }

  /** Visiting one more key keeps the split and adds that key's statement to the images. */
  lemma VisitKey(m: map<string, Statement>, todo: set<string>, doneKeys: seq<string>, sql: string)
    requires KeysSplit(m, todo, doneKeys) && sql in todo
    ensures KeysSplit(m, todo - {sql}, doneKeys + [sql])
    ensures Images(m, doneKeys + [sql]) == Images(m, doneKeys) + [m[sql]]
  {
  }

  class ReuseExecutor {
    /** statementMap: SQL text to the statement prepared for it. */
    var statementMap: map<string, Statement>
    /** The number of statements prepared so far; the next one gets this id. */
    var prepared: nat
    /** Statements passed to closeStatement, in order. */
    var closedStatements: seq<Statement>
    /** Statements passed to handler.parameterize, in order. */
    var parameterized: seq<Statement>
    /** Statements passed to applyTransactionTimeout, in order. */
    var timeoutApplied: seq<Statement>

    /**
     * Every cached statement was prepared by this executor, is cached under
     * its own SQL text, has not been closed, and no statement is cached
     * under two keys.
     */
    ghost predicate Valid()
      reads this
    {
      && (forall sql | sql in statementMap :: statementMap[sql].id < prepared && statementMap[sql].sql == sql)
      && (forall sql | sql in statementMap :: statementMap[sql] !in closedStatements)
      && (forall s | s in closedStatements :: s.id < prepared)
      && Injective(statementMap)
    }

    constructor ()
      ensures Valid() && statementMap == map[] && prepared == 0
      ensures closedStatements == [] && parameterized == [] && timeoutApplied == []
    {
      statementMap := map[];
      prepared := 0;
      closedStatements := [];
      parameterized := [];
      timeoutApplied := [];
    }

    /**
     * hasStatementFor: the SQL text must be cached and its statement's
     * connection must answer that it is open; an exception counts as no.
     */
    function HasStatementFor(sql: string, status: ConnectionStatus): (b: bool)
      reads this
      ensures b ==> sql in statementMap
      ensures b <==> sql in statementMap && status == Open
    {
      sql in statementMap && match status
        case Open => true
        case Closed => false
        case Throws => false
    }

    /**
     * getStatement: null for an SQL text that is not cached; otherwise a
     * statement this executor prepared for exactly that text and has not
     * closed.
     */
    function GetStatement(sql: string): (s: Option<Statement>)
      reads this
      requires Valid()
      ensures s.Some? <==> sql in statementMap
      ensures s.Some? ==> s.value.sql == sql && s.value.id < prepared && s.value !in closedStatements
    {
      if sql in statementMap then Some(statementMap[sql]) else None
    }

    method PutStatement(sql: string, stmt: Statement)
      modifies this
      ensures statementMap == old(statementMap)[sql := stmt]
      ensures prepared == old(prepared) && closedStatements == old(closedStatements)
      ensures parameterized == old(parameterized) && timeoutApplied == old(timeoutApplied)
    {
      statementMap := statementMap[sql := stmt];
    }

    /**
     * prepareStatement: a live cached statement is reused, with the
     * transaction timeout applied, and the map is untouched; otherwise a new
     * statement is prepared and cached under the SQL text, replacing a
     * stale one. Either way the statement returned is the one cached under
     * the SQL text, and it is parameterized.
     */
    method PrepareStatement(sql: string, status: ConnectionStatus) returns (stmt: Statement)
      requires Valid()
      modifies this
      ensures Valid()
      ensures sql in statementMap && statementMap[sql] == stmt && stmt.sql == sql
      ensures parameterized == old(parameterized) + [stmt]
      ensures closedStatements == old(closedStatements)
      ensures old(HasStatementFor(sql, status)) ==>
        && stmt == old(statementMap)[sql]
        && statementMap == old(statementMap) && prepared == old(prepared)
        && timeoutApplied == old(timeoutApplied) + [stmt]
      ensures !old(HasStatementFor(sql, status)) ==>
        && stmt == Statement(old(prepared), sql)
        && statementMap == old(statementMap)[sql := stmt] && prepared == old(prepared) + 1
        && timeoutApplied == old(timeoutApplied)
    {
      if HasStatementFor(sql, status) {
        var cached := GetStatement(sql);
        stmt := cached.value;
        timeoutApplied := timeoutApplied + [stmt];
      } else {
        stmt := Statement(prepared, sql);
        prepared := prepared + 1;
        PutStatement(sql, stmt);
      }
      parameterized := parameterized + [stmt];
    }

    /**
     * doFlushStatements: every cached statement is closed exactly once,
     * the map is emptied, and the result is an empty list.
     */
    method DoFlushStatements(isRollback: bool) returns (r: seq<BatchResult>)
      requires Valid()
      modifies this
      ensures Valid() && r == [] && statementMap == map[]
      ensures prepared == old(prepared)
      ensures parameterized == old(parameterized) && timeoutApplied == old(timeoutApplied)
      ensures ClosesEachOnce(old(closedStatements), closedStatements, old(statementMap))
    {
      ghost var before := closedStatements;
      CloseEach(statementMap);
      forall s | s in closedStatements
        ensures s.id < prepared
      {
        var i :| 0 <= i < |closedStatements| && closedStatements[i] == s;
        if i < |before| {
          assert closedStatements[..|before|][i] == s;
        } else {
          assert closedStatements[|before|..][i - |before|] == s;
          assert s in statementMap.Values;
          var sql :| sql in statementMap && statementMap[sql] == s;
        }
      }
      statementMap := map[];
      r := [];
    }

    /** The for loop over statementMap.values(), calling closeStatement on each. */
    method CloseEach(m: map<string, Statement>)
      requires Injective(m)
      modifies this`closedStatements
      ensures ClosesEachOnce(old(closedStatements), closedStatements, m)
    {
      var todo := m.Keys;
      ghost var doneKeys: seq<string> := [];
      while todo != {}
        invariant KeysSplit(m, todo, doneKeys)
        invariant closedStatements == old(closedStatements) + Images(m, doneKeys)
        decreases todo
      {
        var sql :| sql in todo;
        VisitKey(m, todo, doneKeys, sql);
        closedStatements := closedStatements + [m[sql]];
        doneKeys := doneKeys + [sql];
        todo := todo - {sql};
      }
      ImagesOfAllKeys(m, doneKeys);
      assert closedStatements[|old(closedStatements)|..] == Images(m, doneKeys);
    }
  }
}
