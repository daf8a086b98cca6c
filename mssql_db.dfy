/** The SQL Server executor `DbMssql` (src/db/mssql.ts): a single-flight guard around the query
    call, reconnection through `open`, and a retry counter for errors that name a lost
    connection. The driver and its pool are an oracle: `driver(k)` is the answer to the `k`-th
    connect or query call the executor makes. */
module MssqlDb {
  import opened Wrappers
  import opened Text
  import opened JsValues

  const MAX_RETRIES: nat := 3

  /** `ERROR_CONNECTION_LOST`. */
  const ConnectionLostMarks: seq<string> := ["ESOCKET", "ECONNRESET", "ETIMEDOUT", "ConnectionError"]

  const ParallelExec: string := "parallel exec not allowed"
  const UseOpen: string := "use \"open\" for connect to database"

  /** A non-empty message names a lost connection when, uppercased, it contains one of the marks,
      uppercased. */
  predicate ConnectionLost(message: string)
  {
    |message| > 0 &&
    exists i :: 0 <= i < |ConnectionLostMarks| && Contains(Upper(message), Upper(ConnectionLostMarks[i]))
  }

  /** The answer of the driver to one connect or query call; a missing error message is "". */
  datatype Reply = Answer(rows: seq<Row>) | Failure(message: string)

  /** `TConnectionMssql`. */
  datatype Connection = Connection(host: string, port: int, database: string, login: string,
                                   password: string, passwordCrypted: bool)

  /** The result of `open`, with the calls made and whether the pool is left connected. */
  datatype Opened = Opened(error: Option<string>, calls: nat, connected: bool)

  /** `open` from call `calls`: connect, then run a non-empty init script once. */
  function OpenSpec(driver: nat -> Reply, calls: nat, init: string): Opened
  {
    match driver(calls)
    case Failure(m) => Opened(Some("error connect to MSSQL: " + m), calls + 1, false)
    case Answer(_) =>
      if |init| == 0 then Opened(None, calls + 1, true)
      else
        match driver(calls + 1)
        case Answer(_) => Opened(None, calls + 2, true)
        case Failure(m) => Opened(Some("error execute: " + m), calls + 2, true)
  }

  /** The result of `exec`, with the calls made and whether the pool is left connected. */
  datatype Outcome = Outcome(result: Result<seq<Row>>, calls: nat, connected: bool)

  /** The retries left after attempt `count`. */
  function RetriesLeft(count: nat): nat
  {
    if count <= MAX_RETRIES + 1 then MAX_RETRIES + 1 - count else 0
  }

  /** The attempts of one `exec` from attempt `count`: reconnect when the pool is gone, then
      query. */
  function RunSpec(driver: nat -> Reply, calls: nat, connected: bool, hasParams: bool, init: string, count: nat): Outcome
    decreases RetriesLeft(count), 1
  {
    if !connected && !hasParams then Outcome(Err(UseOpen), calls, false)
    else
      var o := if connected then Opened(None, calls, true) else OpenSpec(driver, calls, init);
      if o.error.Some? then Outcome(Err(o.error.value), o.calls, o.connected)
      else QuerySpec(driver, o.calls, hasParams, init, count)
  }

  /** The query of attempt `count` at call `calls`; on an error naming a lost connection the pool
      is closed and the next attempt follows while `count <= MAX_RETRIES`. */
  function QuerySpec(driver: nat -> Reply, calls: nat, hasParams: bool, init: string, count: nat): Outcome
    decreases RetriesLeft(count), 0
  {
    match driver(calls)
    case Answer(rows) => Outcome(Ok(rows), calls + 1, true)
    case Failure(m) =>
      if !ConnectionLost(m) || count > MAX_RETRIES then Outcome(Err("error execute: " + m), calls + 1, true)
      else RunSpec(driver, calls + 1, false, hasParams, init, count + 1)
  }

  class DbMssql {
    /** `_busyScript`: the script in flight; "" when none (an empty script does not block). */
    var busyScript: string
    var connectionParams: Option<Connection>
    /** `_pool` is set and connected. */
    var connected: bool
    /** `_initScript`; "" when none. */
    var initScript: string
    /** The driver's answers, by the number of calls made before. */
    const driver: nat -> Reply
    /** The connect and query calls made so far. */
    var calls: nat

    constructor(driver: nat -> Reply)
      ensures busyScript == "" && connectionParams == None && !connected && initScript == ""
      ensures this.driver == driver && calls == 0
    {
      busyScript := "";
      connectionParams := None;
      connected := false;
      initScript := "";
      this.driver := driver;
      calls := 0;
    }

    /** `_isErrorConnectionLost`: the loop over the marks. */
    method IsErrorConnectionLost(errMsg: string) returns (b: bool)
      ensures b == ConnectionLost(errMsg)
    {
      if |errMsg| == 0 {
        return false;
      }
      var msg := Upper(errMsg);
      var i := 0;
      while i < |ConnectionLostMarks|
        invariant 0 <= i <= |ConnectionLostMarks|
        invariant forall j :: 0 <= j < i ==> !Contains(msg, Upper(ConnectionLostMarks[j]))
      {
        if Contains(msg, Upper(ConnectionLostMarks[i])) {
          return true;
        }
        i := i + 1;
      }
      return false;
    }

    /** `close`: the pool is dropped; an error while closing is swallowed. */
    method Close()
      modifies this
      ensures !connected
      ensures busyScript == old(busyScript) && connectionParams == old(connectionParams)
      ensures initScript == old(initScript) && calls == old(calls)
    {
      if connected {
        connected := false;
      }
    }

    /** Creating the pool and connecting it: one driver call. */
    method Connect() returns (error: Option<string>)
      modifies this
      ensures calls == old(calls) + 1
      ensures driver(old(calls)).Failure? ==>
        error == Some("error connect to MSSQL: " + driver(old(calls)).message) && !connected
      ensures driver(old(calls)).Answer? ==> error == None && connected
      ensures busyScript == old(busyScript) && connectionParams == old(connectionParams)
      ensures initScript == old(initScript)
    {
      var reply := driver(calls);
      calls := calls + 1;
      if reply.Failure? {
        connected := false;
        error := Some("error connect to MSSQL: " + reply.message);
      } else {
        connected := true;
        error := None;
      }
    }

    /** `this._pool.request().query(script)`: one driver call. */
    method Query(script: string) returns (reply: Reply)
      modifies this
      ensures reply == driver(old(calls)) && calls == old(calls) + 1
      ensures busyScript == old(busyScript) && connectionParams == old(connectionParams)
      ensures initScript == old(initScript) && connected == old(connected)
    {
      reply := driver(calls);
      calls := calls + 1;
    }

    // -------------------------------------------------------------------------------------------
    // As written

    /** `_exec` as written: the retry and the reconnection's init script both call `_exec` again
        before `finally` has cleared the busy flag, so both meet the single-flight guard. */
    method ExecAsWritten(script: string, count: nat) returns (r: Result<seq<Row>>)
      modifies this
      decreases RetriesLeft(count), if connected then 0 else 2
      ensures |old(busyScript)| > 0 ==>
        r == Err(ParallelExec) && busyScript == old(busyScript) && calls == old(calls) &&
        connected == old(connected) && connectionParams == old(connectionParams) && initScript == old(initScript)
      ensures |old(busyScript)| == 0 ==>
        busyScript == "" && connectionParams == old(connectionParams) && initScript == old(initScript)
      ensures |old(busyScript)| == 0 && old(connected) && driver(old(calls)).Answer? ==>
        r == Ok(driver(old(calls)).rows) && calls == old(calls) + 1 && connected
      ensures |old(busyScript)| == 0 && old(connected) && count > MAX_RETRIES && driver(old(calls)).Failure? ==>
        r == Err("error execute: " + driver(old(calls)).message) && calls == old(calls) + 1 && connected
      // a lost connection is never retried
      ensures |old(busyScript)| == 0 && |script| > 0 && old(connected) && count <= MAX_RETRIES &&
              driver(old(calls)).Failure? && ConnectionLost(driver(old(calls)).message) ==>
        r == Err(ParallelExec)
      // reconnecting with an init script always fails
      ensures |old(busyScript)| == 0 && |script| > 0 && !old(connected) && old(connectionParams).Some? &&
              |old(initScript)| > 0 && driver(old(calls)).Answer? ==>
        r == Err(ParallelExec)
    {
      if |busyScript| > 0 {
        return Err(ParallelExec);
      }
      busyScript := script;
      if !connected {
        if connectionParams.None? {
          busyScript := "";
          return Err(UseOpen);
        }
        var e := OpenAsWritten(connectionParams.value, initScript);
        if e.Some? {
          busyScript := "";
          return Err(e.value);
        }
      }
      var reply := Query(script);
      if reply.Answer? {
        r := Ok(reply.rows);
      } else {
        var lost := IsErrorConnectionLost(reply.message);
        if !lost || count > MAX_RETRIES {
          r := Err("error execute: " + reply.message);
        } else {
          Close();
          r := ExecAsWritten(script, count + 1);
        }
      }
      busyScript := "";
    }

    /** `open` as written: its init script goes through `_exec`, so it fails while a script is
        in flight. */
    method OpenAsWritten(params: Connection, init: string) returns (error: Option<string>)
      modifies this
      decreases 0, 1
      ensures connectionParams == Some(params) && initScript == init && busyScript == old(busyScript)
      ensures |old(busyScript)| == 0 ==>
        Opened(error, calls, connected) == OpenSpec(driver, old(calls), init)
      ensures |old(busyScript)| > 0 ==>
        calls == old(calls) + 1 && connected == driver(old(calls)).Answer? &&
        error == (if driver(old(calls)).Failure? then Some("error connect to MSSQL: " + driver(old(calls)).message)
                  else if |init| == 0 then None else Some(ParallelExec))
    {
      Close();
      connectionParams := Some(params);
      initScript := init;
      error := Connect();
      if error.None? && |initScript| > 0 {
        var res := ExecAsWritten(initScript, MAX_RETRIES + 1);
        if res.Err? {
          error := Some(res.error);
        }
      }
    }

    // -------------------------------------------------------------------------------------------
    // Corrected

    /** `open` with its init script run directly, once. */
    method Open(params: Connection, init: string) returns (error: Option<string>)
      modifies this
      ensures connectionParams == Some(params) && initScript == init && busyScript == old(busyScript)
      ensures Opened(error, calls, connected) == OpenSpec(driver, old(calls), init)
    {
      Close();
      connectionParams := Some(params);
      initScript := init;
      error := Connect();
      if error.None? && |initScript| > 0 {
        var reply := Query(initScript);
        if reply.Failure? {
          error := Some("error execute: " + reply.message);
        }
      }
    }

    /** `exec`: the guard, then the attempts as a bounded loop under one busy flag, cleared at
        the end. */
    method Exec(script: string) returns (r: Result<seq<Row>>)
      modifies this
      ensures |old(busyScript)| > 0 ==>
        r == Err(ParallelExec) && busyScript == old(busyScript) && calls == old(calls) &&
        connected == old(connected) && connectionParams == old(connectionParams) && initScript == old(initScript)
      ensures |old(busyScript)| == 0 ==>
        var o := RunSpec(driver, old(calls), old(connected), old(connectionParams).Some?, old(initScript), 0);
        r == o.result && calls == o.calls && connected == o.connected &&
        busyScript == "" && connectionParams == old(connectionParams) && initScript == old(initScript)
    {
      if |busyScript| > 0 {
        return Err(ParallelExec);
      }
      busyScript := script;
      r := Attempts(script);
      busyScript := "";
    }

    /** The body of `exec` under the busy flag. */
    method Attempts(script: string) returns (r: Result<seq<Row>>)
      modifies this
      ensures var o := RunSpec(driver, old(calls), old(connected), old(connectionParams).Some?, old(initScript), 0);
        r == o.result && calls == o.calls && connected == o.connected
      ensures busyScript == old(busyScript) && connectionParams == old(connectionParams) && initScript == old(initScript)
    {
      ghost var target := RunSpec(driver, calls, connected, connectionParams.Some?, initScript, 0);
      var count: nat := 0;
      while true
        invariant count <= MAX_RETRIES + 1
        invariant busyScript == old(busyScript) && connectionParams == old(connectionParams)
        invariant initScript == old(initScript)
        invariant RunSpec(driver, calls, connected, connectionParams.Some?, initScript, count) == target
        decreases MAX_RETRIES + 1 - count
      {
        var done;
        done, r := Attempt(script, count);
        if done {
          break;
        }
        count := count + 1;
      }
    }

    /** One attempt: reconnect when the pool is gone, then query; `done` is false exactly when a
        lost connection is to be retried, with the pool closed. */
    method Attempt(script: string, count: nat) returns (done: bool, r: Result<seq<Row>>)
      modifies this
      ensures busyScript == old(busyScript) && connectionParams == old(connectionParams) && initScript == old(initScript)
      ensures var o := RunSpec(driver, old(calls), old(connected), old(connectionParams).Some?, old(initScript), count);
        if done then r == o.result && calls == o.calls && connected == o.connected
        else count <= MAX_RETRIES && RunSpec(driver, calls, connected, connectionParams.Some?, initScript, count + 1) == o
    {
      ghost var target := RunSpec(driver, calls, connected, connectionParams.Some?, initScript, count);
      if !connected {
        if connectionParams.None? {
          return true, Err(UseOpen);
        }
        var e := Open(connectionParams.value, initScript);
        if e.Some? {
          return true, Err(e.value);
        }
      }
      assert QuerySpec(driver, calls, connectionParams.Some?, initScript, count) == target;
      var reply := Query(script);
      if reply.Answer? {
        return true, Ok(reply.rows);
      }
      var lost := IsErrorConnectionLost(reply.message);
      if !lost || count > MAX_RETRIES {
        return true, Err("error execute: " + reply.message);
      }
      assert target == RunSpec(driver, calls, false, connectionParams.Some?, initScript, count + 1);
      Close();
      done, r := false, Err("");
    }
  }

  // ---------------------------------------------------------------------------------------------
  // Properties

  /** The test ignores ASCII case. */
  lemma ConnectionLostIgnoresCase(message: string)
    ensures ConnectionLost(Lower(message)) == ConnectionLost(message)
  {
    assert Upper(Lower(message)) == Upper(message);
  }

  /** Each mark, in any ASCII case, names a lost connection; an empty message never does. */
  lemma MarksAreLost(i: nat)
    requires i < |ConnectionLostMarks|
    ensures ConnectionLost(ConnectionLostMarks[i]) && ConnectionLost(Lower(ConnectionLostMarks[i]))
    ensures !ConnectionLost("")
  {
    var u := Upper(ConnectionLostMarks[i]);
    assert OccursAt(u, u, 0);
    ContainsIff(u, u);
    ConnectionLostIgnoresCase(ConnectionLostMarks[i]);
  }

  /** An error that does not name a lost connection is reported at once, without a retry. */
  lemma RunSpecNotLost(driver: nat -> Reply, calls: nat, hasParams: bool, init: string, count: nat)
    requires driver(calls).Failure? && !ConnectionLost(driver(calls).message)
    ensures RunSpec(driver, calls, true, hasParams, init, count) ==
      Outcome(Err("error execute: " + driver(calls).message), calls + 1, true)
  {
  }

  /** A lost connection is retried: the pool is closed, reopened (running the init script, if
      any) and the query is sent again. */
  lemma RetryRecovers(driver: nat -> Reply, calls: nat, init: string, count: nat)
    requires count <= MAX_RETRIES
    requires driver(calls).Failure? && ConnectionLost(driver(calls).message)
    requires driver(calls + 1).Answer?
    requires |init| > 0 ==> driver(calls + 2).Answer?
    requires var q := if |init| == 0 then calls + 2 else calls + 3; driver(q).Answer?
    ensures var q := if |init| == 0 then calls + 2 else calls + 3;
      RunSpec(driver, calls, true, true, init, count) == Outcome(Ok(driver(q).rows), q + 1, true)
  {
    assert RunSpec(driver, calls, true, true, init, count) == RunSpec(driver, calls + 1, false, true, init, count + 1);
    var o := OpenSpec(driver, calls + 1, init);
    assert o.error == None;
  }

  /** An outcome that made between `low` and `high` calls after `calls`, and whose rows, if any,
      are the answer to its last call. */
  predicate CallsWithin(driver: nat -> Reply, calls: nat, low: nat, high: nat, o: Outcome)
  {
    calls + low <= o.calls <= calls + high &&
    (o.result.Ok? ==> o.calls > calls && driver(o.calls - 1) == Answer(o.result.value))
  }

  /** One `exec` makes at most three driver calls per attempt and at most `MAX_RETRIES + 2`
      attempts; rows it returns are the answer to its last call. */
  lemma {:induction false} RunSpecBounded(driver: nat -> Reply, calls: nat, connected: bool, hasParams: bool, init: string, count: nat)
    ensures CallsWithin(driver, calls, 0, 3 * (RetriesLeft(count) + 1), RunSpec(driver, calls, connected, hasParams, init, count))
    decreases RetriesLeft(count), 1, 0
  {
    var r := RunSpec(driver, calls, connected, hasParams, init, count);
    if connected || hasParams {
      var o := if connected then Opened(None, calls, true) else OpenSpec(driver, calls, init);
      assert calls <= o.calls <= calls + 2;
      if o.error.None? {
        QuerySpecBounded(driver, o.calls, hasParams, init, count);
        assert r == QuerySpec(driver, o.calls, hasParams, init, count);
      } else {
        assert r.result.Err? && r.calls == o.calls;
      }
    } else {
      assert r.result.Err? && r.calls == calls;
    }
  }

  lemma {:induction false} QuerySpecBounded(driver: nat -> Reply, calls: nat, hasParams: bool, init: string, count: nat)
    ensures CallsWithin(driver, calls, 1, 1 + 3 * RetriesLeft(count), QuerySpec(driver, calls, hasParams, init, count))
    decreases RetriesLeft(count), 0, 1
  {
    var o := QuerySpec(driver, calls, hasParams, init, count);
    if driver(calls).Failure? {
      var lost := ConnectionLost(driver(calls).message);
      if lost && count <= MAX_RETRIES {
        RetryBounded(driver, calls, hasParams, init, count);
      } else {
        assert o == Outcome(Err("error execute: " + driver(calls).message), calls + 1, true);
      }
    }
  }

  /** A retried query adds at most one query call to the bound of the next attempt. */
  lemma {:induction false} RetryBounded(driver: nat -> Reply, calls: nat, hasParams: bool, init: string, count: nat)
    requires driver(calls).Failure? && ConnectionLost(driver(calls).message) && count <= MAX_RETRIES
    ensures CallsWithin(driver, calls, 1, 1 + 3 * RetriesLeft(count), QuerySpec(driver, calls, hasParams, init, count))
    decreases RetriesLeft(count), 0, 0
  {
    assert RetriesLeft(count) == RetriesLeft(count + 1) + 1;
    RunSpecBounded(driver, calls + 1, false, hasParams, init, count + 1);
    assert QuerySpec(driver, calls, hasParams, init, count) == RunSpec(driver, calls + 1, false, hasParams, init, count + 1);
  }
}
