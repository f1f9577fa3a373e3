/** The bounded connection pool (ConnectionPool.java), taken one call at a time.

    Connections are values of an arbitrary type H. What the pool learns from the outside
    world during a call (whether a timed poll was interrupted, whether a connection is
    still alive, whether the driver produced a new connection, whether resetting or closing
    a connection threw) is handed to the call as an oracle. A timed poll on the idle queue
    yields its head when the queue is not empty and nothing otherwise: with a single caller
    nothing can arrive while it waits. */
module Pool {
  import opened Results
  import opened Sequences

  /** `maxPoolSize`, which is also the capacity of the idle queue. */
  const MaxPoolSize: int := 3

  /** Why getConnection threw its SQLException. */
  datatype PoolError =
    | Timeout         // "no connection could be obtained": neither poll gave a live connection at capacity
    | Interrupted     // a timed poll was interrupted
    | CreationFailed  // createNewConnection threw

  /** The outside world's answers during one getConnection call. */
  datatype AcquireOracle<!H> = AcquireOracle(
    firstPollInterrupted: bool,  // the 3-second poll throws InterruptedException
    isValid: H -> bool,          // isValidConnection
    created: Option<H>,          // createNewConnection: a new connection, or None when it throws
    secondPollInterrupted: bool) // the 5-second poll throws InterruptedException

  /** The outside world's answers during one releaseConnection call. */
  datatype ReleaseOracle = ReleaseOracle(
    resetThrows: bool,      // rollback / setAutoCommit / clearWarnings throws
    closeThrows: bool,      // close() of a connection the full queue refused throws
    retryCloseThrows: bool) // close() in the exception handler throws

  /** The outside world's answers during closeAllConnections. */
  datatype CloseOracle<!H> = CloseOracle(
    isClosed: H -> bool,    // the connection reports itself closed already
    closeThrows: H -> bool) // closing it throws (logged and skipped)

  /** Everything the pool keeps: the idle queue (head first), `createdConnections`,
      and the connections it has closed so far, oldest first. */
  datatype PoolState<H> = PoolState(idle: seq<H>, created: int, closed: seq<H>)

  /** The state after getConnection and what the call returned or threw. */
  datatype Acquired<H> = Acquired(state: PoolState<H>, result: Result<H, PoolError>)

  /** The pool a process starts with. */
  function Initial<H>(): PoolState<H> {
    PoolState([], 0, [])
  }

  /** `getAvailableConnectionsCount()`. */
  function Available<H>(s: PoolState<H>): int {
    |s.idle|
  }

  /** `getUsedConnectionsCount()`: what the counter says is checked out. */
  function Used<H>(s: PoolState<H>): int {
    s.created - |s.idle|
  }

  /** The bounds the code keeps: the counter never passes maxPoolSize and the queue never holds more. */
  predicate Bounded<H>(s: PoolState<H>) {
    s.created <= MaxPoolSize && |s.idle| <= MaxPoolSize
  }

  /** A timed poll that is not interrupted: the queue without its head. */
  function AfterPoll<H>(q: seq<H>): (r: seq<H>)
    ensures q == [] ==> r == []
    ensures q != [] ==> r == q[1..]
  {
    if q == [] then [] else q[1..]
  }

  /** getConnection (ConnectionPool.java:54-79). */
  function Acquire<H>(s: PoolState<H>, o: AcquireOracle<H>): (a: Acquired<H>)
    // only the creation of a new connection moves the counter, by one, and only below capacity
    ensures a.state.created == s.created
         || (a.state.created == s.created + 1 && s.created < MaxPoolSize
             && o.created.Some? && a.result == Ok(o.created.value))
    // the queue only loses entries, from its head, at most one per poll
    ensures |s.idle| - 2 <= |a.state.idle| <= |s.idle| && a.state.idle == s.idle[|s.idle| - |a.state.idle|..]
    // a reused connection was at the head of the queue and passed validation
    ensures a.result.Ok? && a.state.created == s.created ==>
              a.result.value in s.idle[..|s.idle| - |a.state.idle|] && o.isValid(a.result.value)
    // a failed call never moves the counter
    ensures a.result.Err? ==> a.state.created == s.created
    ensures a.state.closed == s.closed
  {
    if o.firstPollInterrupted then Acquired(s, Err(Interrupted))
    else
      var s1 := s.(idle := AfterPoll(s.idle));
      if |s.idle| > 0 && o.isValid(s.idle[0]) then Acquired(s1, Ok(s.idle[0]))
      else if s.created < MaxPoolSize then
        match o.created
        case Some(h) => Acquired(s1.(created := s.created + 1), Ok(h))
        case None => Acquired(s1, Err(CreationFailed))
      else if o.secondPollInterrupted then Acquired(s1, Err(Interrupted))
      else if |s1.idle| > 0 && o.isValid(s1.idle[0]) then Acquired(s1.(idle := s1.idle[1..]), Ok(s1.idle[0]))
      else Acquired(s1.(idle := AfterPoll(s1.idle)), Err(Timeout))
  }

  /** Closes a connection and forgets it: `connection.close(); createdConnections--`. */
  function Discard<H>(s: PoolState<H>, h: H): (t: PoolState<H>)
    // the getters see one connection fewer in use and the same number available
    ensures Available(t) == Available(s) && Used(t) == Used(s) - 1
    ensures t.closed == s.closed + [h] && t.idle == s.idle
  {
    s.(created := s.created - 1, closed := s.closed + [h])
  }

  /** releaseConnection (ConnectionPool.java:107-130). Where the connection came from is not checked. */
  function Release<H>(s: PoolState<H>, conn: Option<H>, o: ReleaseOracle): (t: PoolState<H>)
    ensures conn.None? ==> t == s
    // either the connection goes back on the queue, with the counter unchanged ...
    ensures conn.Some? && !o.resetThrows && |s.idle| < MaxPoolSize ==>
              t == s.(idle := s.idle + [conn.value])
    // ... or it is closed and the counter falls by one, unless every close attempt threw
    ensures conn.Some? && (o.resetThrows || |s.idle| >= MaxPoolSize) ==>
              t == (if (o.resetThrows || o.closeThrows) && o.retryCloseThrows then s else Discard(s, conn.value))
    ensures |t.idle| <= MaxPoolSize || t.idle == s.idle
  {
    match conn
    case None => s
    case Some(h) =>
      if o.resetThrows then CloseAfterFailure(s, h, o)
      else if |s.idle| < MaxPoolSize then s.(idle := s.idle + [h])
      else if o.closeThrows then CloseAfterFailure(s, h, o)
      else Discard(s, h)
  }

  /** The exception handler of releaseConnection: close, and count down only if that worked. */
  function CloseAfterFailure<H>(s: PoolState<H>, h: H, o: ReleaseOracle): (t: PoolState<H>)
    // the state changes exactly when the retried close works, and then h is closed and no longer counted
    ensures t == s <==> o.retryCloseThrows
    ensures t != s ==> t.closed == s.closed + [h] && Used(t) == Used(s) - 1 && Available(t) == Available(s)
  {
    if o.retryCloseThrows then s else Discard(s, h)
  }

  /** The connections closeAllConnections actually closes: open ones whose close does not throw. */
  function ClosesCleanly<H>(o: CloseOracle<H>): H -> bool {
    (h: H) => !o.isClosed(h) && !o.closeThrows(h)
  }

  /** closeAllConnections (ConnectionPool.java:132-140). Checked-out connections are not reclaimed. */
  function Teardown<H>(s: PoolState<H>, o: CloseOracle<H>): (t: PoolState<H>)
    ensures t.idle == [] && t.created == 0
    ensures Available(t) == 0 && Used(t) == 0
    ensures |s.closed| <= |t.closed| <= |s.closed| + |s.idle| && t.closed[..|s.closed|] == s.closed
    ensures forall i | |s.closed| <= i < |t.closed| :: t.closed[i] in s.idle
    ensures forall i | |s.closed| <= i < |t.closed| :: ClosesCleanly(o)(t.closed[i])
    ensures forall h | h in s.idle && ClosesCleanly(o)(h) :: h in t.closed[|s.closed|..]
  {
    var cleanly := Filter(s.idle, ClosesCleanly(o));
    FilterMembership(s.idle, ClosesCleanly(o));
    assert (s.closed + cleanly)[|s.closed|..] == cleanly;
    PoolState([], 0, s.closed + cleanly)
  }

  // ---------------------------------------------------------------------------
  // Runs of calls.

  /** One public call, with the oracle that answers it. */
  datatype Call<!H> =
    | AcquireCall(ao: AcquireOracle<H>)
    | ReleaseCall(conn: Option<H>, ro: ReleaseOracle)
    | TeardownCall(co: CloseOracle<H>)

  function Step<H>(s: PoolState<H>, c: Call<H>): PoolState<H> {
    match c
    case AcquireCall(ao) => Acquire(s, ao).state
    case ReleaseCall(conn, ro) => Release(s, conn, ro)
    case TeardownCall(co) => Teardown(s, co)
  }

  /** The state after the calls, one after another. */
  function Run<H>(s: PoolState<H>, calls: seq<Call<H>>): PoolState<H>
    decreases |calls|
  {
    if calls == [] then s else Run(Step(s, calls[0]), calls[1..])
  }

  /** Every call keeps the counter at or below maxPoolSize and the queue within its capacity. */
  lemma StepKeepsBounds<H>(s: PoolState<H>, c: Call<H>)
    requires Bounded(s)
    ensures Bounded(Step(s, c))
  {
  }

  /** Hence so does every run: the bounds hold in every reachable state. */
  lemma {:induction false} RunKeepsBounds<H>(s: PoolState<H>, calls: seq<Call<H>>)
    requires Bounded(s)
    ensures Bounded(Run(s, calls))
    decreases |calls|
  {
    if calls != [] {
      StepKeepsBounds(s, calls[0]);
      RunKeepsBounds(Step(s, calls[0]), calls[1..]);
    }
  }

  /** The counter bound holds from the start, whatever the callers do. */
  lemma ReachableStatesAreBounded<H>(calls: seq<Call<H>>)
    ensures Run(Initial<H>(), calls).created <= MaxPoolSize
    ensures |Run(Initial<H>(), calls).idle| <= MaxPoolSize
  {
    RunKeepsBounds(Initial<H>(), calls);
  }

  // ---------------------------------------------------------------------------
  // The individual behaviours of getConnection.

  /** A live connection from the first poll is handed out and the counter stays put. */
  lemma AcquireReusesLiveIdle<H>(s: PoolState<H>, o: AcquireOracle<H>)
    requires !o.firstPollInterrupted && |s.idle| > 0 && o.isValid(s.idle[0])
    ensures Acquire(s, o) == Acquired(s.(idle := s.idle[1..]), Ok(s.idle[0]))
  {
  }

  /** With no live idle connection and room below capacity, a new connection is created and
      counted; when creation throws, nothing is counted. */
  lemma AcquireCreatesBelowCapacity<H>(s: PoolState<H>, o: AcquireOracle<H>)
    requires !o.firstPollInterrupted
    requires |s.idle| == 0 || !o.isValid(s.idle[0])
    requires s.created < MaxPoolSize
    ensures o.created.Some? ==> Acquire(s, o) == Acquired(PoolState(AfterPoll(s.idle), s.created + 1, s.closed), Ok(o.created.value))
    ensures o.created.None? ==> Acquire(s, o) == Acquired(PoolState(AfterPoll(s.idle), s.created, s.closed), Err(CreationFailed))
  {
    var s1 := s.(idle := AfterPoll(s.idle));
    assert s1 == PoolState(AfterPoll(s.idle), s.created, s.closed);
  }

  /** A dead connection taken from the queue is dropped without counting it down. */
  lemma AcquireDropsDeadIdle<H>(s: PoolState<H>, o: AcquireOracle<H>)
    requires !o.firstPollInterrupted && |s.idle| > 0 && !o.isValid(s.idle[0])
    ensures var a := Acquire(s, o);
            a.result.Ok? && a.state.created == s.created ==>
              |s.idle| > 1 && a.result.value == s.idle[1] && a.state.idle == s.idle[2..]
    ensures Acquire(s, o).state.created >= s.created
    ensures |Acquire(s, o).state.idle| < |s.idle|
  {
  }

  /** At capacity, when neither poll gives a live connection, the call times out and the
      counter stays put, although up to two dead connections left the queue. */
  lemma AcquireTimesOutAtCapacity<H>(s: PoolState<H>, o: AcquireOracle<H>)
    requires !o.firstPollInterrupted && !o.secondPollInterrupted
    requires s.created >= MaxPoolSize
    requires |s.idle| == 0 || !o.isValid(s.idle[0])
    requires |s.idle| <= 1 || !o.isValid(s.idle[1])
    ensures Acquire(s, o).result == Err(Timeout)
    ensures Acquire(s, o).state == s.(idle := AfterPoll(AfterPoll(s.idle)))
  {
  }

  /** Dropping dead connections without counting them down leaks capacity: a full pool of
      dead idle connections times out and afterwards still counts every slot as used. */
  lemma DeadIdleConnectionsLeakCapacity(o: AcquireOracle<int>)
    requires !o.firstPollInterrupted && !o.secondPollInterrupted
    requires !o.isValid(1) && !o.isValid(2)
    ensures var a := Acquire(PoolState([1, 2, 3], 3, []), o);
            a.result == Err(Timeout) && a.state.created == MaxPoolSize && Used(a.state) == 2
  {
  }

  /** An interrupted first poll changes nothing. */
  lemma AcquireInterruptedFirst<H>(s: PoolState<H>, o: AcquireOracle<H>)
    requires o.firstPollInterrupted
    ensures Acquire(s, o) == Acquired(s, Err(Interrupted))
  {
  }

  // ---------------------------------------------------------------------------
  // releaseConnection and the counts the getters report.

  /** Returning a connection while the queue has room: one more available, one fewer used. */
  lemma ReleaseWithRoomMovesOneToAvailable<H>(s: PoolState<H>, h: H, o: ReleaseOracle)
    requires !o.resetThrows && |s.idle| < MaxPoolSize
    ensures Available(Release(s, Some(h), o)) == Available(s) + 1
    ensures Used(Release(s, Some(h), o)) == Used(s) - 1
    ensures Release(s, Some(h), o).created == s.created
  {
  }

  /** Taking a new connection and giving it back leaves it idle and the used count where it was. */
  lemma CreateThenReleaseRoundTrip<H>(s: PoolState<H>, o: AcquireOracle<H>, ro: ReleaseOracle)
    requires !o.firstPollInterrupted && s.idle == [] && s.created < MaxPoolSize && o.created.Some?
    requires !ro.resetThrows
    ensures var a := Acquire(s, o);
            a.result == Ok(o.created.value)
            && Release(a.state, Some(a.result.value), ro) == PoolState([o.created.value], s.created + 1, s.closed)
            && Used(Release(a.state, Some(a.result.value), ro)) == Used(s)
  {
  }

  /** The counter is not a count of live connections: giving back connections the pool never
      handed out pushes the used count below zero, and once the queue is full the counter too. */
  lemma UnmatchedReleasesDriveCountersNegative()
    ensures var ok := ReleaseOracle(false, false, false);
            var s := Run(Initial<int>(), [ReleaseCall(Some(1), ok), ReleaseCall(Some(2), ok), ReleaseCall(Some(3), ok)]);
            Used(s) == -3
            && Run(s, [ReleaseCall(Some(4), ok)]) == PoolState([1, 2, 3], -1, [4])
  {
    var ok := ReleaseOracle(false, false, false);
    var calls := [ReleaseCall(Some(1), ok), ReleaseCall(Some(2), ok), ReleaseCall(Some(3), ok)];
    var s1 := Step(Initial<int>(), calls[0]);
    assert s1 == PoolState([1], 0, []);
    var s2 := Step(s1, calls[1]);
    assert s2 == PoolState([1, 2], 0, []);
    var s3 := Step(s2, calls[2]);
    assert s3 == PoolState([1, 2, 3], 0, []);
    assert Run(s3, []) == s3;
    assert Run(s2, calls[2..]) == s3 by { assert calls[2..][1..] == []; }
    assert Run(s1, calls[1..]) == s3 by { assert calls[1..][1..] == calls[2..]; }
    var s4 := Step(s3, ReleaseCall(Some(4), ok));
    assert s4 == PoolState([1, 2, 3], -1, [4]);
    assert Run(s4, []) == s4;
    assert [ReleaseCall(Some(4), ok)][1..] == [];
  }

  /** With checked-out connections outstanding (available <= created), getConnection keeps it so. */
  lemma AcquireKeepsIdleWithinCount<H>(s: PoolState<H>, o: AcquireOracle<H>)
    requires 0 <= |s.idle| <= s.created
    ensures 0 <= |Acquire(s, o).state.idle| <= Acquire(s, o).state.created
  {
  }

  /** A release keeps available <= created only when something is actually checked out. */
  lemma ReleaseKeepsIdleWithinCount<H>(s: PoolState<H>, h: H, o: ReleaseOracle)
    requires |s.idle| < s.created
    ensures |Release(s, Some(h), o).idle| <= Release(s, Some(h), o).created
  {
  }

  // ---------------------------------------------------------------------------
  // The pool object.

  class ConnectionPool<H> {
    var idle: seq<H>     // availableConnections, head first
    var created: int     // createdConnections
    var closed: seq<H>   // the connections this pool has closed, oldest first

    function State(): PoolState<H>
      reads this
    {
      PoolState(idle, created, closed)
    }

    ghost predicate Valid()
      reads this
    {
      Bounded(State())
    }

    constructor ()
      ensures Valid() && State() == Initial()
    {
      idle, created, closed := [], 0, [];
    }

    /** `availableConnections.poll(timeout)` when it is not interrupted. */
    method Poll() returns (conn: Option<H>)
      modifies this
      ensures conn == (if old(idle) == [] then None else Some(old(idle)[0]))
      ensures idle == AfterPoll(old(idle))
      ensures created == old(created) && closed == old(closed)
    {
      if idle == [] {
        conn := None;
      } else {
        conn := Some(idle[0]);
        idle := idle[1..];
      }
    }

    /** `availableConnections.offer(h)`: appends unless the queue is at capacity. */
    method Offer(h: H) returns (accepted: bool)
      modifies this
      ensures accepted == (|old(idle)| < MaxPoolSize)
      ensures idle == if accepted then old(idle) + [h] else old(idle)
      ensures created == old(created) && closed == old(closed)
    {
      if |idle| < MaxPoolSize {
        idle := idle + [h];
        accepted := true;
      } else {
        accepted := false;
      }
    }

    method GetConnection(o: AcquireOracle<H>) returns (r: Result<H, PoolError>)
      requires Valid()
      modifies this
      ensures Valid()
      ensures Acquired(State(), r) == Acquire(old(State()), o)
    {
      if o.firstPollInterrupted {
        return Err(Interrupted);
      }
      var conn := Poll();
      if conn.Some? && o.isValid(conn.value) {
        return Ok(conn.value);
      }
      if created < MaxPoolSize {
        match o.created
        case None =>
          return Err(CreationFailed);
        case Some(h) =>
          created := created + 1;
          return Ok(h);
      }
      if o.secondPollInterrupted {
        return Err(Interrupted);
      }
      conn := Poll();
      if conn.Some? && o.isValid(conn.value) {
        return Ok(conn.value);
      }
      return Err(Timeout);
    }

    method ReleaseConnection(conn: Option<H>, o: ReleaseOracle)
      requires Valid()
      modifies this
      ensures Valid()
      ensures State() == Release(old(State()), conn, o)
    {
      if conn.None? {
        return;
      }
      var h := conn.value;
      if !o.resetThrows {
        var accepted := Offer(h);
        if accepted {
          return;
        }
        if !o.closeThrows {
          closed := closed + [h];
          created := created - 1;
          return;
        }
      }
      // the SQLException handler: close once more, and count down only if that worked
      if !o.retryCloseThrows {
        closed := closed + [h];
        created := created - 1;
      }
    }

    /** closeConnection: close an idle connection unless it is closed already; failures are swallowed. */
    method CloseConnection(h: H, o: CloseOracle<H>)
      modifies this
      ensures closed == old(closed) + (if ClosesCleanly(o)(h) then [h] else [])
      ensures idle == old(idle) && created == old(created)
    {
      if !o.isClosed(h) && !o.closeThrows(h) {
        closed := closed + [h];
      }
    }

    method CloseAllConnections(o: CloseOracle<H>)
      requires Valid()
      modifies this
      ensures Valid()
      ensures State() == Teardown(old(State()), o)
    {
      var i := 0;
      while i < |idle|
        invariant 0 <= i <= |idle|
        invariant idle == old(idle) && created == old(created)
        invariant closed == old(closed) + Filter(idle[..i], ClosesCleanly(o))
      {
        FilterAppend(idle[..i], idle[i], ClosesCleanly(o));
        assert idle[..i + 1] == idle[..i] + [idle[i]];
        CloseConnection(idle[i], o);
        i := i + 1;
      }
      assert idle[..i] == idle;
      idle := [];
      created := 0;
    }

    method GetAvailableConnectionsCount() returns (n: int)
      ensures n == Available(State()) && 0 <= n
    {
      n := |idle|;
    }

    method GetUsedConnectionsCount() returns (n: int)
      ensures n + |idle| == created
      ensures n == Used(State())
    {
      n := created - |idle|;
    }
  }
}
