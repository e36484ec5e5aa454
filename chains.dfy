/** Statements that use a logger the way its callers do: one full expression
    `log << a1 << ... << aN;`, whose temporaries C++ destroys at the end of
    the expression, last created first. */
module Chains {
  import opened Levels
  import opened Record
  import opened Sink
  import opened Zap
  import opened Lifetime

  /** The appends of `log << args[0] << ... << args[N-1]` on a root `log`
      whose clock reads `millis`: the temporaries it creates, in order, with
      arg_counts 1..N, all sharing one fresh flag when N >= 2 and none
      otherwise; `log` itself ends as it began. */
  method Build(log: Logger, args: seq<string>, millis: int) returns (values: seq<Logger>, ghost flag: Flag?)
    requires log.isRoot && log.argCount == 0 && log.isFlushed == null
    modifies log, log.out
    ensures log.lvl == old(log.lvl) && log.isRoot && log.argCount == 0 && log.isFlushed == null
    ensures log.out == old(log.out)
    ensures log.out.chunks == old(log.out.chunks) + ChainChunks(true, Prefix(log.lvl, millis), 0, args)
    ensures |values| == |args|
    ensures forall k :: 0 <= k < |args| ==> fresh(values[k]) && values[k].lvl == log.lvl && values[k].out == log.out
    ensures forall k :: 0 <= k < |args| ==> !values[k].isRoot && values[k].argCount == k + 1
    ensures forall k :: 0 <= k < |args| ==> values[k].isFlushed == flag
    ensures flag != null <==> |args| >= 2
    ensures flag != null ==> fresh(flag) && flag.State() == Cell(false, true)
  {
    var n := |args|;
    ghost var start := log.out.chunks;
    ghost var pre := Prefix(log.lvl, millis);
    values := [];
    var cur := log;
    flag := null;
    var i := 0;
    while i < n
      invariant 0 <= i <= n && |values| == i
      invariant cur == if i == 0 then log else values[i - 1]
      invariant log.lvl == old(log.lvl) && log.isRoot && log.argCount == 0
      invariant log.isFlushed == null && log.out == old(log.out)
      invariant forall k :: 0 <= k < i ==> fresh(values[k]) && values[k].lvl == log.lvl && values[k].out == log.out
      invariant forall k :: 0 <= k < i ==> !values[k].isRoot && values[k].argCount == k + 1
      invariant forall k :: 0 <= k < i ==> values[k].isFlushed == flag
      invariant flag != null <==> i >= 2
      invariant flag != null ==> fresh(flag) && flag.State() == Cell(false, true)
      invariant log.out.chunks == start + ChainChunks(true, pre, 0, args[..i])
    {
      ChainSnoc(true, pre, 0, args[..i], args[i]);
      assert args[..i + 1] == args[..i] + [args[i]];
      var next := cur.Append(args[i], millis);
      if i == 1 {
        flag := cur.isFlushed;
      }
      values := values + [next];
      cur := next;
      i := i + 1;
    }
    assert args[..n] == args;
  }

  /** The end of the full expression: the temporaries `values` (arg_counts
      1..N, sharing `flag` exactly when N >= 2) are destroyed last created
      first. This is Run on the order Countdown(N): the value with arg_count N
      writes the closing (`closedBy`), the value with arg_count 1 deletes the
      flag afterwards (`freedBy`), and each destructor's precondition shows
      that none reads the flag after its delete. A single temporary has no
      flag and writes nothing. */
  method DestroyAll(values: seq<Logger>, ghost flag: Flag?, ghost out: Stream)
    returns (ghost closedBy: int, ghost freedBy: int)
    requires forall k :: 0 <= k < |values| ==> values[k].argCount == k + 1 && values[k].out == out
    requires forall k :: 0 <= k < |values| ==> values[k].isFlushed == flag
    requires flag != null <==> |values| >= 2
    requires flag != null ==> flag.State() == Cell(false, true)
    modifies set k | 0 <= k < |values| :: values[k]
    modifies out, flag
    ensures out.chunks == old(out.chunks) + (if |values| >= 2 then Close else [])
    ensures flag != null ==> flag.State() == Cell(true, false)
    ensures flag != null ==> Run(Countdown(|values|), Cell(false, true)) == Done(1, flag.State())
    ensures closedBy == (if |values| >= 2 then |values| else 0)
    ensures freedBy == (if |values| >= 2 then 1 else 0)
  {
    var n := |values|;
    ghost var start := out.chunks;
    closedBy, freedBy := 0, 0;
    var j := n;
    while j > 0
      invariant 0 <= j <= n
      invariant forall k :: 0 <= k < n ==> values[k].argCount == k + 1 && values[k].out == out
      invariant forall k :: 0 <= k < j ==> values[k].isFlushed == flag
      invariant flag != null ==> flag.live == (j > 0) && flag.value == (j < n)
      invariant flag != null ==> Run(Countdown(n)[..n - j], Cell(false, true)) == Done(if j < n then 1 else 0, flag.State())
      invariant out.chunks == start + (if n >= 2 && j < n then Close else [])
      invariant closedBy == (if n >= 2 && j < n then n else 0)
      invariant freedBy == (if n >= 2 && j == 0 then 1 else 0)
    {
      RunSnoc(Countdown(n)[..n - j], j, Cell(false, true));
      CountdownAt(n, n - j);
      assert Countdown(n)[..n - j + 1] == Countdown(n)[..n - j] + [j];
      j := j - 1;
      ghost var written := |out.chunks|;
      ghost var wasLive := flag != null && flag.live;
      values[j].Destroy();
      if |out.chunks| != written {
        closedBy := values[j].argCount;
      }
      if wasLive && !flag.live {
        freedBy := values[j].argCount;
      }
    }
    assert Countdown(n)[..n] == Countdown(n);
    if flag != null {
      ReverseOrderSafe(n);
    }
  }

  /** The statement `log << args[0] << ... << args[N-1];` on a root `log`
      whose clock reads `millis`: the appends, then the destruction of the
      temporaries. The stream receives exactly StatementChunks (one record,
      closed once, and only if N >= 2); a flag is allocated exactly when
      N >= 2 and is deleted by the end; `log` ends as it began, so the next
      statement on it starts a new record. */
  method Statement(log: Logger, args: seq<string>, millis: int) returns (ghost flag: Flag?)
    requires log.isRoot && log.argCount == 0 && log.isFlushed == null
    modifies log, log.out
    ensures log.lvl == old(log.lvl) && log.isRoot && log.argCount == 0 && log.isFlushed == null
    ensures log.out == old(log.out)
    ensures log.out.chunks == old(log.out.chunks) + StatementChunks(log.lvl, millis, args)
    ensures flag != null <==> |args| >= 2
    ensures flag != null ==> fresh(flag) && flag.State() == Cell(true, false)
  {
    var values;
    values, flag := Build(log, args, millis);
    ghost var closedBy, freedBy := DestroyAll(values, flag, log.out);
  }

  /** The same root used in two statements writes two records, one after the
      other, each with its own prefix (as the benchmark does in its loop). */
  method TwoStatements(log: Logger, first: seq<string>, millis1: int, second: seq<string>, millis2: int)
    requires log.isRoot && log.argCount == 0 && log.isFlushed == null
    modifies log, log.out
    ensures log.lvl == old(log.lvl) && log.isRoot && log.argCount == 0 && log.isFlushed == null
    ensures log.out == old(log.out)
    ensures log.out.chunks
         == old(log.out.chunks) + StatementChunks(log.lvl, millis1, first) + StatementChunks(log.lvl, millis2, second)
  {
    ghost var f1 := Statement(log, first, millis1);
    ghost var f2 := Statement(log, second, millis2);
  }

  /** tests/exception_ocurred.cpp with C++17 evaluation order. In
      `log << "msg" << throw_exception() << ...` the first append runs, then the
      exception leaves the chain at one value, which has no flag, so the record
      is never closed and the handler's message continues its line. In
      `log << throw_exception()` nothing is appended. At the end of main `log`
      is destroyed and writes nothing. */
  method ExceptionOccurred(stdout: Stream, millis: int)
    modifies stdout
    ensures stdout.chunks
         == old(stdout.chunks) + Prefix(INFO, millis)
            + ["msg", "=", "first exception ocurred", "\n", "second exception ocurred", "\n"]
  {
    var log := new Logger(stdout);
    ghost var f := Statement(log, ["msg"], millis);
    stdout.Write("first exception ocurred");
    stdout.Write("\n");
    stdout.Write("second exception ocurred");
    stdout.Write("\n");
    log.Destroy();
  }
}
