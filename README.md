# zap::logger in Dafny

A model of `zap::logger`, a chained builder of structured log records. A
statement such as

    log << "msg" << "hello" << "pid" << 12;

writes `{timestamp=<ms> lvl=INFO msg=hello pid=12 ` to the logger's stream as
the appends run. Every `operator<<` returns a copy of its receiver with
`arg_count + 1`. The receiver with `arg_count == 1` allocates a `bool` flag
`isFlushed`, and every later copy in the chain shares it. When the
temporaries are destroyed at the end of the statement, last created first,
the first destructor to find the flag false writes `\b}` and an end of line
and sets the flag. The value with `arg_count == 1` deletes the flag.

Modules:

- `Levels` (levels.dfy): the `LEVEL` enum as its underlying integer, and
  `toLevel`.
- `Format` (format.dfy): the decimal text `<<` writes for the millisecond
  timestamp, and `Text`, the text a list of writes leaves on a stream.
- `Sink` (sink.dfy): the output stream, `Stream`, as the list of its writes.
- `Record` (record.dfy): specification functions for what each append and a
  whole statement write (`AppendChunks`, `ChainChunks`, `StatementChunks`),
  and lemmas about the record format they produce.
- `Lifetime` (lifetime.dfy): the shared flag as a value (`Cell`: its boolean
  and whether it is still allocated). `Run` destroys the values of a chain in
  any order, and the lemmas say which orders are safe.
- `Zap` (logger.dfy): the classes `Flag` (the heap `bool`; `new` makes it
  live, `delete` kills it) and `Logger` (the fields `lvl`, `isRoot`,
  `isFlushed`, `argCount`, `out`). Their methods are the source's
  constructors, setters, `operator<<` (`Append`) and destructor (`Destroy`).
  `Append` and `Destroy` are proved against `Record` and `Lifetime`.
- `Chains` (chains.dfy): statements as callers write them. `Build` runs the
  appends and `DestroyAll` destroys the temporaries last created first;
  `Statement` is the two together. `TwoStatements` reuses one root;
  `ExceptionOccurred` is the exception test program.

Details of the code that the model keeps:

- Every token goes straight to `*out` as the append runs.
- The level key is `lvl=`.
- The flag is allocated by the append whose receiver has arg_count 1. So a
  chain of one append is never closed. This includes the test program, where
  the exception interrupts the chain after its first append.
- The closing is a backspace character followed by `}`, then an end of line.

## Model

| member | source | states |
|---|---|---|
| Levels.ToLevel | logger.cpp:4-18 | Each of the four enumerators gets its name (`DEBUG`, `INFO`, `WARN`, `ERR`); the result is empty if and only if the value is not an enumerator |
| Format.Decimal | logger.hpp:40-43 | The timestamp text is a minus sign for a negative value followed by decimal digits, in canonical form (`0` exactly for zero, otherwise no leading zero), and reading it back gives the value |
| Record.ChainSnoc | logger.hpp:35-63 | Appending one more argument to a chain adds exactly that append's writes; only the first append of a chain on a root writes the prefix |
| Record.ChainFieldAt | logger.hpp:52-53 | Past the prefix, a chain writes argument k and then its separator, which is `=` when the receiver's arg_count is even and a space when it is odd |
| Record.StatementShape | logger.hpp:36-53 | One statement writes the six prefix writes, then argument k at position 6+2k followed by `=` for even k and a space for odd k; it ends with the closing if and only if it had at least two arguments |
| Record.PrefixText | logger.hpp:42-45 | The prefix reads `{timestamp=<millis> lvl=<LEVEL> ` |
| Record.StatementText | logger.hpp:36-53 | A statement's text is the header, then each argument with its separator, then the closing when there were at least two arguments and nothing otherwise |
| Lifetime.RunSnoc | logger.cpp:39-50 | Destroying one more value of a chain extends the run by that destructor's effect on the shared flag |
| Lifetime.RunSafeIff | logger.cpp:39-50 | For any order of destruction: no destructor reads the flag after its delete if and only if the arg_count-1 value is not destroyed before the last position; then exactly one closing is written if the flag started false, and the flag ends deleted exactly when the arg_count-1 value went last |
| Lifetime.ReverseOrderSafe | logger.cpp:39-50 | Destroying N >= 2 values last created first reads no deleted flag, writes the closing once and leaves the flag true and deleted |
| Lifetime.AnyOrderSafeIff | logger.cpp:39-50 | For any permutation of the N >= 2 values, the run is safe if and only if the arg_count-1 value goes last, and then exactly one closing is written |
| Zap.Flag.constructor | logger.hpp:48-50 | `new bool(false)` gives a live cell holding false |
| Zap.Logger.constructor | logger.cpp:20-23 | A default logger is a root with level INFO, arg_count 0, no flag, and `out` set to standard output |
| Zap.Logger.Copy | logger.hpp:58 | The copy has every field of the original, so it shares the flag pointer and the stream |
| Zap.Logger.SetLvl | logger.cpp:30-33 | Only the level changes |
| Zap.Logger.SetOstream | logger.cpp:34-37 | Only the stream changes |
| Zap.Logger.WritePrefix | logger.hpp:36-46 | A root's head is written as `{timestamp=`, the clock reading, a space, `lvl=`, the level's name and a space, and nothing else is written |
| Zap.Logger.Append | logger.hpp:35-63 | The stream receives the prefix (roots only), the argument and its separator. A receiver with arg_count 1 gets a fresh false flag. The result is a fresh non-root copy with arg_count + 1 and the same level, stream and flag. The receiver keeps its level, isRoot and arg_count |
| Zap.Logger.Destroy | logger.cpp:39-50 | The closing is written exactly when a flag exists and is false. The flag ends true. It is deleted, and the pointer nulled, exactly when arg_count is 1. The flag must not have been deleted before |
| Chains.Build | logger.hpp:35-63 | The appends of one statement write ChainChunks. They create N values with arg_counts 1..N that share one fresh flag exactly when N >= 2. The root is unchanged |
| Chains.DestroyAll | logger.cpp:39-50 | Destroying the values last created first follows Run on N..1. The value with arg_count N writes the only closing, the arg_count-1 value deletes the flag afterwards, and no value reads it after the delete; one value writes nothing |
| Chains.Statement | benchmarks/logger_benchmark.cpp:8-13 | A whole statement writes StatementChunks; a flag exists exactly when N >= 2 and ends true and deleted; the root ends as it began |
| Chains.TwoStatements | benchmarks/logger_benchmark.cpp:7-14 | A root used in two statements writes two complete records one after the other, each with its own prefix |
| Chains.ExceptionOccurred | tests/exception_ocurred.cpp:8-25 | The interrupted chain writes the prefix and `msg=`, is never closed, and the handler's message continues the same line. The second interrupted statement writes nothing |

## Left out

- The clock (`std::chrono::system_clock::now()`) is the `millis` parameter of `Append` and of the statements.
- Generic formatting of an argument of type `T` through `std::ostream <<` is not modelled: each argument is an already-rendered string. `std::endl` is modelled as a `"\n"` write; its flush of the stream is not modelled.
- The constructor `logger(std::ostream *out)` assigns its parameter to itself and leaves the member `out` uninitialised; an uninitialised pointer has no counterpart in Dafny, so this constructor is not part of the model.
- Zap.Logger.Append: `arg_count` is an unbounded integer here, while the source's `long` would overflow after 2^63 appends to one chain.
- Copy elision of `return res;` is not modelled: each append yields exactly one new value, which the caller destroys once.
- C++ exceptions are not modelled. Their effect in the test program is a chain cut short before the next `operator<<` runs.
- The benchmark's loop and `rand()` are not modelled. `TwoStatements` shows what reusing the root across iterations does.
- The `<QWidget>` include is unused and not modelled.
- There are no threads or locks in this code, so none are modelled.
- An object's end of life is not modelled: a value on which `Destroy` has run stays usable in Dafny. `Destroy`'s precondition only forbids reading a deleted flag.
- Zap.Logger.Destroy: on its own it is proved only for the case where the flag is live. Destruction orders other than last-created-first are covered by `Lifetime.Run`, not by running the class methods.
