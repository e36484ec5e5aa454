/** The chained record builder `zap::logger` (logger.hpp, logger.cpp). */
module Zap {
  import opened Levels
  import opened Format
  import opened Record
  import opened Sink
  import opened Lifetime

  /** The heap cell behind `bool *isFlushed`. `new bool(false)` yields a live
      cell; `delete` kills it. The ghost field `live` records whether the cell
      may still be read, so that a use after `delete` is a
      precondition failure here. */
  class Flag {
    var value: bool
    ghost var live: bool

    /** `new bool(value)` */
    constructor(value: bool)
      ensures this.value == value && live
    {
      this.value := value;
      live := true;
    }

    /** The cell's state, as Lifetime sees it. */
    ghost function State(): Cell
      reads this
    {
      Cell(value, live)
    }
  }

  class Logger {
    var lvl: Level
    var isRoot: bool
    var isFlushed: Flag?
    var argCount: int
    var out: Stream

    /** `logger()`: the member defaults (level INFO, a root, no flag, no
        arguments yet) and `out` pointing at standard output, which the caller
        supplies as `stdout`. */
    constructor(stdout: Stream)
      ensures lvl == INFO && isRoot && isFlushed == null && argCount == 0
      ensures out == stdout
    {
      lvl := INFO;
      isRoot := true;
      isFlushed := null;
      argCount := 0;
      out := stdout;
    }

    /** The implicit copy constructor behind `auto res = *this`: every field
        is copied, so the copy shares the flag pointer and the stream. */
    constructor Copy(from: Logger)
      ensures lvl == from.lvl && isRoot == from.isRoot && isFlushed == from.isFlushed
      ensures argCount == from.argCount && out == from.out
    {
      lvl := from.lvl;
      isRoot := from.isRoot;
      isFlushed := from.isFlushed;
      argCount := from.argCount;
      out := from.out;
    }

    /** `setLvl` changes the level and nothing else. */
    method SetLvl(lvl: Level)
      modifies this
      ensures this.lvl == lvl
      ensures isRoot == old(isRoot) && isFlushed == old(isFlushed) && argCount == old(argCount) && out == old(out)
    {
      this.lvl := lvl;
    }

    /** `setOstream` changes the stream and nothing else. */
    method SetOstream(out: Stream)
      modifies this
      ensures this.out == out
      ensures lvl == old(lvl) && isRoot == old(isRoot) && isFlushed == old(isFlushed) && argCount == old(argCount)
    {
      this.out := out;
    }

    /** `operator<<`: a root first writes the timestamp and level (the clock
        reading is `millis`); the argument follows with `=` or a space by the
        parity of arg_count; a receiver with arg_count 1 gets a fresh flag,
        false, before it is copied; the result is a copy that is not a root
        and counts one more argument, and the receiver keeps its isRoot and
        arg_count, so a root starts a fresh record in every statement. */
    method Append(arg: string, millis: int) returns (res: Logger)
      modifies this, out
      ensures out == old(out)
      ensures out.chunks == old(out.chunks) + AppendChunks(old(isRoot), Prefix(lvl, millis), argCount, arg)
      ensures lvl == old(lvl) && isRoot == old(isRoot) && argCount == old(argCount)
      ensures argCount == 1 ==> isFlushed != null && fresh(isFlushed) && !isFlushed.value && isFlushed.live
      ensures argCount != 1 ==> isFlushed == old(isFlushed)
      ensures fresh(res)
      ensures res.lvl == lvl && !res.isRoot && res.argCount == argCount + 1
      ensures res.out == out && res.isFlushed == isFlushed
    {
      if isRoot {
        WritePrefix(millis);
      }
      ghost var mid := out.chunks;
      if argCount == 1 {
        isFlushed := new Flag(false);
      }
      out.Write(arg);
      out.Write(Postfix(argCount));
      assert out.chunks == mid + [arg, Postfix(argCount)];
      var tmp := isRoot;
      isRoot := false;
      res := new Logger.Copy(this);
      res.argCount := res.argCount + 1;
      isRoot := tmp;
    }

    /** The head a root writes before its first argument:
        `{timestamp=`, the clock reading, a space, `lvl=`, the level's name and
        a space. */
    method WritePrefix(millis: int)
      modifies out
      ensures out.chunks == old(out.chunks) + Prefix(lvl, millis)
    {
      var stamp := Decimal(millis);
      var name := ToLevel(lvl);
      out.Write(TimestampKey);
      out.Write(stamp);
      out.Write(" ");
      out.Write(LevelKey);
      out.Write(name);
      out.Write(" ");
    }

    /** `~logger`: if there is a flag and it is still false, write the closing
        and set the shared flag; then the value with arg_count 1, and no other,
        deletes the flag and forgets it. Reading the flag after its delete is
        undefined behaviour, hence the precondition. */
    method Destroy()
      requires isFlushed != null ==> isFlushed.live
      modifies this, out, isFlushed
      ensures out == old(out)
      ensures out.chunks == old(out.chunks) + (if old(isFlushed) != null && Closes(old(isFlushed.State())) then Close else [])
      ensures lvl == old(lvl) && isRoot == old(isRoot) && argCount == old(argCount)
      ensures old(isFlushed) != null ==> old(isFlushed).State() == AfterDestroy(argCount, old(isFlushed.State()))
      ensures isFlushed == if argCount == 1 then null else old(isFlushed)
    {
      if isFlushed != null && !isFlushed.value {
        out.Write(Close[0]);
        out.Write(Close[1]);
        isFlushed.value := true;
      }
      if argCount == 1 {
        if isFlushed != null {
          isFlushed.live := false;
        }
        isFlushed := null;
      }
    }
  }
}
