/** What a chain of `operator<<` calls writes to its stream, write by write,
    as functions of the state the chain starts from. The methods of
    Zap.Logger are proved against these functions. */
module Record {
  import opened Levels
  import opened Format

  const TimestampKey: string := "{timestamp="
  const LevelKey: string := "lvl="

  /** The two writes of the destructor: `"\b}"` (a backspace, erasing the
      separator after the last argument on a terminal, then a closing brace)
      and the end of line of `std::endl`. */
  const Close: seq<string> := [[8 as char, '}'], "\n"]

  /** The writes a root makes before its first argument. */
  function Prefix(lvl: Level, millis: int): seq<string> {
    [TimestampKey, Decimal(millis), " ", LevelKey, ToLevel(lvl), " "]
  }

  /** The separator written after the argument of a receiver whose arg_count is
      `argCount`: `=` after a key (even count), a space after a value (odd). */
  function Postfix(argCount: int): string {
    if argCount % 2 != 0 then " " else "="
  }

  /** The writes of one `operator<<` on a receiver in the given state; `pre`
      is what a root writes first (Prefix of its level and the clock). */
  function AppendChunks(isRoot: bool, pre: seq<string>, argCount: int, arg: string): seq<string> {
    (if isRoot then pre else []) + [arg, Postfix(argCount)]
  }

  /** The writes of `v << args[0] << args[1] << ...` where `v` has the given
      state; every value after the first is a copy with isRoot false. */
  function ChainChunks(isRoot: bool, pre: seq<string>, argCount: int, args: seq<string>): seq<string>
    decreases |args|
  {
    if args == [] then []
    else AppendChunks(isRoot, pre, argCount, args[0]) + ChainChunks(false, pre, argCount + 1, args[1..])
  }

  /** The writes of the statement `log << args[0] << ... ;` on a root `log`
      whose clock reads `millis`: the appends, then the closing, which only a
      chain that allocated the shared flag (two or more appends) ever writes. */
  function StatementChunks(lvl: Level, millis: int, args: seq<string>): seq<string> {
    ChainChunks(true, Prefix(lvl, millis), 0, args) + (if |args| >= 2 then Close else [])
  }

  /** Extending a chain by one argument adds exactly that append's writes. */
  lemma {:induction false} ChainSnoc(isRoot: bool, pre: seq<string>, argCount: int, args: seq<string>, arg: string)
    ensures ChainChunks(isRoot, pre, argCount, args + [arg])
         == ChainChunks(isRoot, pre, argCount, args) + AppendChunks(isRoot && args == [], pre, argCount + |args|, arg)
    decreases |args|
  {
    if args == [] {
      assert args + [arg] == [arg];
    } else {
      assert (args + [arg])[1..] == args[1..] + [arg];
      ChainSnoc(false, pre, argCount + 1, args[1..], arg);
    }
  }

  /** Past the root's prefix, a chain writes each argument followed by its
      separator, and the separators alternate with the receiver's arg_count. */
  lemma {:induction false} ChainFieldAt(pre: seq<string>, argCount: int, args: seq<string>, k: nat)
    requires k < |args|
    ensures |ChainChunks(false, pre, argCount, args)| == 2 * |args|
    ensures ChainChunks(false, pre, argCount, args)[2 * k] == args[k]
    ensures ChainChunks(false, pre, argCount, args)[2 * k + 1] == Postfix(argCount + k)
    decreases |args|
  {
    var rest := args[1..];
    if rest == [] {
      assert |args| == 1;
    } else {
      ChainFieldAt(pre, argCount + 1, rest, if k == 0 then 0 else k - 1);
    }
  }

  /** A chain started at a root writes the root's prefix once, then the same
      writes as a chain of non-roots. */
  lemma RootChain(pre: seq<string>, args: seq<string>)
    requires args != []
    ensures ChainChunks(true, pre, 0, args) == pre + ChainChunks(false, pre, 0, args)
  {
    var first := [args[0], Postfix(0)];
    var rest := ChainChunks(false, pre, 1, args[1..]);
    assert ChainChunks(true, pre, 0, args) == pre + first + rest;
  }

  /** A statement's writes split into the root's prefix, the fields, and the
      closing if any. */
  lemma StatementSplit(lvl: Level, millis: int, args: seq<string>)
    requires args != []
    ensures var pre := Prefix(lvl, millis);
      StatementChunks(lvl, millis, args)
        == pre + (ChainChunks(false, pre, 0, args) + (if |args| >= 2 then Close else []))
  {
    var pre := Prefix(lvl, millis);
    RootChain(pre, args);
    var fields := ChainChunks(false, pre, 0, args);
    var close := if |args| >= 2 then Close else [];
    Assoc(pre, fields, close);
  }

  lemma Assoc<T>(a: seq<T>, b: seq<T>, c: seq<T>)
    ensures (a + b) + c == a + (b + c)
  {
  }

  /** The shape of one statement's writes: the prefix, argument k at chunk
      6 + 2k followed by `=` for even k and a space for odd k, and the closing
      at the end exactly when there were at least two arguments. */
  lemma StatementShape(lvl: Level, millis: int, args: seq<string>, k: nat)
    requires k < |args|
    ensures var s := StatementChunks(lvl, millis, args);
      && |s| == 6 + 2 * |args| + (if |args| >= 2 then 2 else 0)
      && s[..6] == Prefix(lvl, millis)
      && s[6 + 2 * k] == args[k]
      && s[7 + 2 * k] == (if k % 2 == 0 then "=" else " ")
      && (|args| >= 2 ==> s[|s| - 2..] == Close)
      && (s[|s| - 1] == "\n" <==> |args| >= 2)
  {
    var pre := Prefix(lvl, millis);
    var fields := ChainChunks(false, pre, 0, args);
    var close := if |args| >= 2 then Close else [];
    StatementSplit(lvl, millis, args);
    ChainFieldAt(pre, 0, args, k);
    ChainFieldAt(pre, 0, args, |args| - 1);
    var s := pre + (fields + close);
    assert s[6 + 2 * k] == fields[2 * k];
    assert s[7 + 2 * k] == fields[2 * k + 1];
    assert s[..6] == pre;
    if |args| < 2 {
      assert s[|s| - 1] == fields[1];
    }
  }

  /** The fields of a record as text: each argument followed by its separator. */
  function FieldsText(args: seq<string>, argCount: int): string
    decreases |args|
  {
    if args == [] then "" else args[0] + Postfix(argCount) + FieldsText(args[1..], argCount + 1)
  }

  lemma {:induction false} ChainText(pre: seq<string>, argCount: int, args: seq<string>)
    ensures Text(ChainChunks(false, pre, argCount, args)) == FieldsText(args, argCount)
    decreases |args|
  {
    if args != [] {
      var first := [args[0], Postfix(argCount)];
      var rest := ChainChunks(false, pre, argCount + 1, args[1..]);
      assert ChainChunks(false, pre, argCount, args) == first + rest;
      TextAppend(first, rest);
      ChainText(pre, argCount + 1, args[1..]);
      TextPair(args[0], Postfix(argCount));
    }
  }

  lemma TextPair(a: string, b: string)
    ensures Text([a, b]) == a + b
  {
    assert Text([b]) == b by {
      assert [b][1..] == [];
    }
    assert [a, b][1..] == [b];
  }

  lemma CloseText()
    ensures Text(Close) == [8 as char, '}', '\n']
  {
    TextPair(Close[0], Close[1]);
    assert Close[0] + Close[1] == [8 as char, '}', '\n'];
  }

  /** The head of a record line as text: `{timestamp=<millis> lvl=<LEVEL> `. */
  function Header(lvl: Level, millis: int): string {
    "{timestamp=" + Decimal(millis) + " lvl=" + ToLevel(lvl) + " "
  }

  lemma PrefixText(lvl: Level, millis: int)
    ensures Text(Prefix(lvl, millis)) == Header(lvl, millis)
  {
    var pre := Prefix(lvl, millis);
    assert pre == [TimestampKey, Decimal(millis)] + [" ", LevelKey] + [ToLevel(lvl), " "];
    TextAppend([TimestampKey, Decimal(millis)] + [" ", LevelKey], [ToLevel(lvl), " "]);
    TextAppend([TimestampKey, Decimal(millis)], [" ", LevelKey]);
    TextPair(TimestampKey, Decimal(millis));
    TextPair(" ", LevelKey);
    TextPair(ToLevel(lvl), " ");
  }

  /** The text one statement leaves on the stream: the header, then each
      argument with its separator, then a backspace, a brace and a newline
      when the chain had at least two arguments. */
  lemma StatementText(lvl: Level, millis: int, args: seq<string>)
    requires args != []
    ensures Text(StatementChunks(lvl, millis, args))
         == Header(lvl, millis) + FieldsText(args, 0) + (if |args| >= 2 then [8 as char, '}', '\n'] else "")
  {
    var pre := Prefix(lvl, millis);
    var fields := ChainChunks(false, pre, 0, args);
    var close := if |args| >= 2 then Close else [];
    var closeText: string := if |args| >= 2 then [8 as char, '}', '\n'] else "";
    assert Text(fields + close) == FieldsText(args, 0) + closeText by {
      TextAppend(fields, close);
      ChainText(pre, 0, args);
      if |args| >= 2 {
        CloseText();
      }
    }
    assert Text(StatementChunks(lvl, millis, args)) == Header(lvl, millis) + Text(fields + close) by {
      StatementSplit(lvl, millis, args);
      TextAppend(pre, fields + close);
      PrefixText(lvl, millis);
    }
    Assoc(Header(lvl, millis), FieldsText(args, 0), closeText);
  }
}
