/** The severity of a record and its printed name (enum LEVEL and toLevel). */
module Levels {

  /** The underlying value of an enum LEVEL. The four enumerators are 0..3;
      toLevel also has a default branch for any other value (reachable only
      through a cast), so the model keeps the whole integer range. */
  type Level = int

  const DEBUG: Level := 0
  const INFO: Level := 1
  const WARN: Level := 2
  const ERR: Level := 3

  predicate IsEnumerator(lvl: Level) {
    DEBUG <= lvl <= ERR
  }

  /** The printed name of each enumerator, indexed by its value. */
  const Names: seq<string> := ["DEBUG", "INFO", "WARN", "ERR"]

  /** toLevel: the name of an enumerator, and the empty string for any other value. */
  function ToLevel(lvl: Level): (name: string)
    ensures IsEnumerator(lvl) ==> name == Names[lvl]
    ensures name == "" <==> !IsEnumerator(lvl)
  {
    if lvl == DEBUG then "DEBUG"
    else if lvl == INFO then "INFO"
    else if lvl == WARN then "WARN"
    else if lvl == ERR then "ERR"
    else ""
  }
}
