/** The pattern tree of docopt.py. */
module DocoptPattern {
  import opened Options

  datatype Value = NoValue | Flag(on: bool) | Text(text: string) | Number(n: int) | Many(items: seq<string>)

  /** The terminal patterns. Parsed command-line arguments are leaves as well: positional ones are
      arguments without a name. */
  datatype Leaf =
    | Argument(argName: Option<string>, value: Value)
    | Command(argName: Option<string>, value: Value)
    | Opt(short: Option<string>, long: Option<string>, argcount: nat, value: Value)
  {
    /** `self.long or self.short` for options. */
    function Name(): Option<string> {
      if Opt? then (if long.Some? && long.value != "" then long else short) else argName
    }
  }

  datatype Pattern =
    | Terminal(leaf: Leaf)
    | Required(children: seq<Pattern>)
    | Optional(children: seq<Pattern>)
    | OptionsShortcut(children: seq<Pattern>)
    | Either(children: seq<Pattern>)
    | OneOrMore(children: seq<Pattern>)

  predicate AllTerminal(group: seq<Pattern>) {
    forall i :: 0 <= i < |group| ==> group[i].Terminal?
  }
}
