/** A parsed Proxmark-style text command and the command family tags. */
module ProxmarkCommands {
  import opened Text

  /** `ProxmarkCommand(command, args)`: the keyword and its arguments, in order. */
  datatype ProxmarkCommand = ProxmarkCommand(command: string, args: seq<string>)

  /** `getFullCommand()`: the keyword, then each argument after one space. */
  function FullCommand(c: ProxmarkCommand): string
  {
    if |c.args| == 0 then c.command else c.command + " " + JoinWith(c.args, " ")
  }

  /** The full command is the keyword and the arguments joined by single spaces. */
  lemma FullCommandIsJoin(c: ProxmarkCommand)
    ensures FullCommand(c) == JoinWith([c.command] + c.args, " ")
  {
    assert ([c.command] + c.args)[1..] == c.args;
  }

  /** Each argument adds its own length plus one separating space. */
  function ArgsWidth(args: seq<string>): nat
  {
    if args == [] then 0 else |args[0]| + 1 + ArgsWidth(args[1..])
  }

  lemma {:induction false} JoinArgsLength(args: seq<string>)
    requires |args| >= 1
    ensures |JoinWith(args, " ")| + 1 == ArgsWidth(args)
    decreases |args|
  {
    if |args| > 1 {
      JoinArgsLength(args[1..]);
    }
  }

  /**
   * `getFullCommand()` is exactly the keyword when there are no arguments,
   * starts with the keyword and a space otherwise, and is as long as the
   * keyword plus, per argument, the argument and one space.
   */
  lemma FullCommandShape(c: ProxmarkCommand)
    ensures c.args == [] ==> FullCommand(c) == c.command
    ensures c.args != [] ==> StartsWith(FullCommand(c), c.command + " ")
    ensures |FullCommand(c)| == |c.command| + ArgsWidth(c.args)
  {
    if c.args != [] {
      JoinArgsLength(c.args);
      assert FullCommand(c) == (c.command + " ") + JoinWith(c.args, " ");
    }
  }

  /** `CommandCategory`. */
  datatype CommandCategory = HF | LF | DATA | HW | SCRIPT | TRACE | EMV | OTHER

  const AllCategories: seq<CommandCategory> := [HF, LF, DATA, HW, SCRIPT, TRACE, EMV, OTHER]

  /** The enumeration lists eight distinct values, and every category is among them. */
  lemma CategoriesEnumerated(c: CommandCategory)
    ensures |AllCategories| == 8
    ensures forall i, j :: 0 <= i < j < 8 ==> AllCategories[i] != AllCategories[j]
    ensures c in AllCategories
  {
  }
}
