/** The command-letter dispatch of src/cli.rs. */
module Cli {
  import opened Outcomes

  /** The commands a letter can name; `build` is the only one. */
  datatype Command = Build

  /** `COMMANDS`: one slot per lower-case letter, only `b` filled. */
  const Commands: seq<Option<Command>> :=
    [None, Some(Build), None, None, None, None, None, None, None, None, None, None, None,
     None, None, None, None, None, None, None, None, None, None, None, None, None]

  const InvalidCommand: string := "Invalid command"

  /** `build`: its arguments are ignored. */
  function RunBuild(args: seq<string>): (r: Outcome<(), string>)
    ensures r.Ok?
  {
    Ok(())
  }

  function Run(cmd: Command, args: seq<string>): Outcome<(), string> {
    match cmd
    case Build => RunBuild(args)
  }

  /** `(c as u8) - ('a' as u8)` for a lower-case letter: the `u8` cast and
      the subtraction stay in range, so the index is a table slot. */
  function CommandIndex(c: char): (i: nat)
    requires 'a' <= c <= 'z'
    ensures i < |Commands| == 26
    ensures ('a' as int + i) as char == c
  {
    (c as int) - ('a' as int)
  }

  /** `process_command`: a letter is a command exactly when it is `b`, and
      then building succeeds whatever the arguments; every other character
      is rejected with the same message, and nothing panics. */
  function ProcessCommand(c: char, args: seq<string>): (r: Outcome<(), string>)
    ensures r.Ok? <==> c == 'b'
    ensures !r.Ok? ==> r == Err(InvalidCommand)
  {
    if c < 'a' || c > 'z' then Err(InvalidCommand)
    else
      assert Commands[CommandIndex(c)].Some? <==> CommandIndex(c) == 1;
      match Commands[CommandIndex(c)]
      case Some(cmd) => Run(cmd, args)
      case None => Err(InvalidCommand)
  }
}
