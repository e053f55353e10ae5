/** Command: a `Macro` queues command objects and `run` executes them in the
    order they were added; each concrete command prints one fixed word. */
module Command {
  import opened Exceptions

  /** The concrete commands. The abstract `Command` prints nothing and is
      never queued, so it has no variant here. */
  datatype Cmd = Copy | Paste | Save

  /** The line a command's `execute` prints. */
  function Execute(c: Cmd): (r: string)
    ensures r == "Copying" <==> c == Copy
    ensures r == "Pasting" <==> c == Paste
    ensures r == "Saving" <==> c == Save
  {
    match c
    case Copy => "Copying"
    case Paste => "Pasting"
    case Save => "Saving"
  }

  /** Reads a printed line back as the command that printed it. */
  function Parse(line: string): (r: Option<Cmd>)
    ensures forall c :: r == Some(c) <==> line == Execute(c)
  {
    if line == "Copying" then Some(Copy)
    else if line == "Pasting" then Some(Paste)
    else if line == "Saving" then Some(Save)
    else None
  }

  /** A macro and its queue of commands, oldest first. */
  datatype Macro = Macro(commands: seq<Cmd>)

  /** `add`: the command joins the back of the queue. */
  function Add(m: Macro, c: Cmd): (r: Macro)
    ensures |r.commands| == |m.commands| + 1
    ensures r.commands[..|m.commands|] == m.commands && r.commands[|m.commands|] == c
  {
    Macro(m.commands + [c])
  }

  /** The lines printed by executing `cs` front to back. */
  function Lines(cs: seq<Cmd>): (r: seq<string>)
    ensures |r| == |cs|
    ensures forall i :: 0 <= i < |cs| ==> r[i] == Execute(cs[i])
  {
    if |cs| == 0 then [] else [Execute(cs[0])] + Lines(cs[1..])
  }

  /** `run`: execute every queued command in queue order. */
  function Run(m: Macro): (r: seq<string>)
    ensures |r| == |m.commands|
    ensures forall i :: 0 <= i < |r| ==> Parse(r[i]) == Some(m.commands[i])
  {
    Lines(m.commands)
  }

  /** Adding a command makes `run` print one more line, at the end. */
  lemma RunAdd(m: Macro, c: Cmd)
    ensures Run(Add(m, c)) == Run(m) + [Execute(c)]
  {
  }

  /** Reads a trace back into the commands that printed it. */
  function Replay(trace: seq<string>): (r: Option<seq<Cmd>>)
  {
    if |trace| == 0 then Some([])
    else match (Parse(trace[0]), Replay(trace[1..]))
      case (Some(c), Some(cs)) => Some([c] + cs)
      case _ => None
  }

  /** The trace of `run` determines the queue exactly, and a trace that reads
      back as some queue is that queue's `run`: execution order is addition
      order, with nothing dropped, repeated or reordered. */
  lemma {:induction false} ReplayRun(cs: seq<Cmd>, trace: seq<string>)
    ensures Replay(Run(Macro(cs))) == Some(cs)
    ensures Replay(trace) == Some(cs) ==> trace == Run(Macro(cs))
  {
    if |cs| > 0 {
      assert Lines(cs)[1..] == Lines(cs[1..]);
      ReplayRun(cs[1..], []);
      assert cs == [cs[0]] + cs[1..];
    }
    if |trace| > 0 && Replay(trace) == Some(cs) {
      var c := Parse(trace[0]).value;
      var rest := Replay(trace[1..]).value;
      assert cs == [c] + rest && cs[1..] == rest;
      ReplayRun(rest, trace[1..]);
      assert trace == [trace[0]] + trace[1..];
    }
  }

  /** The driver: Copy, Paste and Save added in that order. */
  lemma DriverRun()
    ensures Run(Add(Add(Add(Macro([]), Copy), Paste), Save)) == ["Copying", "Pasting", "Saving"]
  {
  }
}
