/**
 * Flott::Parser::State, the state every parser of one compilation shares: pending text, the emitted code
 * fragments, the open-bracket depth, the last opening delimiter, the touched file paths and the directory
 * stack. `StateV` is its value; the class `State` is the object the parsers update in place.
 */
module CompileState {
  import opened Wrappers
  import opened Errors

  /** The `last_open` symbols :INCOPEN, :PRIOPEN, :RAWOPEN, :COMOPEN and :OPEN. */
  datatype Opener = IncOpen | PriOpen | RawOpen | ComOpen | Open

  datatype StateV = StateV(
    openDepth: int,
    lastOpen: Option<Opener>,
    text: seq<string>,
    compiled: seq<string>,
    pathes: seq<string>,
    directories: seq<string>)

  /** State.new: nothing open, nothing pending, nothing emitted. */
  const Initial := StateV(0, None, [], [], [], [])

  /** The fragment text2compiled emits before the pending text. */
  const OutputOpen := "@__output__<<%q["

  /** The fragment text2compiled emits after the pending text. */
  const OutputClose := "]\n"

  /** The assignment push_workdir and pop_workdir emit; a nil directory interpolates as the empty string. */
  function WorkdirAssignment(dir: Option<string>): string {
    "@__workdir__ = '" + (if dir.Some? then dir.value else "") + "'\n"
  }

  /** top_workdir: the last directory on the stack, nil when it is empty. */
  function Top(directories: seq<string>): (r: Option<string>)
    ensures r.None? <==> directories == []
    ensures r.Some? ==> r.value == directories[|directories| - 1]
  {
    if directories == [] then None else Some(directories[|directories| - 1])
  }

  /** text2compiled on a state value. */
  function Flush(st: StateV): StateV {
    if st.text == [] then st
    else st.(compiled := st.compiled + [OutputOpen] + st.text + [OutputClose], text := [])
  }

  /** push_workdir on a state value. */
  function Push(st: StateV, dir: string): StateV {
    st.(compiled := st.compiled + [WorkdirAssignment(Some(dir))], directories := st.directories + [dir])
  }

  /** pop_workdir on a state value: CompileError on an empty stack. */
  function Pop(st: StateV): Result<StateV, Error> {
    if st.directories == [] then Err(DirectoriesEmpty)
    else
      var rest := st.directories[..|st.directories| - 1];
      Ok(st.(compiled := st.compiled + [WorkdirAssignment(Top(rest))], directories := rest))
  }

  /**
   * Pushing a directory and popping it again restores the stack; the code gains the assignment naming the
   * pushed directory and then the one naming the directory below it (or '' when there is none).
   */
  lemma PopUndoesPush(st: StateV, dir: string)
    ensures Pop(Push(st, dir)).Ok?
    ensures Pop(Push(st, dir)).value.directories == st.directories
    ensures Pop(Push(st, dir)).value.compiled
              == st.compiled + [WorkdirAssignment(Some(dir)), WorkdirAssignment(Top(st.directories))]
    ensures Pop(Push(st, dir)).value.text == st.text && Pop(Push(st, dir)).value.pathes == st.pathes
  {
    assert (st.directories + [dir])[..|st.directories|] == st.directories;
  }

  /** Flushing twice emits nothing the first flush did not. */
  lemma FlushIdempotent(st: StateV)
    ensures Flush(Flush(st)) == Flush(st)
  {
  }

  class State {
    var openDepth: int
    var lastOpen: Option<Opener>
    var text: seq<string>
    var compiled: seq<string>
    var pathes: seq<string>
    var directories: seq<string>

    function Value(): StateV
      reads this
    {
      StateV(openDepth, lastOpen, text, compiled, pathes, directories)
    }

    constructor ()
      ensures Value() == Initial
    {
      openDepth, lastOpen := 0, None;
      text, compiled, pathes, directories := [], [], [], [];
    }

    /**
     * text2compiled: with no pending text nothing changes; otherwise the code gains OutputOpen, the pending
     * fragments in order and OutputClose, and the pending text is emptied.
     */
    method Text2Compiled()
      modifies this
      ensures Value() == Flush(old(Value()))
      ensures old(text) == [] ==> compiled == old(compiled)
      ensures old(text) != [] ==> compiled == old(compiled) + [OutputOpen] + old(text) + [OutputClose]
      ensures text == []
      ensures openDepth == old(openDepth) && lastOpen == old(lastOpen)
      ensures pathes == old(pathes) && directories == old(directories)
    {
      if text != [] {
        compiled := compiled + [OutputOpen] + text + [OutputClose];
        text := [];
      }
    }

    /** push_workdir: emits the assignment of `dir` and pushes it. */
    method PushWorkdir(dir: string)
      modifies this
      ensures Value() == Push(old(Value()), dir)
      ensures directories == old(directories) + [dir] && TopWorkdir() == Some(dir)
      ensures compiled == old(compiled) + [WorkdirAssignment(Some(dir))]
    {
      compiled := compiled + [WorkdirAssignment(Some(dir))];
      directories := directories + [dir];
    }

    /** top_workdir: the last directory pushed and not yet popped, nil on an empty stack. */
    function TopWorkdir(): (r: Option<string>)
      reads this
      ensures r.None? <==> directories == []
      ensures r.Some? ==> r.value == directories[|directories| - 1]
    {
      Top(directories)
    }

    /**
     * pop_workdir: CompileError on an empty stack, leaving everything as it was; otherwise drops the top
     * directory and emits the assignment of the new top.
     */
    method PopWorkdir() returns (r: Outcome<Error>)
      modifies this
      ensures match Pop(old(Value()))
        case Ok(v) => r == Pass && Value() == v
        case Err(e) => r == Fail(e) && Value() == old(Value())
      ensures r.Fail? <==> old(directories) == []
      ensures r.Pass? ==> directories == old(directories)[..|old(directories)| - 1]
                          && compiled == old(compiled) + [WorkdirAssignment(TopWorkdir())]
    {
      if directories == [] {
        return Fail(DirectoriesEmpty);
      }
      directories := directories[..|directories| - 1];
      compiled := compiled + [WorkdirAssignment(TopWorkdir())];
      r := Pass;
    }
  }
}
