/**
 * What one compilation computes, as functions on state values: one step of TextMode#scan and of
 * RubyMode#scan, Parser#include_template with #fork, Parser#compile_inner's scan loop and Parser#compile.
 * The imperative Parser class is proved to compute exactly these.
 *
 * Static includes recurse without limit in the source (a self-including template runs until Ruby's stack
 * overflows); here every include spends one unit of `fuel`, and running out is the error StackTooDeep.
 */
module Compiler {
  import opened Wrappers
  import opened Strings
  import opened Errors
  import opened Files
  import opened Tokens
  import opened CompileState
  import opened Templates

  /** The parser's @current_mode. */
  datatype Mode = TextMode | RubyMode

  /** What all parsers of one compilation share besides the State: the disk and the root parser's workdir. */
  datatype Ctx = Ctx(fs: FileSystem, rootdir: string)

  /** One scan step's effect: the new state, the number of characters consumed, the mode afterwards. */
  datatype Stepped = Stepped(state: StateV, len: nat, mode: Mode)

  /** The first fragment Parser#compile emits: the template block and the opening of the `%q{` it evaluates. */
  const PreambleOpen := "::Flott::Template.new { |env| env.instance_eval %q{\n"

  /** The second fragment Parser#compile emits: the assignment of the root directory. */
  function RootdirAssignment(rootdir: string): string {
    "@__rootdir__ = '" + rootdir + "'\n"
  }

  /** The last fragment Parser#compile emits, closing the `%q{` and the block. */
  const Trailer := "\n}\n}"

  /** The code TextMode emits after flushing the pending text, for each opening delimiter. */
  function Prologue(k: Opener): seq<string> {
    match k
    case PriOpen => ["@__output__<<@__escape__.call(begin\n"]
    case RawOpen => ["@__output__<<(begin\n"]
    case ComOpen => ["\n=begin\n"]
    case _ => []
  }

  /** The code RubyMode emits when a region closes, chosen by `last_open`. */
  function Epilogue(k: Option<Opener>): string {
    match k
    case Some(PriOpen) => "\nend)\n"
    case Some(RawOpen) => "\nend.to_s)\n"
    case Some(ComOpen) => "\n=end\n"
    case _ => "\n"
  }

  /**
   * FilenameMixin#interpret_filename for a parser: a name with a leading '/' is looked up under the root
   * directory (without that '/'), any other name under the parser's own workdir.
   */
  function Interpret(name: string, rootdir: string, workdir: string): (path: string)
    ensures name != [] && name[0] == '/' ==>
              StartsWith(path, TrimSlashes(rootdir)) && EndsWith(path, name[1..])
    ensures !(name != [] && name[0] == '/') ==>
              StartsWith(path, TrimSlashes(workdir)) && EndsWith(path, name)
  {
    if name != [] && name[0] == '/' then Join(rootdir, name[1..]) else Join(workdir, name)
  }

  /** One step of TextMode#scan at position `pos` of `src`. Only a static include can fail. */
  function TextStep(fuel: nat, ctx: Ctx, src: string, workdir: string, pos: nat, st: StateV): (r: Result<Stepped, Error>)
    requires pos < |src|
    decreases fuel, |src| - pos, 1
    ensures r.Ok? ==> 0 < r.value.len <= |src| - pos
  {
    var rest := src[pos..];
    match TextTokenAt(rest)
    case EscapedOpen => Ok(Stepped(st.(text := st.text + ["\\["]), 2, TextMode))
    case IncludeTag(name, n) =>
      (match Include(fuel, ctx, workdir, name, st.(lastOpen := Some(IncOpen)))
       case Err(e) => Err(e)
       case Ok(st') => Ok(Stepped(st', n, TextMode)))
    case PrintOpen(n) => Ok(Stepped(OpenRegion(st, PriOpen), n, RubyMode))
    case RawPrintOpen(n) => Ok(Stepped(OpenRegion(st, RawOpen), n, RubyMode))
    case CommentOpen(n) => Ok(Stepped(OpenRegion(st, ComOpen), n, RubyMode))
    case StatementOpen => Ok(Stepped(OpenRegion(st, Open), 1, RubyMode))
    case StrayClose => Ok(Stepped(st.(text := st.text + ["\\", "]"]), 1, TextMode))
    case TextRun(run) => Ok(Stepped(st.(text := st.text + [run]), |run|, TextMode))
    case Backslash => Ok(Stepped(st.(text := st.text + ["\\\\", "\\"]), 1, TextMode))
    case NoTextMatch => Err(UnknownTokens(Peek(rest)))
  }

  /** A code opener in TextMode: record it as `last_open`, flush the pending text, emit its prologue. */
  function OpenRegion(st: StateV, k: Opener): StateV {
    var flushed := Flush(st.(lastOpen := Some(k)));
    flushed.(compiled := flushed.compiled + Prologue(k))
  }

  /** One step of RubyMode#scan at position `pos` of `src`. */
  function RubyStep(src: string, pos: nat, st: StateV): (r: Result<Stepped, Error>)
    requires pos < |src|
    ensures r.Ok? ==> 0 < r.value.len <= |src| - pos
  {
    var rest := src[pos..];
    match RubyTokenAt(rest, st.openDepth)
    case RegionClose =>
      Ok(Stepped(st.(compiled := st.compiled + [Epilogue(st.lastOpen)], lastOpen := None), 1, TextMode))
    case EscapedClose => Ok(Stepped(st.(compiled := st.compiled + ["\\]"]), 2, RubyMode))
    case NestedClose => Ok(Stepped(st.(openDepth := st.openDepth - 1, compiled := st.compiled + ["]"]), 1, RubyMode))
    case EscapedOpenCode => Ok(Stepped(st.(compiled := st.compiled + ["\\["]), 2, RubyMode))
    case NestedOpen => Ok(Stepped(st.(openDepth := st.openDepth + 1, compiled := st.compiled + ["["]), 1, RubyMode))
    case CodeRun(run) => Ok(Stepped(st.(compiled := st.compiled + [run]), |run|, RubyMode))
    case NoCodeMatch => Err(UnknownTokens(Peek(rest)))
  }

  /**
   * Parser#include_template and #fork: resolve the name, fail if the path is not readable, flush the pending
   * text, record the path, read the file and compile it with a child parser in the file's directory that
   * shares the state; the child pushes and pops its directory only when it differs from the parent's.
   */
  function Include(fuel: nat, ctx: Ctx, workdir: string, name: string, st: StateV): Result<StateV, Error>
    decreases fuel, 0, 0
  {
    var path := Interpret(name, ctx.rootdir, workdir);
    if path !in ctx.fs then Err(CannotOpen(path))
    else
      var flushed := Flush(st);
      var recorded := flushed.(pathes := flushed.pathes + [path]);
      match Read(ctx.fs, path)
      case Err(e) => Err(e)
      case Ok(source) =>
        var dir := Dirname(path);
        if fuel == 0 then Err(StackTooDeep)
        else
          match Inner(fuel - 1, ctx, source, dir, workdir != dir, TextMode, recorded)
          case Err(e) => Err(e)
          case Ok(done) => Ok(done.0)
  }

  /**
   * Parser#compile_inner: rewind, push the workdir when asked to, scan until the end of the source, flush the
   * pending text and pop the workdir when it was pushed. The end of the source is accepted in either mode and
   * at any bracket depth. The mode afterwards is returned because the parser keeps it.
   */
  function Inner(fuel: nat, ctx: Ctx, src: string, workdir: string, changed: bool, mode: Mode, st: StateV)
    : Result<(StateV, Mode), Error>
    decreases fuel, |src| + 1, 0
  {
    var pushed := if changed then Push(st, workdir) else st;
    match Run(fuel, ctx, src, workdir, 0, mode, pushed)
    case Err(e) => Err(e)
    case Ok((scanned, m)) =>
      var flushed := Flush(scanned);
      if changed then
        (match Pop(flushed)
         case Err(e) => Err(e)
         case Ok(popped) => Ok((popped, m)))
      else Ok((flushed, m))
  }

  /** One step of the scan loop: @current_mode.scan at `pos`. */
  function Step(fuel: nat, ctx: Ctx, src: string, workdir: string, pos: nat, mode: Mode, st: StateV): (r: Result<Stepped, Error>)
    requires pos < |src|
    decreases fuel, |src| - pos, 2
    ensures r.Ok? ==> 0 < r.value.len <= |src| - pos
  {
    if mode == TextMode then TextStep(fuel, ctx, src, workdir, pos, st) else RubyStep(src, pos, st)
  }

  /** The scan loop of compile_inner from position `pos` in mode `mode` until the source is used up. */
  function Run(fuel: nat, ctx: Ctx, src: string, workdir: string, pos: nat, mode: Mode, st: StateV)
    : Result<(StateV, Mode), Error>
    requires pos <= |src|
    decreases fuel, |src| - pos, 3
  {
    if pos == |src| then Ok((st, mode))
    else
      match Step(fuel, ctx, src, workdir, pos, mode, st)
      case Err(e) => Err(e)
      case Ok(Stepped(st', n, m)) => Run(fuel, ctx, src, workdir, pos + n, m, st')
  }

  /** Before the end of the source the loop is one step followed by the rest of the loop. */
  lemma RunUnfold(fuel: nat, ctx: Ctx, src: string, workdir: string, pos: nat, mode: Mode, st: StateV)
    requires pos < |src|
    ensures var step := Step(fuel, ctx, src, workdir, pos, mode, st);
            step.Err? ==> Run(fuel, ctx, src, workdir, pos, mode, st) == Err(step.error)
    ensures var step := Step(fuel, ctx, src, workdir, pos, mode, st);
            step.Ok? ==> Run(fuel, ctx, src, workdir, pos, mode, st)
                         == Run(fuel, ctx, src, workdir, pos + step.value.len, step.value.mode, step.value.state)
  {
    var step := Step(fuel, ctx, src, workdir, pos, mode, st);
    if step.Ok? {
      var Stepped(st', n, m) := step.value;
      assert Run(fuel, ctx, src, workdir, pos, mode, st) == Run(fuel, ctx, src, workdir, pos + n, m, st');
    }
  }

  /** The state Parser#compile starts from: the two preamble fragments and the template's own file, if any. */
  function StartState(workdir: string, filename: Option<string>): StateV {
    Initial.(compiled := [PreambleOpen, RootdirAssignment(workdir)],
             pathes := if filename.Some? then [filename.value] else [])
  }

  /**
   * Parser#compile for a parser that starts in `mode`: the template's code is everything emitted followed by
   * the trailer, its paths are the state's paths. A root parser's rootdir is its own workdir.
   */
  function CompileSpec(fuel: nat, fs: FileSystem, source: string, workdir: string, rootdir: string,
                       filename: Option<string>, mode: Mode): Result<(Template, Mode), Error>
  {
    match Inner(fuel, Ctx(fs, rootdir), source, workdir, true, mode, StartState(rootdir, filename))
    case Err(e) => Err(e)
    case Ok((st, m)) => Ok((Template(st.compiled + [Trailer], st.pathes), m))
  }
}
