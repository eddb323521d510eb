/**
 * Flott::Parser as an object: the source, the StringScanner position, the current mode, and the State it
 * shares with the parsers of included templates. Every scanning method is proved to compute what the
 * functions of module Compiler describe.
 */
module Parsing {
  import opened Wrappers
  import opened Errors
  import opened Files
  import opened Tokens
  import opened CompileState
  import opened Templates
  import opened Compiler

  class Parser {
    /** The template source the scanner runs over. */
    const source: string
    /** The directory relative includes are resolved in. */
    const workdir: string
    /** The root parser's workdir, reached through the parent chain. */
    const rootdir: string
    /** The template's own file, set by Parser.from_filename. */
    var filename: Option<string>
    /** The state shared with every parser of the same compilation. */
    var state: State
    /** The scanner position. */
    var pos: nat
    /** @current_mode. */
    var mode: Mode

    /** Parser.new(source, workdir): a root parser in TextMode at the start of its source. */
    constructor (source: string, workdir: string)
      ensures this.source == source && this.workdir == workdir && rootdir == workdir
      ensures filename == None && pos == 0 && mode == TextMode && fresh(state)
    {
      this.source := source;
      this.workdir := workdir;
      rootdir := workdir;
      filename := None;
      state := new State();
      pos := 0;
      mode := TextMode;
    }

    /** The parser #fork creates: a child of `parent` that shares its state and its rootdir. */
    constructor Child(source: string, workdir: string, parent: Parser)
      ensures this.source == source && this.workdir == workdir && rootdir == parent.rootdir
      ensures state == parent.state && filename == None && pos == 0 && mode == TextMode
    {
      this.source := source;
      this.workdir := workdir;
      rootdir := parent.rootdir;
      filename := None;
      state := parent.state;
      pos := 0;
      mode := TextMode;
    }

    /**
     * Parser.from_filename: reads the file (NoEntry or IsDirectory when it cannot) and makes a root parser
     * for it whose workdir is the file's directory.
     */
    static method FromFilename(fs: FileSystem, path: string) returns (r: Result<Parser, Error>)
      ensures r.Ok? <==> Read(fs, path).Ok?
      ensures r.Err? ==> r.error == Read(fs, path).error
      ensures r.Ok? ==> fresh(r.value) && fresh(r.value.state)
      ensures r.Ok? ==> r.value.source == fs[path].contents && r.value.workdir == Dirname(path)
                        && r.value.rootdir == Dirname(path) && r.value.filename == Some(path)
                        && r.value.mode == TextMode && r.value.pos == 0
    {
      var workdir := Dirname(path);
      var source := Read(fs, path);
      if source.Err? {
        return Err(source.error);
      }
      var parser := new Parser(source.value, workdir);
      parser.filename := Some(path);
      r := Ok(parser);
    }

    /**
     * Parser#compile: a fresh state with the preamble and the template's own path, compile_inner, the
     * trailer. The mode is not reset, so a parser left in RubyMode by an unclosed region starts its next
     * compilation in RubyMode.
     */
    method Compile(fuel: nat, fs: FileSystem) returns (r: Result<Template, Error>)
      modifies this`state, this`pos, this`mode
      ensures fresh(state)
      ensures match CompileSpec(fuel, fs, source, workdir, rootdir, filename, old(mode))
        case Ok((t, m)) => r == Ok(t) && mode == m
        case Err(e) => r == Err(e)
    {
      state := new State();
      state.compiled := state.compiled + [PreambleOpen, RootdirAssignment(rootdir)];
      if filename.Some? {
        state.pathes := state.pathes + [filename.value];
      }
      assert state.Value() == StartState(rootdir, filename);
      var inner := CompileInner(fuel, fs, true);
      if inner.Fail? {
        return Err(inner.error);
      }
      state.compiled := state.compiled + [Trailer];
      r := Ok(Template(state.compiled, state.pathes));
    }

    /**
     * Parser#compile_inner: rewind the scanner, push the workdir when asked to, scan in the current mode
     * until the end of the source, flush the pending text and pop the workdir when it was pushed.
     */
    method CompileInner(fuel: nat, fs: FileSystem, changed: bool) returns (r: Outcome<Error>)
      modifies this`pos, this`mode, state
      decreases fuel, 5
      ensures state == old(state)
      ensures match Inner(fuel, Ctx(fs, rootdir), source, workdir, changed, old(mode), old(state.Value()))
        case Ok((st, m)) => r == Pass && state.Value() == st && mode == m && pos == |source|
        case Err(e) => r == Fail(e)
    {
      pos := 0;
      if changed {
        state.PushWorkdir(workdir);
      }
      r := ScanToEnd(fuel, fs);
      if r.Fail? {
        return;
      }
      state.Text2Compiled();
      if changed {
        r := state.PopWorkdir();
      }
    }

    /** The scan loop of compile_inner: scan in the current mode until the scanner reaches the end. */
    method ScanToEnd(fuel: nat, fs: FileSystem) returns (r: Outcome<Error>)
      requires pos <= |source|
      modifies this`pos, this`mode, state
      decreases fuel, 4
      ensures state == old(state)
      ensures match Run(fuel, Ctx(fs, rootdir), source, workdir, old(pos), old(mode), old(state.Value()))
        case Ok((st, m)) => r == Pass && state.Value() == st && mode == m && pos == |source|
        case Err(e) => r == Fail(e)
    {
      ghost var ctx := Ctx(fs, rootdir);
      ghost var expected := Run(fuel, ctx, source, workdir, pos, mode, state.Value());
      r := Pass;
      while pos < |source|
        invariant pos <= |source| && state == old(state) && r == Pass
        invariant Run(fuel, ctx, source, workdir, pos, mode, state.Value()) == expected
        decreases |source| - pos
      {
        RunUnfold(fuel, ctx, source, workdir, pos, mode, state.Value());
        r := Scan(fuel, fs);
        if r.Fail? {
          return;
        }
      }
    }

    /**
     * @current_mode.scan: one step of the scan loop in the current mode, as Step computes it.
     */
    method Scan(fuel: nat, fs: FileSystem) returns (r: Outcome<Error>)
      requires pos < |source|
      modifies this`pos, this`mode, state
      decreases fuel, 3
      ensures state == old(state)
      ensures match Step(fuel, Ctx(fs, rootdir), source, workdir, old(pos), old(mode), old(state.Value()))
        case Ok(Stepped(st, n, m)) => r == Pass && state.Value() == st && pos == old(pos) + n && mode == m
        case Err(e) => r == Fail(e)
    {
      if mode == TextMode {
        r := TextScan(fuel, fs);
      } else {
        r := RubyScan();
      }
    }

    /** TextMode#scan: consume one token at the scanner position and act on it. */
    method TextScan(fuel: nat, fs: FileSystem) returns (r: Outcome<Error>)
      requires pos < |source| && mode == TextMode
      modifies this`pos, this`mode, state
      decreases fuel, 2
      ensures state == old(state)
      ensures match TextStep(fuel, Ctx(fs, rootdir), source, workdir, old(pos), old(state.Value()))
        case Ok(Stepped(st, n, m)) => r == Pass && state.Value() == st && pos == old(pos) + n && mode == m
        case Err(e) => r == Fail(e)
    {
      var rest := source[pos..];
      r := Pass;
      match TextTokenAt(rest)
      case EscapedOpen =>
        pos := pos + 2;
        state.text := state.text + ["\\["];
      case IncludeTag(name, n) =>
        pos := pos + n;
        state.lastOpen := Some(IncOpen);
        r := IncludeTemplate(fuel, fs, name);
      case PrintOpen(n) =>
        pos := pos + n;
        OpenRegion(PriOpen);
      case RawPrintOpen(n) =>
        pos := pos + n;
        OpenRegion(RawOpen);
      case CommentOpen(n) =>
        pos := pos + n;
        OpenRegion(ComOpen);
      case StatementOpen =>
        pos := pos + 1;
        OpenRegion(Open);
      case StrayClose =>
        pos := pos + 1;
        state.text := state.text + ["\\", "]"];
      case TextRun(run) =>
        pos := pos + |run|;
        state.text := state.text + [run];
      case Backslash =>
        pos := pos + 1;
        state.text := state.text + ["\\\\", "\\"];
      case NoTextMatch =>
        r := Fail(UnknownTokens(Peek(rest)));
    }

    /** The common part of TextMode's code openers: set last_open, go to RubyMode, flush, emit the prologue. */
    method OpenRegion(k: Opener)
      modifies this`pos, this`mode, state
      ensures state == old(state) && pos == old(pos)
      ensures state.Value() == Compiler.OpenRegion(old(state.Value()), k) && mode == RubyMode
    {
      state.lastOpen := Some(k);
      mode := RubyMode;
      state.Text2Compiled();
      state.compiled := state.compiled + Prologue(k);
    }

    /** RubyMode#scan: consume one token at the scanner position and copy or close. */
    method RubyScan() returns (r: Outcome<Error>)
      requires pos < |source| && mode == RubyMode
      modifies this`pos, this`mode, state
      ensures state == old(state)
      ensures match RubyStep(source, old(pos), old(state.Value()))
        case Ok(Stepped(st, n, m)) => r == Pass && state.Value() == st && pos == old(pos) + n && mode == m
        case Err(e) => r == Fail(e)
    {
      var rest := source[pos..];
      r := Pass;
      match RubyTokenAt(rest, state.openDepth)
      case RegionClose =>
        pos := pos + 1;
        mode := TextMode;
        state.compiled := state.compiled + [Epilogue(state.lastOpen)];
        state.lastOpen := None;
      case EscapedClose =>
        pos := pos + 2;
        state.compiled := state.compiled + ["\\]"];
      case NestedClose =>
        pos := pos + 1;
        state.openDepth := state.openDepth - 1;
        state.compiled := state.compiled + ["]"];
      case EscapedOpenCode =>
        pos := pos + 2;
        state.compiled := state.compiled + ["\\["];
      case NestedOpen =>
        pos := pos + 1;
        state.openDepth := state.openDepth + 1;
        state.compiled := state.compiled + ["["];
      case CodeRun(run) =>
        pos := pos + |run|;
        state.compiled := state.compiled + [run];
      case NoCodeMatch =>
        r := Fail(UnknownTokens(Peek(rest)));
    }

    /**
     * Parser#include_template: resolve the name, fail with CannotOpen when the path is not readable,
     * otherwise flush the pending text, record the path, read the file and fork a parser for it.
     */
    method IncludeTemplate(fuel: nat, fs: FileSystem, name: string) returns (r: Outcome<Error>)
      modifies state
      decreases fuel, 1
      ensures match Include(fuel, Ctx(fs, rootdir), workdir, name, old(state.Value()))
        case Ok(st) => r == Pass && state.Value() == st
        case Err(e) => r == Fail(e)
    {
      var path := Interpret(name, rootdir, workdir);
      if path !in fs {
        return Fail(CannotOpen(path));
      }
      state.Text2Compiled();
      state.pathes := state.pathes + [path];
      var contents := Read(fs, path);
      if contents.Err? {
        return Fail(contents.error);
      }
      r := Fork(fuel, fs, contents.value, Dirname(path));
    }

    /**
     * Parser#fork: compile `src` with a child parser in `dir` that shares this parser's state; the child
     * pushes and pops its directory only when it differs from this parser's. Each fork spends one unit of
     * `fuel`; with none left the include is StackTooDeep.
     */
    method Fork(fuel: nat, fs: FileSystem, src: string, dir: string) returns (r: Outcome<Error>)
      modifies state
      decreases fuel, 0
      ensures fuel == 0 ==> r == Fail(StackTooDeep)
      ensures fuel > 0 ==>
        match Inner(fuel - 1, Ctx(fs, rootdir), src, dir, workdir != dir, TextMode, old(state.Value()))
        case Ok((st, _)) => r == Pass && state.Value() == st
        case Err(e) => r == Fail(e)
    {
      if fuel == 0 {
        return Fail(StackTooDeep);
      }
      var child := new Parser.Child(src, dir, this);
      r := child.CompileInner(fuel - 1, fs, workdir != dir);
    }
  }
}
