/**
 * Properties of a whole compilation: the shared state only grows, the directory stack is balanced so
 * pop_workdir's error is never raised, every recorded path names an existing file, and what plain text, a
 * code region, an unclosed region and a static include compile to.
 */
module CompilerProps {
  import opened Wrappers
  import opened Strings
  import opened Errors
  import opened Files
  import opened Tokens
  import opened CompileState
  import opened Templates
  import opened Compiler

  predicate IsPrefix<T(==)>(a: seq<T>, b: seq<T>) {
    |a| <= |b| && b[..|a|] == a
  }

  /** The paths from index `from` on all name entries of the disk. */
  predicate RecordedExist(fs: FileSystem, pathes: seq<string>, from: nat) {
    forall i :: from <= i < |pathes| ==> pathes[i] in fs
  }

  /** Text with nothing TextMode or RubyMode treats specially: TEXT matches all of it. */
  predicate Plain(s: string) {
    forall k :: 0 <= k < |s| ==> !IsSpecial(s[k])
  }

  /**
   * State `b` extends state `a`: code and paths are only appended to, every appended path exists, and the
   * bracket depth stays non-negative.
   */
  predicate Extends(fs: FileSystem, a: StateV, b: StateV) {
    IsPrefix(a.compiled, b.compiled)
    && IsPrefix(a.pathes, b.pathes)
    && RecordedExist(fs, b.pathes, |a.pathes|)
    && (a.openDepth >= 0 ==> b.openDepth >= 0)
  }

  /** State `b` extends state `a` and has the same directory stack. */
  predicate Grows(fs: FileSystem, a: StateV, b: StateV) {
    Extends(fs, a, b) && b.directories == a.directories
  }

  lemma ExtendsTransitive(fs: FileSystem, a: StateV, b: StateV, c: StateV)
    requires Extends(fs, a, b) && Extends(fs, b, c)
    ensures Extends(fs, a, c)
  {
    assert c.compiled[..|a.compiled|] == c.compiled[..|b.compiled|][..|a.compiled|];
    assert c.pathes[..|a.pathes|] == c.pathes[..|b.pathes|][..|a.pathes|];
    forall i | |a.pathes| <= i < |c.pathes|
      ensures c.pathes[i] in fs
    {
      if i < |b.pathes| {
        assert c.pathes[i] == c.pathes[..|b.pathes|][i];
      }
    }
  }

  /** One TextMode step keeps the directory stack and only extends the state; it never pops an empty stack. */
  lemma {:induction false} TextStepGrows(fuel: nat, ctx: Ctx, src: string, workdir: string, pos: nat, st: StateV)
    requires pos < |src|
    decreases fuel, |src| - pos, 1
    ensures var r := TextStep(fuel, ctx, src, workdir, pos, st);
            (r.Ok? ==> Grows(ctx.fs, st, r.value.state)) && (r.Err? ==> !r.error.DirectoriesEmpty?)
  {
    match TextTokenAt(src[pos..])
    case IncludeTag(name, n) =>
      IncludeGrows(fuel, ctx, workdir, name, st.(lastOpen := Some(IncOpen)));
    case _ =>
  }

  /** One RubyMode step keeps the directory stack and only extends the state. */
  lemma RubyStepGrows(fs: FileSystem, src: string, pos: nat, st: StateV)
    requires pos < |src|
    ensures var r := RubyStep(src, pos, st);
            (r.Ok? ==> Grows(fs, st, r.value.state)) && (r.Err? ==> r.error.UnknownTokens?)
  {
  }

  /** A static include leaves the directory stack as it found it and only extends the state. */
  lemma {:induction false} IncludeGrows(fuel: nat, ctx: Ctx, workdir: string, name: string, st: StateV)
    decreases fuel, 0, 0
    ensures var r := Include(fuel, ctx, workdir, name, st);
            (r.Ok? ==> Grows(ctx.fs, st, r.value)) && (r.Err? ==> !r.error.DirectoriesEmpty?)
  {
    var path := Interpret(name, ctx.rootdir, workdir);
    if path in ctx.fs {
      var flushed := Flush(st);
      var recorded := flushed.(pathes := flushed.pathes + [path]);
      assert Grows(ctx.fs, st, recorded) by {
        assert recorded.pathes[..|st.pathes|] == st.pathes;
      }
      match Read(ctx.fs, path)
      case Err(_) =>
      case Ok(source) =>
        var dir := Dirname(path);
        if fuel > 0 {
          InnerGrows(fuel - 1, ctx, source, dir, workdir != dir, TextMode, recorded);
          var r := Inner(fuel - 1, ctx, source, dir, workdir != dir, TextMode, recorded);
          if r.Ok? {
            ExtendsTransitive(ctx.fs, st, recorded, r.value.0);
          }
        }
    }
  }

  /**
   * compile_inner leaves the directory stack as it found it (its pop always finds the directory its push
   * left) and only extends the state.
   */
  lemma {:induction false} InnerGrows(fuel: nat, ctx: Ctx, src: string, workdir: string, changed: bool, mode: Mode, st: StateV)
    decreases fuel, |src| + 1, 0
    ensures var r := Inner(fuel, ctx, src, workdir, changed, mode, st);
            (r.Ok? ==> Grows(ctx.fs, st, r.value.0)) && (r.Err? ==> !r.error.DirectoriesEmpty?)
  {
    var pushed := if changed then Push(st, workdir) else st;
    assert Extends(ctx.fs, st, pushed) by {
      assert pushed.compiled[..|st.compiled|] == st.compiled;
    }
    RunGrows(fuel, ctx, src, workdir, 0, mode, pushed);
    match Run(fuel, ctx, src, workdir, 0, mode, pushed)
    case Err(_) =>
    case Ok((scanned, m)) =>
      var flushed := Flush(scanned);
      assert Extends(ctx.fs, scanned, flushed) by {
        assert flushed.compiled[..|scanned.compiled|] == scanned.compiled;
      }
      ExtendsTransitive(ctx.fs, st, pushed, scanned);
      ExtendsTransitive(ctx.fs, st, scanned, flushed);
      if changed {
        assert flushed.directories == st.directories + [workdir];
        var popped := Pop(flushed).value;
        assert popped.directories == st.directories by {
          assert (st.directories + [workdir])[..|st.directories|] == st.directories;
        }
        assert Extends(ctx.fs, flushed, popped) by {
          assert popped.compiled[..|flushed.compiled|] == flushed.compiled;
        }
        ExtendsTransitive(ctx.fs, st, flushed, popped);
      }
  }

  /** The scan loop keeps the directory stack and only extends the state. */
  lemma {:induction false} RunGrows(fuel: nat, ctx: Ctx, src: string, workdir: string, pos: nat, mode: Mode, st: StateV)
    requires pos <= |src|
    decreases fuel, |src| - pos, 3
    ensures var r := Run(fuel, ctx, src, workdir, pos, mode, st);
            (r.Ok? ==> Grows(ctx.fs, st, r.value.0)) && (r.Err? ==> !r.error.DirectoriesEmpty?)
  {
    if pos < |src| {
      var step := Step(fuel, ctx, src, workdir, pos, mode, st);
      if mode == TextMode {
        TextStepGrows(fuel, ctx, src, workdir, pos, st);
      } else {
        RubyStepGrows(ctx.fs, src, pos, st);
      }
      match step
      case Err(_) =>
      case Ok(Stepped(st', n, m)) =>
        RunGrows(fuel, ctx, src, workdir, pos + n, m, st');
        var r := Run(fuel, ctx, src, workdir, pos + n, m, st');
        if r.Ok? {
          ExtendsTransitive(ctx.fs, st, st', r.value.0);
        }
    } else {
      assert st.compiled[..|st.compiled|] == st.compiled && st.pathes[..|st.pathes|] == st.pathes;
    }
  }

  /**
   * The frame of every compiled template: the preamble, the assignment of the template's own directory, and
   * at the end the assignment of '' (the stack is empty again) and the trailer. The paths start with the
   * template's own file and every included path exists. A compilation never fails on an empty stack.
   */
  lemma CompileFraming(fuel: nat, fs: FileSystem, source: string, workdir: string, rootdir: string,
                        filename: Option<string>, mode: Mode)
    ensures var r := CompileSpec(fuel, fs, source, workdir, rootdir, filename, mode);
            r.Err? ==> !r.error.DirectoriesEmpty?
    ensures var r := CompileSpec(fuel, fs, source, workdir, rootdir, filename, mode);
            r.Ok? ==>
              var t := r.value.0;
              5 <= |t.code|
              && t.code[..3] == [PreambleOpen, RootdirAssignment(rootdir), WorkdirAssignment(Some(workdir))]
              && t.code[|t.code| - 2..] == [WorkdirAssignment(None), Trailer]
              && (filename.Some? ==> t.pathes != [] && t.pathes[0] == filename.value)
              && RecordedExist(fs, t.pathes, if filename.Some? then 1 else 0)
  {
    var ctx := Ctx(fs, rootdir);
    var st0 := StartState(rootdir, filename);
    var pushed := Push(st0, workdir);
    RunGrows(fuel, ctx, source, workdir, 0, mode, pushed);
    var run := Run(fuel, ctx, source, workdir, 0, mode, pushed);
    if run.Ok? {
      var scanned := run.value.0;
      var flushed := Flush(scanned);
      assert flushed.directories == [workdir];
      var popped := Pop(flushed).value;
      assert Inner(fuel, ctx, source, workdir, true, mode, st0) == Ok((popped, run.value.1));
      var code := popped.compiled + [Trailer];
      assert CompileSpec(fuel, fs, source, workdir, rootdir, filename, mode) == Ok((Template(code, popped.pathes), run.value.1));
      assert popped.compiled == flushed.compiled + [WorkdirAssignment(None)];
      CodeFrame(pushed.compiled, scanned.compiled, flushed.compiled, code);
      assert popped.pathes[..|st0.pathes|] == st0.pathes;
    } else {
      assert Inner(fuel, ctx, source, workdir, true, mode, st0) == Err(run.error);
    }
  }

  /** The sequence reasoning behind CompileFraming: the first three fragments survive every append. */
  lemma CodeFrame(pushed: seq<string>, scanned: seq<string>, flushed: seq<string>, code: seq<string>)
    requires |pushed| == 3 && IsPrefix(pushed, scanned) && IsPrefix(scanned, flushed)
    requires code == flushed + [WorkdirAssignment(None), Trailer]
    ensures 5 <= |code| && code[..3] == pushed && code[|code| - 2..] == [WorkdirAssignment(None), Trailer]
  {
    assert code[..3] == flushed[..3] == scanned[..3];
  }

  /** A step on `p + rest` where `p` is plain and `rest` starts with a special character (or is empty). */
  lemma PlainPrefix(p: string, rest: string, depth: int)
    requires p != [] && Plain(p) && (rest == [] || IsSpecial(rest[0]))
    ensures TextTokenAt(p + rest) == TextRun(p)
    ensures RubyTokenAt(p + rest, depth) == CodeRun(p)
  {
    var s := p + rest;
    var n := PlainRun(s);
    assert forall k :: 0 <= k < |p| ==> s[k] == p[k];
    assert rest != [] ==> s[|p|] == rest[0];
    assert n == |p|;
    assert s[..n] == p;
    assert !StartsWith(s, "\\[") && !StartsWith(s, "\\]") && !StartsWith(s, "[<");
  }

  /** The plain run `p` at `pos` in TextMode becomes one pending text fragment. */
  lemma TextRunStep(fuel: nat, ctx: Ctx, src: string, workdir: string, pos: nat, st: StateV, p: string)
    requires p != [] && Plain(p) && pos + |p| <= |src| && src[pos..pos + |p|] == p
    requires pos + |p| == |src| || IsSpecial(src[pos + |p|])
    ensures Run(fuel, ctx, src, workdir, pos, TextMode, st)
         == Run(fuel, ctx, src, workdir, pos + |p|, TextMode, st.(text := st.text + [p]))
  {
    var rest := src[pos + |p|..];
    assert src[pos..] == p + rest;
    PlainPrefix(p, rest, 0);
    var step := TextStep(fuel, ctx, src, workdir, pos, st);
    assert step.Ok? && step.value.state == st.(text := st.text + [p]);
  }

  /** The plain run `p` at `pos` in RubyMode is copied into the code. */
  lemma CodeRunStep(fuel: nat, ctx: Ctx, src: string, workdir: string, pos: nat, st: StateV, p: string)
    requires p != [] && Plain(p) && pos + |p| <= |src| && src[pos..pos + |p|] == p
    requires pos + |p| == |src| || IsSpecial(src[pos + |p|])
    ensures Run(fuel, ctx, src, workdir, pos, RubyMode, st)
         == Run(fuel, ctx, src, workdir, pos + |p|, RubyMode, st.(compiled := st.compiled + [p]))
  {
    var rest := src[pos + |p|..];
    assert src[pos..] == p + rest;
    PlainPrefix(p, rest, st.openDepth);
    var step := RubyStep(src, pos, st);
    assert step.Ok? && step.value.state == st.(compiled := st.compiled + [p]);
  }

  /** "[=", "[!" or "[#" not followed by whitespace opens a code region. */
  lemma OpenerStep(fuel: nat, ctx: Ctx, src: string, workdir: string, pos: nat, st: StateV, mark: char)
    requires mark == '=' || mark == '!' || mark == '#'
    requires pos + 2 < |src| && src[pos] == '[' && src[pos + 1] == mark && !IsSpace(src[pos + 2])
    ensures Run(fuel, ctx, src, workdir, pos, TextMode, st)
         == Run(fuel, ctx, src, workdir, pos + 2, RubyMode, OpenRegion(st, OpenerOf(mark)))
  {
    var s := src[pos..];
    assert s[..2] == ['[', mark];
    OpenerPrecedence(s);
    assert OpenerMatch(s, mark).value == 2 by {
      assert s[2] == src[pos + 2];
    }
    var step := TextStep(fuel, ctx, src, workdir, pos, st);
    assert step.Ok? && step.value.state == OpenRegion(st, OpenerOf(mark)) && step.value.len == 2;
  }

  /** A ']' with no bracket open inside the code closes the region with the epilogue of its opener. */
  lemma CloseStep(fuel: nat, ctx: Ctx, src: string, workdir: string, pos: nat, st: StateV)
    requires pos < |src| && src[pos] == ']' && st.openDepth == 0
    ensures Run(fuel, ctx, src, workdir, pos, RubyMode, st)
         == Run(fuel, ctx, src, workdir, pos + 1, TextMode,
                st.(compiled := st.compiled + [Epilogue(st.lastOpen)], lastOpen := None))
  {
    assert RubyTokenAt(src[pos..], st.openDepth) == RegionClose;
  }

  /** `\[` in TextMode is kept as the pending text `\[`, so the bracket reaches the output literally. */
  lemma EscapedOpenStep(fuel: nat, ctx: Ctx, src: string, workdir: string, pos: nat, st: StateV)
    requires pos + 1 < |src| && src[pos] == '\\' && src[pos + 1] == '['
    ensures Run(fuel, ctx, src, workdir, pos, TextMode, st)
         == Run(fuel, ctx, src, workdir, pos + 2, TextMode, st.(text := st.text + ["\\["]))
  {
    assert StartsWith(src[pos..], "\\[");
    var step := TextStep(fuel, ctx, src, workdir, pos, st);
    assert step.Ok? && step.value.state == st.(text := st.text + ["\\["]) && step.value.len == 2;
  }

  /** A `]` in TextMode is kept as the pending text `\` and `]`, an escaped bracket in the output. */
  lemma StrayCloseStep(fuel: nat, ctx: Ctx, src: string, workdir: string, pos: nat, st: StateV)
    requires pos < |src| && src[pos] == ']'
    ensures Run(fuel, ctx, src, workdir, pos, TextMode, st)
         == Run(fuel, ctx, src, workdir, pos + 1, TextMode, st.(text := st.text + ["\\", "]"]))
  {
    var s := src[pos..];
    assert s[0] == ']' && !StartsWith(s, "\\[") && !StartsWith(s, "[<");
    assert TextTokenAt(s) == StrayClose;
    var step := TextStep(fuel, ctx, src, workdir, pos, st);
    assert step.Ok? && step.value.state == st.(text := st.text + ["\\", "]"]) && step.value.len == 1;
  }

  /** A `\` in TextMode that does not escape a `[` is kept as the pending text `\\` and `\`. */
  lemma BackslashStep(fuel: nat, ctx: Ctx, src: string, workdir: string, pos: nat, st: StateV)
    requires pos < |src| && src[pos] == '\\' && (pos + 1 == |src| || src[pos + 1] != '[')
    ensures Run(fuel, ctx, src, workdir, pos, TextMode, st)
         == Run(fuel, ctx, src, workdir, pos + 1, TextMode, st.(text := st.text + ["\\\\", "\\"]))
  {
    var s := src[pos..];
    assert s[0] == '\\' && !StartsWith(s, "\\[") && !StartsWith(s, "[<") && PlainRun(s) == 0;
    assert TextTokenAt(s) == Backslash;
    var step := TextStep(fuel, ctx, src, workdir, pos, st);
    assert step.Ok? && step.value.state == st.(text := st.text + ["\\\\", "\\"]) && step.value.len == 1;
  }

  /**
   * A bare `[` (not starting `[<`, `[=`, `[!` or `[#`) opens a statement region: OPEN becomes the last opener,
   * the pending text is flushed, no prologue is emitted and RubyMode is entered.
   */
  lemma StatementOpenStep(fuel: nat, ctx: Ctx, src: string, workdir: string, pos: nat, st: StateV)
    requires pos < |src| && src[pos] == '['
    requires pos + 1 == |src| || (src[pos + 1] != '<' && src[pos + 1] != '=' && src[pos + 1] != '!' && src[pos + 1] != '#')
    ensures Run(fuel, ctx, src, workdir, pos, TextMode, st)
         == Run(fuel, ctx, src, workdir, pos + 1, RubyMode, Flush(st.(lastOpen := Some(Open))))
  {
    var s := src[pos..];
    OpenerPrecedence(s);
    assert TextTokenAt(s) == StatementOpen;
    var flushed := Flush(st.(lastOpen := Some(Open)));
    assert OpenRegion(st, Open) == flushed by {
      assert flushed.compiled + Prologue(Open) == flushed.compiled;
    }
    var step := TextStep(fuel, ctx, src, workdir, pos, st);
    assert step.Ok? && step.value.state == flushed && step.value.len == 1;
  }

  /** A `[` inside code is copied and opens one more bracket level. */
  lemma NestedOpenStep(fuel: nat, ctx: Ctx, src: string, workdir: string, pos: nat, st: StateV)
    requires pos < |src| && src[pos] == '['
    ensures Run(fuel, ctx, src, workdir, pos, RubyMode, st)
         == Run(fuel, ctx, src, workdir, pos + 1, RubyMode,
                st.(openDepth := st.openDepth + 1, compiled := st.compiled + ["["]))
  {
    assert RubyTokenAt(src[pos..], st.openDepth) == NestedOpen;
  }

  /** A `]` inside code with a bracket level open is copied and closes that level, not the region. */
  lemma NestedCloseStep(fuel: nat, ctx: Ctx, src: string, workdir: string, pos: nat, st: StateV)
    requires pos < |src| && src[pos] == ']' && st.openDepth != 0
    ensures Run(fuel, ctx, src, workdir, pos, RubyMode, st)
         == Run(fuel, ctx, src, workdir, pos + 1, RubyMode,
                st.(openDepth := st.openDepth - 1, compiled := st.compiled + ["]"]))
  {
    assert RubyTokenAt(src[pos..], st.openDepth) == NestedClose;
  }

  /** `\[` and `\]` inside code are copied unchanged and leave the bracket level alone. */
  lemma EscapedCodeStep(fuel: nat, ctx: Ctx, src: string, workdir: string, pos: nat, st: StateV)
    requires pos + 1 < |src| && src[pos] == '\\' && (src[pos + 1] == '[' || src[pos + 1] == ']')
    ensures Run(fuel, ctx, src, workdir, pos, RubyMode, st)
         == Run(fuel, ctx, src, workdir, pos + 2, RubyMode, st.(compiled := st.compiled + [['\\', src[pos + 1]]]))
  {
    var s := src[pos..];
    assert s[0] == '\\' && s[1] == src[pos + 1];
    if src[pos + 1] == ']' {
      assert StartsWith(s, "\\]");
      assert RubyTokenAt(s, st.openDepth) == EscapedClose;
    } else {
      assert StartsWith(s, "\\[") && !StartsWith(s, "\\]");
      assert RubyTokenAt(s, st.openDepth) == EscapedOpenCode;
    }
  }

  /**
   * The end of a compilation once the scan loop has reached `st`: flush, pop the root directory, append
   * the trailer.
   */
  lemma CompileOfRun(fuel: nat, fs: FileSystem, source: string, workdir: string, filename: Option<string>,
                     mode: Mode, st: StateV, m: Mode)
    requires Run(fuel, Ctx(fs, workdir), source, workdir, 0, mode, Push(StartState(workdir, filename), workdir))
             == Ok((st, m))
    requires st.directories == [workdir]
    ensures CompileSpec(fuel, fs, source, workdir, workdir, filename, mode)
         == Ok((Template(Flush(st).compiled + [WorkdirAssignment(None), Trailer], st.pathes), m))
  {
    var flushed := Flush(st);
    assert flushed.directories[..0] == [];
    var popped := Pop(flushed).value;
    assert popped.compiled == flushed.compiled + [WorkdirAssignment(None)];
    assert popped.pathes == st.pathes;
    assert popped.compiled + [Trailer] == flushed.compiled + [WorkdirAssignment(None), Trailer];
    assert Inner(fuel, Ctx(fs, workdir), source, workdir, true, mode, StartState(workdir, filename)) == Ok((popped, m));
  }

  /**
   * CompileOfRun spelled out: the code is the frame around what the loop emitted once its pending text is
   * flushed, the paths are the template's own followed by what the loop recorded.
   */
  lemma FlushedRunCompiles(fuel: nat, fs: FileSystem, source: string, workdir: string, filename: Option<string>,
                           st: StateV, emitted: seq<string>, recorded: seq<string>)
    requires Run(fuel, Ctx(fs, workdir), source, workdir, 0, TextMode, Push(StartState(workdir, filename), workdir))
             == Ok((st, TextMode))
    requires st.directories == [workdir]
    requires Flush(st).compiled == Push(StartState(workdir, filename), workdir).compiled + emitted
    requires st.pathes == StartState(workdir, filename).pathes + recorded
    ensures CompileSpec(fuel, fs, source, workdir, workdir, filename, TextMode)
         == Ok((Template([PreambleOpen, RootdirAssignment(workdir), WorkdirAssignment(Some(workdir))]
                         + emitted + [WorkdirAssignment(None), Trailer],
                         StartState(workdir, filename).pathes + recorded), TextMode))
  {
    CompileOfRun(fuel, fs, source, workdir, filename, TextMode, st, TextMode);
    assert Push(StartState(workdir, filename), workdir).compiled
        == [PreambleOpen, RootdirAssignment(workdir), WorkdirAssignment(Some(workdir))];
  }

  /**
   * A template without brackets and backslashes compiles to one output statement that appends it verbatim
   * (none at all when it is empty), between the frame of every template.
   */
  lemma PlainTextCompiles(fuel: nat, fs: FileSystem, source: string, workdir: string, filename: Option<string>)
    requires Plain(source)
    ensures CompileSpec(fuel, fs, source, workdir, workdir, filename, TextMode)
         == Ok((Template([PreambleOpen, RootdirAssignment(workdir), WorkdirAssignment(Some(workdir))]
                         + (if source == [] then [] else [OutputOpen, source, OutputClose])
                         + [WorkdirAssignment(None), Trailer],
                         StartState(workdir, filename).pathes), TextMode))
  {
    var ctx := Ctx(fs, workdir);
    var pushed := Push(StartState(workdir, filename), workdir);
    if source != [] {
      assert source[0..|source|] == source;
      TextRunStep(fuel, ctx, source, workdir, 0, pushed, source);
      var st1 := pushed.(text := pushed.text + [source]);
      assert st1.text == [source];
      assert Flush(st1).compiled == [PreambleOpen, RootdirAssignment(workdir), WorkdirAssignment(Some(workdir))]
                                    + [OutputOpen, source, OutputClose];
      CompileOfRun(fuel, fs, source, workdir, filename, TextMode, st1, TextMode);
    } else {
      assert Flush(pushed) == pushed;
      assert Run(fuel, ctx, source, workdir, 0, TextMode, pushed) == Ok((pushed, TextMode));
      CompileOfRun(fuel, fs, source, workdir, filename, TextMode, pushed, TextMode);
      assert pushed.compiled == [PreambleOpen, RootdirAssignment(workdir), WorkdirAssignment(Some(workdir))];
      assert pushed.pathes == StartState(workdir, filename).pathes;
      var frame := [PreambleOpen, RootdirAssignment(workdir), WorkdirAssignment(Some(workdir))] + [WorkdirAssignment(None), Trailer];
      assert CompileSpec(fuel, fs, source, workdir, workdir, filename, TextMode) == Ok((Template(frame, pushed.pathes), TextMode));
      assert frame == [PreambleOpen, RootdirAssignment(workdir), WorkdirAssignment(Some(workdir))] + []
                      + [WorkdirAssignment(None), Trailer];
    }
  }

  /** The opener a mark character after '[' selects. */
  function OpenerOf(mark: char): Opener {
    if mark == '=' then PriOpen else if mark == '!' then RawOpen else ComOpen
  }

  /**
   * Text, a code region opened by "[=", "[!" or "[#" and closed by ']', and more text: the text before is
   * flushed, the opener's prologue, the code and the matching epilogue follow, then the text after.
   */
  lemma RegionCompiles(fuel: nat, fs: FileSystem, before: string, mark: char, code: string, after: string,
                       workdir: string, filename: Option<string>)
    requires mark == '=' || mark == '!' || mark == '#'
    requires before != [] && Plain(before) && after != [] && Plain(after)
    requires code != [] && Plain(code) && !IsSpace(code[0])
    ensures CompileSpec(fuel, fs, before + ['[', mark] + code + "]" + after, workdir, workdir, filename, TextMode)
         == Ok((Template([PreambleOpen, RootdirAssignment(workdir), WorkdirAssignment(Some(workdir)),
                          OutputOpen, before, OutputClose]
                         + Prologue(OpenerOf(mark))
                         + [code, Epilogue(Some(OpenerOf(mark))), OutputOpen, after, OutputClose,
                            WorkdirAssignment(None), Trailer],
                         StartState(workdir, filename).pathes), TextMode))
  {
    var src := before + ['[', mark] + code + "]" + after;
    var st0 := Push(StartState(workdir, filename), workdir);
    var k := OpenerOf(mark);
    RegionLayout(src, before, mark, code, after);
    var st5 := RegionRun(fuel, Ctx(fs, workdir), src, workdir, before, mark, code, after, st0);
    var emitted := [OutputOpen, before, OutputClose] + Prologue(k) + [code, Epilogue(Some(k)), OutputOpen, after, OutputClose];
    assert Flush(st5).compiled == st0.compiled + emitted;
    FlushedRunCompiles(fuel, fs, src, workdir, filename, st5, emitted, []);
    RegionCode(workdir, before, Prologue(k), code, Epilogue(Some(k)), after);
  }

  /** The arrangement of the fragments RegionRun emits, once flushed and closed. */
  lemma RegionCode(workdir: string, before: string, prologue: seq<string>, code: string, epilogue: string, after: string)
    ensures [PreambleOpen, RootdirAssignment(workdir), WorkdirAssignment(Some(workdir))]
            + ([OutputOpen, before, OutputClose] + prologue + [code, epilogue, OutputOpen, after, OutputClose])
            + [WorkdirAssignment(None), Trailer]
         == [PreambleOpen, RootdirAssignment(workdir), WorkdirAssignment(Some(workdir)), OutputOpen, before, OutputClose]
            + prologue + [code, epilogue, OutputOpen, after, OutputClose, WorkdirAssignment(None), Trailer]
  {
  }

  /** The scan loop over text, a code region and more text (laid out by RegionLayout), from state `st0`. */
  lemma RegionRun(fuel: nat, ctx: Ctx, src: string, workdir: string, before: string, mark: char, code: string,
                  after: string, st0: StateV) returns (st5: StateV)
    requires mark == '=' || mark == '!' || mark == '#'
    requires before != [] && Plain(before) && after != [] && Plain(after)
    requires code != [] && Plain(code) && !IsSpace(code[0])
    requires |before| + 2 + |code| + 1 + |after| == |src|
    requires src[0..|before|] == before && src[|before|] == '[' && src[|before| + 1] == mark
    requires src[|before| + 2..|before| + 2 + |code|] == code && src[|before| + 2] == code[0]
    requires src[|before| + 2 + |code|] == ']' && src[|before| + 2 + |code| + 1..|src|] == after
    requires st0.text == [] && st0.openDepth == 0
    ensures Run(fuel, ctx, src, workdir, 0, TextMode, st0) == Ok((st5, TextMode))
    ensures st5 == st0.(compiled := st0.compiled + [OutputOpen, before, OutputClose] + Prologue(OpenerOf(mark))
                                    + [code, Epilogue(Some(OpenerOf(mark)))],
                        text := [after], lastOpen := None)
  {
    var st2 := RegionHead(fuel, ctx, src, workdir, before, mark, st0);
    st5 := RegionTail(fuel, ctx, src, workdir, |before| + 2, code, after, st2);
    var st1 := st0.(text := st0.text + [before], lastOpen := Some(OpenerOf(mark)));
    assert Flush(st1).compiled == st0.compiled + [OutputOpen, before, OutputClose];
  }

  /** The text before a region and its opener: the text is pending, then flushed before the prologue. */
  lemma RegionHead(fuel: nat, ctx: Ctx, src: string, workdir: string, before: string, mark: char, st0: StateV)
    returns (st2: StateV)
    requires mark == '=' || mark == '!' || mark == '#'
    requires before != [] && Plain(before)
    requires |before| + 2 < |src| && src[0..|before|] == before
    requires src[|before|] == '[' && src[|before| + 1] == mark && !IsSpace(src[|before| + 2])
    ensures Run(fuel, ctx, src, workdir, 0, TextMode, st0)
         == Run(fuel, ctx, src, workdir, |before| + 2, RubyMode, st2)
    ensures st2 == OpenRegion(st0.(text := st0.text + [before]), OpenerOf(mark))
  {
    var st1 := st0.(text := st0.text + [before]);
    st2 := OpenRegion(st1, OpenerOf(mark));
    TextRunStep(fuel, ctx, src, workdir, 0, st0, before);
    OpenerStep(fuel, ctx, src, workdir, |before|, st1, mark);
  }

  /** The code of a region starting at `pos`, its closing bracket and the text after it up to the end. */
  lemma RegionTail(fuel: nat, ctx: Ctx, src: string, workdir: string, pos: nat, code: string, after: string,
                   st2: StateV) returns (st5: StateV)
    requires after != [] && Plain(after) && code != [] && Plain(code)
    requires pos + |code| + 1 + |after| == |src|
    requires src[pos..pos + |code|] == code && src[pos + |code|] == ']'
    requires src[pos + |code| + 1..|src|] == after
    requires st2.openDepth == 0
    ensures Run(fuel, ctx, src, workdir, pos, RubyMode, st2) == Ok((st5, TextMode))
    ensures st5 == st2.(compiled := st2.compiled + [code, Epilogue(st2.lastOpen)], lastOpen := None,
                        text := st2.text + [after])
  {
    var st3 := st2.(compiled := st2.compiled + [code]);
    CodeRunStep(fuel, ctx, src, workdir, pos, st2, code);
    st5 := RegionEnd(fuel, ctx, src, workdir, pos + |code|, after, st3);
  }

  /** The closing bracket at `pos` and the text after it up to the end. */
  lemma RegionEnd(fuel: nat, ctx: Ctx, src: string, workdir: string, pos: nat, after: string, st3: StateV)
    returns (st5: StateV)
    requires after != [] && Plain(after)
    requires pos + 1 + |after| == |src| && src[pos] == ']' && src[pos + 1..|src|] == after
    requires st3.openDepth == 0
    ensures Run(fuel, ctx, src, workdir, pos, RubyMode, st3) == Ok((st5, TextMode))
    ensures st5 == st3.(compiled := st3.compiled + [Epilogue(st3.lastOpen)], lastOpen := None,
                        text := st3.text + [after])
  {
    var st4 := st3.(compiled := st3.compiled + [Epilogue(st3.lastOpen)], lastOpen := None);
    st5 := st4.(text := st4.text + [after]);
    CloseStep(fuel, ctx, src, workdir, pos, st3);
    TextRunStep(fuel, ctx, src, workdir, pos + 1, st4, after);
    assert Run(fuel, ctx, src, workdir, |src|, TextMode, st5) == Ok((st5, TextMode));
  }

  /** Where the parts of a region template sit in the source. */
  lemma RegionLayout(src: string, before: string, mark: char, code: string, after: string)
    requires code != [] && src == before + ['[', mark] + code + "]" + after
    ensures |before| + 2 + |code| + 1 + |after| == |src|
    ensures src[0..|before|] == before && src[|before|] == '[' && src[|before| + 1] == mark
    ensures src[|before| + 2..|before| + 2 + |code|] == code && src[|before| + 2] == code[0]
    ensures src[|before| + 2 + |code|] == ']' && src[|before| + 2 + |code| + 1..|src|] == after
  {
  }

  /**
   * The end of the source inside a code region is not an error: "[=" followed by code and no closing
   * bracket compiles, and the parser is left in RubyMode.
   */
  lemma UnclosedRegionAccepted(fuel: nat, fs: FileSystem, code: string, workdir: string, filename: Option<string>)
    requires Plain(code)
    ensures var r := CompileSpec(fuel, fs, "[=" + code, workdir, workdir, filename, TextMode);
            r.Ok? && r.value.1 == RubyMode
  {
    var ctx := Ctx(fs, workdir);
    var src := "[=" + code;
    var st0 := Push(StartState(workdir, filename), workdir);
    OpenerPrecedence(src);
    var n := OpenerMatch(src, '=').value;
    var st1 := OpenRegion(st0, PriOpen);
    var step := TextStep(fuel, ctx, src, workdir, 0, st0);
    assert step.Ok? && step.value.state == st1 && step.value.len == n;
    if n < |src| {
      var rest := src[n..];
      assert src[n..n + |rest|] == rest;
      CodeRunStep(fuel, ctx, src, workdir, n, st1, rest);
      CompileOfRun(fuel, fs, src, workdir, filename, TextMode, st1.(compiled := st1.compiled + [rest]), RubyMode);
    } else {
      CompileOfRun(fuel, fs, src, workdir, filename, TextMode, st1, RubyMode);
    }
  }

  /**
   * A statement region holding one balanced pair of brackets, as in `[print [1, 2, "3"], "\n" ]`: the inner
   * `[` and `]` are copied into the code and only the outer `]` closes the region, with the newline epilogue.
   */
  lemma NestedBracketsCompile(fuel: nat, fs: FileSystem, a: string, b: string, c: string,
                              workdir: string, filename: Option<string>)
    requires a != [] && Plain(a) && a[0] != '<' && a[0] != '=' && a[0] != '!' && a[0] != '#'
    requires b != [] && Plain(b) && c != [] && Plain(c)
    ensures CompileSpec(fuel, fs, "[" + a + "[" + b + "]" + c + "]", workdir, workdir, filename, TextMode)
         == Ok((Template([PreambleOpen, RootdirAssignment(workdir), WorkdirAssignment(Some(workdir)),
                          a, "[", b, "]", c, Epilogue(Some(Open)), WorkdirAssignment(None), Trailer],
                         StartState(workdir, filename).pathes), TextMode))
  {
    var src := "[" + a + "[" + b + "]" + c + "]";
    var st0 := Push(StartState(workdir, filename), workdir);
    var code := [a, "[", b, "]", c, Epilogue(Some(Open))];
    NestedLayout(src, a, b, c);
    var st := NestedRun(fuel, Ctx(fs, workdir), src, workdir, a, b, c, st0);
    FlushedRunCompiles(fuel, fs, src, workdir, filename, st, code, []);
    NestedCode(workdir, code);
  }

  /** The arrangement of the fragments NestedRun emits, once closed. */
  lemma NestedCode(workdir: string, code: seq<string>)
    requires |code| == 6
    ensures [PreambleOpen, RootdirAssignment(workdir), WorkdirAssignment(Some(workdir))] + code
            + [WorkdirAssignment(None), Trailer]
         == [PreambleOpen, RootdirAssignment(workdir), WorkdirAssignment(Some(workdir)),
             code[0], code[1], code[2], code[3], code[4], code[5], WorkdirAssignment(None), Trailer]
  {
  }

  /** The scan loop over a statement region holding one balanced pair of brackets (laid out by NestedLayout). */
  lemma NestedRun(fuel: nat, ctx: Ctx, src: string, workdir: string, a: string, b: string, c: string, st0: StateV)
    returns (st: StateV)
    requires a != [] && Plain(a) && a[0] != '<' && a[0] != '=' && a[0] != '!' && a[0] != '#'
    requires b != [] && Plain(b) && c != [] && Plain(c)
    requires 2 + |a| + |b| + |c| + 2 == |src|
    requires src[0] == '[' && src[1] == a[0] && src[1..1 + |a|] == a && src[1 + |a|] == '['
    requires src[2 + |a|..2 + |a| + |b|] == b && src[2 + |a| + |b|] == ']'
    requires src[2 + |a| + |b| + 1..2 + |a| + |b| + 1 + |c|] == c && src[2 + |a| + |b| + 1 + |c|] == ']'
    requires st0.text == [] && st0.openDepth == 0
    ensures Run(fuel, ctx, src, workdir, 0, TextMode, st0) == Ok((st, TextMode))
    ensures st == st0.(compiled := st0.compiled + [a, "[", b, "]", c, Epilogue(Some(Open))], lastOpen := None)
  {
    var st3 := NestedHead(fuel, ctx, src, workdir, a, st0);
    st := NestedTail(fuel, ctx, src, workdir, 2 + |a|, b, c, st3);
    assert st3.compiled + [b, "]", c, Epilogue(Some(Open))]
        == st0.compiled + [a, "[", b, "]", c, Epilogue(Some(Open))];
  }

  /** The statement opener, the code before the inner `[` and that `[` itself. */
  lemma NestedHead(fuel: nat, ctx: Ctx, src: string, workdir: string, a: string, st0: StateV)
    returns (st3: StateV)
    requires a != [] && Plain(a) && a[0] != '<' && a[0] != '=' && a[0] != '!' && a[0] != '#'
    requires 2 + |a| < |src| && src[0] == '[' && src[1] == a[0] && src[1..1 + |a|] == a && src[1 + |a|] == '['
    requires st0.text == [] && st0.openDepth == 0
    ensures Run(fuel, ctx, src, workdir, 0, TextMode, st0) == Run(fuel, ctx, src, workdir, 2 + |a|, RubyMode, st3)
    ensures st3 == st0.(compiled := st0.compiled + [a, "["], lastOpen := Some(Open), openDepth := 1)
  {
    var st1 := st0.(lastOpen := Some(Open));
    StatementOpenStep(fuel, ctx, src, workdir, 0, st0);
    assert Flush(st1) == st1;
    CodeRunStep(fuel, ctx, src, workdir, 1, st1, a);
    var st2 := st1.(compiled := st1.compiled + [a]);
    NestedOpenStep(fuel, ctx, src, workdir, 1 + |a|, st2);
    st3 := st2.(openDepth := 1, compiled := st2.compiled + ["["]);
  }

  /** The inner code, the inner `]`, the rest of the code and the closing `]` of a nested statement region. */
  lemma NestedTail(fuel: nat, ctx: Ctx, src: string, workdir: string, pos: nat, b: string, c: string, st3: StateV)
    returns (st: StateV)
    requires b != [] && Plain(b) && c != [] && Plain(c)
    requires pos + |b| + |c| + 2 == |src|
    requires src[pos..pos + |b|] == b && src[pos + |b|] == ']'
    requires src[pos + |b| + 1..pos + |b| + 1 + |c|] == c && src[pos + |b| + 1 + |c|] == ']'
    requires st3.openDepth == 1
    ensures Run(fuel, ctx, src, workdir, pos, RubyMode, st3) == Ok((st, TextMode))
    ensures st == st3.(openDepth := 0, compiled := st3.compiled + [b, "]", c, Epilogue(st3.lastOpen)], lastOpen := None)
  {
    var st4 := st3.(compiled := st3.compiled + [b]);
    CodeRunStep(fuel, ctx, src, workdir, pos, st3, b);
    var st5 := st4.(openDepth := 0, compiled := st4.compiled + ["]"]);
    NestedCloseStep(fuel, ctx, src, workdir, pos + |b|, st4);
    st := FinalCode(fuel, ctx, src, workdir, pos + |b| + 1, c, st5);
  }

  /** The last code of a region, ending at the closing `]` that is the last character of the source. */
  lemma FinalCode(fuel: nat, ctx: Ctx, src: string, workdir: string, pos: nat, c: string, st5: StateV)
    returns (st: StateV)
    requires c != [] && Plain(c)
    requires pos + |c| + 1 == |src| && src[pos..pos + |c|] == c && src[pos + |c|] == ']'
    requires st5.openDepth == 0
    ensures Run(fuel, ctx, src, workdir, pos, RubyMode, st5) == Ok((st, TextMode))
    ensures st == st5.(compiled := st5.compiled + [c, Epilogue(st5.lastOpen)], lastOpen := None)
  {
    var st6 := st5.(compiled := st5.compiled + [c]);
    CodeRunStep(fuel, ctx, src, workdir, pos, st5, c);
    st := st6.(compiled := st6.compiled + [Epilogue(st6.lastOpen)], lastOpen := None);
    CloseStep(fuel, ctx, src, workdir, pos + |c|, st6);
    assert Run(fuel, ctx, src, workdir, |src|, TextMode, st) == Ok((st, TextMode));
  }

  /** Where the parts of a nested statement region sit in the source. */
  lemma NestedLayout(src: string, a: string, b: string, c: string)
    requires a != [] && src == "[" + a + "[" + b + "]" + c + "]"
    ensures |src| == |a| + |b| + |c| + 4
    ensures src[0] == '[' && src[1] == a[0] && src[1..1 + |a|] == a && src[1 + |a|] == '['
    ensures 2 + |a| + |b| + |c| + 2 == |src|
    ensures src[2 + |a|..2 + |a| + |b|] == b && src[2 + |a| + |b|] == ']'
    ensures src[2 + |a| + |b| + 1..2 + |a| + |b| + 1 + |c|] == c && src[2 + |a| + |b| + 1 + |c|] == ']'
  {
  }

  /**
   * Text holding an escaped opener and a stray closer, as in `puts \[1, 2, '3']`: both brackets stay in the
   * output literal, `\[` as is and `]` as a backslash followed by the bracket.
   */
  lemma EscapedTextCompiles(fuel: nat, fs: FileSystem, a: string, b: string, workdir: string, filename: Option<string>)
    requires a != [] && Plain(a) && b != [] && Plain(b)
    ensures CompileSpec(fuel, fs, a + "\\[" + b + "]", workdir, workdir, filename, TextMode)
         == Ok((Template([PreambleOpen, RootdirAssignment(workdir), WorkdirAssignment(Some(workdir)),
                          OutputOpen, a, "\\[", b, "\\", "]", OutputClose, WorkdirAssignment(None), Trailer],
                         StartState(workdir, filename).pathes), TextMode))
  {
    var src := a + "\\[" + b + "]";
    var st0 := Push(StartState(workdir, filename), workdir);
    var text := [a, "\\[", b, "\\", "]"];
    var st := EscapedTextRun(fuel, Ctx(fs, workdir), src, workdir, a, b, st0);
    FlushedRunCompiles(fuel, fs, src, workdir, filename, st, [OutputOpen] + text + [OutputClose], []);
    EscapedTextCode(workdir, text);
  }

  /** The arrangement of the fragments EscapedTextRun leaves pending, once flushed and closed. */
  lemma EscapedTextCode(workdir: string, text: seq<string>)
    requires |text| == 5
    ensures [PreambleOpen, RootdirAssignment(workdir), WorkdirAssignment(Some(workdir))]
            + ([OutputOpen] + text + [OutputClose]) + [WorkdirAssignment(None), Trailer]
         == [PreambleOpen, RootdirAssignment(workdir), WorkdirAssignment(Some(workdir)),
             OutputOpen, text[0], text[1], text[2], text[3], text[4], OutputClose, WorkdirAssignment(None), Trailer]
  {
  }

  /** The scan loop over text holding an escaped opener and a final stray closer, from state `st0`. */
  lemma EscapedTextRun(fuel: nat, ctx: Ctx, src: string, workdir: string, a: string, b: string, st0: StateV)
    returns (st: StateV)
    requires a != [] && Plain(a) && b != [] && Plain(b)
    requires src == a + "\\[" + b + "]" && st0.text == []
    ensures Run(fuel, ctx, src, workdir, 0, TextMode, st0) == Ok((st, TextMode))
    ensures st == st0.(text := [a, "\\[", b, "\\", "]"])
  {
    assert |src| == |a| + |b| + 3;
    assert src[0..|a|] == a && src[|a|] == '\\' && src[|a| + 1] == '[';
    assert src[|a| + 2..|a| + 2 + |b|] == b && src[|a| + 2 + |b|] == ']';
    TextRunStep(fuel, ctx, src, workdir, 0, st0, a);
    var st1 := st0.(text := st0.text + [a]);
    EscapedOpenStep(fuel, ctx, src, workdir, |a|, st1);
    var st2 := st1.(text := st1.text + ["\\["]);
    TextRunStep(fuel, ctx, src, workdir, |a| + 2, st2, b);
    var st3 := st2.(text := st2.text + [b]);
    StrayCloseStep(fuel, ctx, src, workdir, |a| + 2 + |b|, st3);
    st := st3.(text := st3.text + ["\\", "]"]);
    assert Run(fuel, ctx, src, workdir, |src|, TextMode, st) == Ok((st, TextMode));
  }

  /** "[<name]" is an include tag naming exactly `name` when the name has no leading whitespace. */
  lemma IncludeToken(name: string, rest: string)
    requires name != [] && Plain(name) && !IsSpace(name[0])
    ensures TextTokenAt("[<" + name + "]" + rest) == IncludeTag(name, |name| + 3)
  {
    var s := "[<" + name + "]" + rest;
    var k := |name| + 2;
    assert s[k] == ']';
    assert forall j :: 2 <= j < k ==> s[j] == name[j - 2];
    assert IndexFrom(s, ']', 2) == Some(k);
    assert s[2..k] == name;
    assert SpaceRun(name) == 0;
    assert name[0..] == name;
    assert StartsWith(s, "[<") && !StartsWith(s, "\\[");
  }

  /**
   * Including a file that does not exist is a compile error naming the path the name resolves to in the
   * including template's directory.
   */
  lemma MissingIncludeFails(fuel: nat, fs: FileSystem, name: string, workdir: string, filename: Option<string>)
    requires name != [] && Plain(name) && !IsSpace(name[0]) && name[0] != '/'
    requires Join(workdir, name) !in fs
    ensures CompileSpec(fuel, fs, "[<" + name + "]", workdir, workdir, filename, TextMode) == Err(CannotOpen(Join(workdir, name)))
  {
    var src := "[<" + name + "]";
    assert src[0..] == src + [];
    IncludeToken(name, []);
    var ctx := Ctx(fs, workdir);
    var st0 := Push(StartState(workdir, filename), workdir);
    assert Interpret(name, workdir, workdir) == Join(workdir, name);
    assert Include(fuel, ctx, workdir, name, st0.(lastOpen := Some(IncOpen))) == Err(CannotOpen(Join(workdir, name)));
    assert TextStep(fuel, ctx, src, workdir, 0, st0) == Err(CannotOpen(Join(workdir, name)));
    assert Run(fuel, ctx, src, workdir, 0, TextMode, st0) == Err(CannotOpen(Join(workdir, name)));
  }

  /**
   * Including a file of plain text from the same directory inlines it: the template compiles as if the
   * file's text stood in place of the tag, and the included path is recorded after the template's own.
   */
  lemma IncludeInlinesFile(fuel: nat, fs: FileSystem, name: string, workdir: string, filename: Option<string>)
    requires 1 <= fuel
    requires name != [] && Plain(name) && !IsSpace(name[0]) && forall k :: 0 <= k < |name| ==> name[k] != '/'
    requires workdir != [] && workdir[|workdir| - 1] != '/'
    requires Join(workdir, name) in fs && fs[Join(workdir, name)].File? && Plain(fs[Join(workdir, name)].contents)
    ensures var text := fs[Join(workdir, name)].contents;
            CompileSpec(fuel, fs, "[<" + name + "]", workdir, workdir, filename, TextMode)
              == Ok((Template([PreambleOpen, RootdirAssignment(workdir), WorkdirAssignment(Some(workdir))]
                              + (if text == [] then [] else [OutputOpen, text, OutputClose])
                              + [WorkdirAssignment(None), Trailer],
                              StartState(workdir, filename).pathes + [Join(workdir, name)]), TextMode))
  {
    var src := "[<" + name + "]";
    var text := fs[Join(workdir, name)].contents;
    var st0 := Push(StartState(workdir, filename), workdir);
    var child := IncludeRun(fuel, Ctx(fs, workdir), name, workdir, st0);
    FlushedRunCompiles(fuel, fs, src, workdir, filename, child,
                       if text == [] then [] else [OutputOpen, text, OutputClose], [Join(workdir, name)]);
  }

  /** The scan loop over a lone include tag naming a plain file in the same directory. */
  lemma IncludeRun(fuel: nat, ctx: Ctx, name: string, workdir: string, st0: StateV) returns (child: StateV)
    requires 1 <= fuel && ctx.rootdir == workdir
    requires name != [] && Plain(name) && !IsSpace(name[0]) && forall k :: 0 <= k < |name| ==> name[k] != '/'
    requires workdir != [] && workdir[|workdir| - 1] != '/'
    requires Join(workdir, name) in ctx.fs && ctx.fs[Join(workdir, name)].File?
    requires Plain(ctx.fs[Join(workdir, name)].contents)
    requires st0.text == []
    ensures Run(fuel, ctx, "[<" + name + "]", workdir, 0, TextMode, st0) == Ok((child, TextMode))
    ensures var text := ctx.fs[Join(workdir, name)].contents;
            child == st0.(lastOpen := Some(IncOpen),
                          compiled := st0.compiled + (if text == [] then [] else [OutputOpen, text, OutputClose]),
                          pathes := st0.pathes + [Join(workdir, name)])
  {
    var src := "[<" + name + "]";
    assert src[0..] == src + [];
    IncludeToken(name, []);
    child := IncludeResolves(fuel, ctx, name, workdir, st0.(lastOpen := Some(IncOpen)));
    assert TextStep(fuel, ctx, src, workdir, 0, st0) == Ok(Stepped(child, |src|, TextMode));
    RunUnfold(fuel, ctx, src, workdir, 0, TextMode, st0);
    assert Run(fuel, ctx, src, workdir, |src|, TextMode, child) == Ok((child, TextMode));
  }

  /** Parser#include_template on a plain file in the same directory, with no pending text. */
  lemma IncludeResolves(fuel: nat, ctx: Ctx, name: string, workdir: string, entered: StateV) returns (child: StateV)
    requires 1 <= fuel && ctx.rootdir == workdir
    requires name != [] && forall k :: 0 <= k < |name| ==> name[k] != '/'
    requires workdir != [] && workdir[|workdir| - 1] != '/'
    requires Join(workdir, name) in ctx.fs && ctx.fs[Join(workdir, name)].File?
    requires Plain(ctx.fs[Join(workdir, name)].contents)
    requires entered.text == []
    ensures Include(fuel, ctx, workdir, name, entered) == Ok(child)
    ensures var text := ctx.fs[Join(workdir, name)].contents;
            child == entered.(compiled := entered.compiled + (if text == [] then [] else [OutputOpen, text, OutputClose]),
                              pathes := entered.pathes + [Join(workdir, name)])
  {
    var path := Join(workdir, name);
    var text := ctx.fs[path].contents;
    DirnameOfJoin(workdir, name);
    assert Flush(entered) == entered;
    var recorded := entered.(pathes := entered.pathes + [path]);
    child := ChildRun(fuel - 1, ctx, text, workdir, recorded);
    assert Interpret(name, workdir, workdir) == path;
    assert Read(ctx.fs, path) == Ok(text);
  }

  /** A child parser in its parent's directory compiling plain text: no push, one flushed text fragment. */
  lemma ChildRun(fuel: nat, ctx: Ctx, text: string, workdir: string, st: StateV) returns (done: StateV)
    requires Plain(text) && st.text == []
    ensures Inner(fuel, ctx, text, workdir, false, TextMode, st) == Ok((done, TextMode))
    ensures done == st.(compiled := st.compiled + (if text == [] then [] else [OutputOpen, text, OutputClose]))
  {
    if text == [] {
      done := st;
      assert Run(fuel, ctx, text, workdir, 0, TextMode, st) == Ok((st, TextMode));
    } else {
      assert text[0..|text|] == text;
      TextRunStep(fuel, ctx, text, workdir, 0, st, text);
      var st1 := st.(text := st.text + [text]);
      assert Run(fuel, ctx, text, workdir, |text|, TextMode, st1) == Ok((st1, TextMode));
      done := Flush(st1);
    }
  }
}
