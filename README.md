# Flott template compiler and page caches, in Dafny

Flott compiles text templates into Ruby code. Literal text is interleaved with bracketed code regions:

- `[ ... ]` is a statement;
- `[= ... ]` prints an escaped value;
- `[! ... ]` prints a raw value;
- `[# ... ]` is a comment;
- `[<name]` statically includes another template file;
- `\[` is a literal bracket.

The compiler is a two-mode scanner, TextMode and RubyMode. Both modes append to one shared parser state:

- pending text fragments;
- emitted code fragments;
- the bracket depth;
- the last opening delimiter;
- the touched file paths;
- a stack of work directories.

An include forks a child parser. The child shares that state and compiles the included file in place.

Two caches map page names to compiled templates and recompile a page according to a reload time:

- `Flott::Cache` watches the newest time among all files a template was compiled from.
- `Flott::PageCache` watches the page's own file.

The project models:

- the compiler, as pure functions (`Compiler`) and as the imperative parser and state objects proved against them (`Parsing`, `CompileState`);
- the token matchers (`Tokens`);
- `Template#mtime` (`Templates`);
- the HTML escaper (`HtmlEscaping`);
- the environment's `[]`/`[]=` (`Environments`);
- both caches, as classes updated in place (`FlottCache`, `FlottPageCache`), each proved against a value model with property lemmas (`CacheProps`, `PageCacheProps`).

Several things that do not exist in Ruby appear as parameters:

- The disk is a map from path to a file (contents and mtime) or a directory (`Files`). Only path presence is checked before a read, standing in for `File.readable?`.
- The clock is an integer `now`.
- The include stack depth is a `fuel` count.

The generated code is kept as the list of fragments `compiled` holds and is never evaluated.

Flott's tests expect features that `lib/flott.rb` does not implement: the trim delimiters `[-` and `-]` (tests/test_flott.rb:164-181) and the `[^name]` include (tests/test_flott.rb:19-28). The model follows the code, and the behaviour of the code is stated as it stands:

- The compiler does not escape `{` or `}` in text or code; both are copied as they are.
- Include names are resolved without any path-safety check: an absolute name, or one climbing out with `..`, reaches files outside the template directory.
- RubyMode does no backslash-parity normalisation: a `\` not followed by a bracket raises CompileError.
- An unclosed region (`"[=" + code`) compiles without error, ending in RubyMode.
- `compile_inner` does not reset the parser's mode.
- With no reload time, `Cache` still compares `template.mtime` with the recorded time.

## Model

| member | source | states |
|---|---|---|
| CompileState.Top | lib/flott.rb:438-441 | top_workdir is nil exactly on an empty stack, else the last directory |
| CompileState.State.TopWorkdir | lib/flott.rb:438-441 | the object's top_workdir: nil exactly when no directory is stacked, else the last pushed |
| CompileState.State.constructor | lib/flott.rb:386-393 | a new state has depth 0, no last opener and empty text, code, paths and directory stack |
| CompileState.State.Text2Compiled | lib/flott.rb:416-422 | no pending text leaves the code unchanged; otherwise the code gains `@__output__<<%q[`, the pending fragments in order and `]\n`, and the pending text is emptied; nothing else changes |
| CompileState.State.PushWorkdir | lib/flott.rb:430-435 | the directory is pushed, becomes the top, and its assignment is emitted |
| CompileState.State.PopWorkdir | lib/flott.rb:443-448 | fails with CompileError exactly on an empty stack, changing nothing; otherwise drops the top and emits the assignment of the new top |
| CompileState.PopUndoesPush | lib/flott.rb:430-448 | push then pop restores the stack, emitting the pushed directory's assignment and then the previous top's (or '') |
| CompileState.FlushIdempotent | lib/flott.rb:416-422 | flushing twice emits nothing more than flushing once |
| CompileState.Flush | lib/flott.rb:416-422 | no contract of its own: text2compiled on a value; characterised by FlushIdempotent and by State.Text2Compiled, which is proved equal to it |
| CompileState.Push | lib/flott.rb:430-435 | no contract of its own: push_workdir on a value; characterised by PopUndoesPush and by State.PushWorkdir |
| CompileState.Pop | lib/flott.rb:443-448 | no contract of its own: pop_workdir on a value; characterised by PopUndoesPush and by State.PopWorkdir, whose contract gives the empty-stack error |
| Tokens.PlainRun | lib/flott.rb:479 | the TEXT run is the longest prefix free of `[`, `]` and `\` |
| Tokens.IncludeName | lib/flott.rb:457 | the captured include name is a non-empty suffix of the tag body after leading whitespace |
| Tokens.IncludeMatch | lib/flott.rb:457 | INCOPEN matches `[<`, a name free of `]`, then `]`; when it fails after `[<` there is no usable `]` |
| Tokens.IncludeMatchCapture | lib/flott.rb:457 | when the first `]` after `[<` closes a non-empty body, INCOPEN matches up to and including it and captures IncludeName of that body |
| Tokens.OpenerMatch | lib/flott.rb:460-466 | PRIOPEN/RAWOPEN/COMOPEN match exactly `[` plus the mark and consume all following whitespace |
| Tokens.Peek | lib/flott.rb:640 | the diagnostic is the first 40 characters of the rest, or all of it |
| Tokens.TextTokenAt | lib/flott.rb:607-641 | TextMode always matches a token on non-empty input and consumes between 1 and all characters; a text run is a prefix |
| Tokens.RubyTokenAt | lib/flott.rb:648-679 | RubyMode fails exactly on a `\` not followed by a bracket; `]` closes the region iff the depth is 0, otherwise nests; `[` nests; every match consumes at least one character |
| Tokens.OpenerPrecedence | lib/flott.rb:609-632 | `\[` wins over `[<name]`, which wins over `[=`, `[!`, `[#` and then a bare `[` |
| Compiler.Interpret | lib/flott.rb:110-118 | a name with a leading '/' resolves under rootdir (its tail ends the path), any other name under the workdir |
| Compiler.TextStep | lib/flott.rb:607-641 | a successful TextMode step consumes between 1 and all remaining characters |
| Compiler.RubyStep | lib/flott.rb:648-679 | a successful RubyMode step consumes between 1 and all remaining characters |
| Compiler.Step | lib/flott.rb:700 | a successful step in either mode consumes between 1 and all remaining characters |
| Compiler.RunUnfold | lib/flott.rb:697-701 | before the end of the source the loop is one step, then the rest of the loop from where the step left off; a failing step fails the loop |
| Compiler.OpenRegion | lib/flott.rb:614-632 | no contract of its own: the opener branches of TextMode#scan on a value; characterised by OpenerStep, StatementOpenStep, RegionHead and Parser.OpenRegion |
| Compiler.Run | lib/flott.rb:697-701 | no contract of its own: the `until scanner.eos?` loop on values; characterised by RunUnfold, RunGrows, the step lemmas and Parser.ScanToEnd |
| Compiler.Include | lib/flott.rb:561-579 | no contract of its own: include_template and fork on values; characterised by IncludeGrows, IncludeResolves, IncludeInlinesFile, MissingIncludeFails and Parser.IncludeTemplate |
| Compiler.Inner | lib/flott.rb:694-705 | no contract of its own: compile_inner on values; characterised by InnerGrows, CompileOfRun and Parser.CompileInner |
| Compiler.CompileSpec | lib/flott.rb:543-558 | no contract of its own: Parser#compile on values; characterised by CompileFraming, PlainTextCompiles, RegionCompiles, NestedBracketsCompile, EscapedTextCompiles, IncludeInlinesFile, UnclosedRegionAccepted and Parser.Compile |
| CompilerProps.ExtendsTransitive | lib/flott.rb:383-449 | growth of the state (code and paths only appended to, new paths existing, depth non-negative) composes |
| CompilerProps.TextStepGrows | lib/flott.rb:607-641 | a TextMode step only appends to code and paths, records only existing paths, keeps the depth non-negative and the directory stack balanced; it never fails with the empty-stack error |
| CompilerProps.RubyStepGrows | lib/flott.rb:648-679 | a RubyMode step only appends, never drives the depth negative, and can fail only with "unknown tokens" |
| CompilerProps.IncludeGrows | lib/flott.rb:561-579 | an include only appends, records an existing path, restores the directory stack and never pops an empty stack |
| CompilerProps.InnerGrows | lib/flott.rb:694-705 | compile_inner pushes and pops symmetrically: the stack is the same before and after, and code and paths only grow |
| CompilerProps.RunGrows | lib/flott.rb:694-705 | the scan loop to the end of the source only appends and keeps the stack balanced |
| CompilerProps.CompileFraming | lib/flott.rb:543-558 | a compiled template's code starts with the preamble, the rootdir assignment and the workdir assignment, ends with `@__workdir__ = ''` and the trailer, its first path is the file name, and every included path exists; compile never reports an empty stack |
| CompilerProps.PlainPrefix | lib/flott.rb:479 | a maximal plain run is one TEXT token in either mode |
| CompilerProps.TextRunStep | lib/flott.rb:635-636 | in TextMode a plain run becomes one pending text fragment, verbatim |
| CompilerProps.CodeRunStep | lib/flott.rb:674-675 | in RubyMode a plain run is copied into the code verbatim |
| CompilerProps.OpenerStep | lib/flott.rb:614-628 | `[=`, `[!`, `[#` set the last opener, flush pending text, emit the opener's prologue and enter RubyMode |
| CompilerProps.CloseStep | lib/flott.rb:650-663 | `]` at depth 0 emits the epilogue for the last opener, clears it and returns to TextMode |
| CompilerProps.EscapedOpenStep | lib/flott.rb:609-610 | in TextMode `\[` becomes the pending text `\[`, two characters consumed, mode unchanged |
| CompilerProps.StatementOpenStep | lib/flott.rb:629-632 | a bare `[` (not followed by `<`, `=`, `!` or `#`) sets OPEN as the last opener, flushes pending text, emits no prologue and enters RubyMode |
| CompilerProps.StrayCloseStep | lib/flott.rb:633-634 | in TextMode a `]` becomes the pending text `\` then `]`, staying in TextMode |
| CompilerProps.BackslashStep | lib/flott.rb:637-638 | in TextMode a `\` not before `[` becomes the pending text `\\` then `\` |
| CompilerProps.EscapedCodeStep | lib/flott.rb:664-670 | in RubyMode `\]` and `\[` are copied into the code unchanged and the depth is kept |
| CompilerProps.NestedCloseStep | lib/flott.rb:666-668 | in RubyMode a `]` with a bracket open lowers the depth by one and is copied, without closing the region |
| CompilerProps.NestedOpenStep | lib/flott.rb:671-673 | in RubyMode a `[` raises the depth by one and is copied into the code |
| CompilerProps.CompileOfRun | lib/flott.rb:543-558 | compile is the preamble, the workdir push, the scan, the flush, the pop and the trailer |
| CompilerProps.FlushedRunCompiles | lib/flott.rb:543-558 | once the scan loop has ended, the template is the frame around what was emitted, flushed text included, and the paths are the file's own followed by those recorded |
| CompilerProps.PlainTextCompiles | lib/flott.rb:543-558 | text without `[`, `]`, `\` compiles to the frame around one `%q[...]` output of exactly that text (none for the empty text) |
| CompilerProps.RegionCompiles | lib/flott.rb:614-663 | `before[=code]after` (and `[!`, `[#`) compiles to the text output, the prologue, the code verbatim, the matching epilogue and the trailing text output, in that order |
| CompilerProps.RegionHead | lib/flott.rb:614-636 | text before `[=`, `[!` or `[#` is held as pending text, then flushed when the opener is scanned and RubyMode is entered |
| CompilerProps.RegionTail | lib/flott.rb:650-675 | the region's code is copied, the closing `]` emits the epilogue of the last opener, and the text after it is pending at the end |
| CompilerProps.NestedBracketsCompile | lib/flott.rb:629-673 | `[a[b]c]` compiles to the code `a`, `[`, `b`, `]`, `c` and the newline epilogue: only the outer `]` closes the statement |
| CompilerProps.NestedRun | lib/flott.rb:629-673 | the scan loop over a statement region with one balanced inner bracket pair ends in TextMode at depth 0 with no last opener |
| CompilerProps.EscapedTextCompiles | lib/flott.rb:609-636 | `a\[b]` compiles to one output statement holding `a`, `\[`, `b`, `\`, `]`: both brackets stay literal |
| CompilerProps.EscapedTextRun | lib/flott.rb:609-636 | the scan loop over `a\[b]` stays in TextMode and leaves exactly those five fragments pending |
| CompilerProps.UnclosedRegionAccepted | lib/flott.rb:697-705 | a region never closed still compiles, and the parser ends in RubyMode |
| CompilerProps.IncludeToken | lib/flott.rb:457 | `[<name]` scans as an include tag of that name |
| CompilerProps.MissingIncludeFails | lib/flott.rb:561-571 | including a path that is not there is CompileError "cannot open" for the resolved path |
| CompilerProps.IncludeResolves | lib/flott.rb:561-579 | including a plain file from the same directory records its path and emits its text as one output, without pushing a directory |
| CompilerProps.IncludeInlinesFile | lib/flott.rb:561-579 | including a plain file inlines its text as if written in place, and its path follows the template's own in `pathes` |
| Parsing.Parser.constructor | lib/flott.rb:485-494 | a root parser's rootdir is its workdir; it starts in TextMode at position 0 with a fresh state |
| Parsing.Parser.Child | lib/flott.rb:513-525 | a forked parser shares the parent's state and rootdir |
| Parsing.Parser.FromFilename | lib/flott.rb:499-505 | succeeds exactly when the file can be read; the workdir and rootdir are its directory and the file name is recorded |
| Parsing.Parser.Compile | lib/flott.rb:543-558 | the imperative compile returns exactly the template (or error) of the compile function, in a fresh state |
| Parsing.Parser.CompileInner | lib/flott.rb:694-705 | compile_inner leaves the state and mode the Inner function computes, with the scanner at the end |
| Parsing.Parser.ScanToEnd | lib/flott.rb:697-701 | the loop until eos leaves the state and mode the Run function computes, or fails with its error |
| Parsing.Parser.Scan | lib/flott.rb:700 | one step through the current mode updates the state, position and mode as Step says, or fails with Step's error |
| Parsing.Parser.TextScan | lib/flott.rb:607-641 | TextMode#scan on the object does what TextStep says |
| Parsing.Parser.RubyScan | lib/flott.rb:648-679 | RubyMode#scan on the object does what RubyStep says |
| Parsing.Parser.OpenRegion | lib/flott.rb:614-632 | setting the last opener, entering RubyMode, flushing and emitting the prologue |
| Parsing.Parser.IncludeTemplate | lib/flott.rb:561-572 | include_template on the object does what the Include function says |
| Parsing.Parser.Fork | lib/flott.rb:575-579 | a child compile_inner in the included file's directory, pushing only when the directory changes |
| Templates.NewestMtime | lib/flott.rb:363-365 | nil for no paths, ENOENT for the first missing path, otherwise a time that bounds every path's time and is one of them |
| HtmlEscaping.EscapeChar | lib/flott.rb:726-737 | exactly `&<>"'` are replaced |
| HtmlEscaping.HtmlEscape | lib/flott.rb:726-737 | text without those characters is unchanged; the result contains no `<`, `>`, `"` or `'` |
| HtmlEscaping.UnescapeOfEscape | lib/flott.rb:726-737 | escaping loses nothing: decoding the entities gives back the input |
| HtmlEscaping.EscapeAppend | lib/flott.rb:726-737 | escaping works character by character (distributes over concatenation) |
| Environments.Normalise | lib/flott.rb:191-203 | the name gains '@' exactly when it lacks one |
| Environments.NormaliseIdempotent | lib/flott.rb:191-203 | normalising twice is normalising once |
| Environments.PrefixOptional | lib/flott.rb:191-203 | `foo` and `@foo` name the same variable |
| Environments.Environment.constructor | lib/flott.rb:144-147 | a new environment holds the output and escape objects in @__output__ and @__escape__ |
| Environments.Environment.Lookup | lib/flott.rb:191-195 | `env[name]` is the variable's value, nil when unset, NameError for a bad name |
| Environments.Environment.Assign | lib/flott.rb:199-203 | `env[name] = v` makes the variable read back as v under either spelling and leaves every other variable alone; a bad name changes nothing |
| Files.Read | lib/flott.rb:502 | reading succeeds exactly for a regular file; ENOENT or EISDIR otherwise |
| Files.Join | lib/flott.rb:112-115 | File.join keeps the directory (without trailing slashes), separates with slashes, and ends with the name |
| Files.Dirname | lib/flott.rb:501 | the directory is ".", "/" or a proper prefix of the path |
| Files.DirnameOfJoin | lib/flott.rb:562-567 | the directory of `dir/name` is `dir`, so an included file is compiled in its own directory |
| Strings.SubFirst | lib/flott/cache.rb:64 | `sub` removes the first occurrence of the prefix; a path that starts with it loses exactly it |
| FlottCache.Rescue | lib/flott/cache.rb:91 | ENOENT and EISDIR give nil; every other error propagates unchanged |
| FlottCache.CompileFile | lib/flott/cache.rb:35-37 | a read error propagates; a compiled page's first path is its file and its mtime is defined |
| FlottCache.PageV.Changed | lib/flott/cache.rb:23-29 | negative reload time: true; inside the window after the template's newest time: nil; otherwise whether that newest time differs from the recorded one; a vanished file is ENOENT |
| FlottCache.CompilePage | lib/flott/cache.rb:35-39 | a successful compile stores the new template and its newest time; a failure leaves the page as it was |
| FlottCache.GetSpec | lib/flott/cache.rb:74-92 | a returned template is the one now stored under the name, and every stored page is compiled |
| FlottCache.RecompileStable | lib/flott/cache.rb:81-82 | on an unchanged disk the second compile on a miss succeeds and changes nothing |
| FlottCache.Page.Create | lib/flott/cache.rb:7-11 | Page.new compiles the page, failing as the compile fails |
| FlottCache.Page.Compile | lib/flott/cache.rb:35-39 | the object's compile does what CompilePage says |
| FlottCache.Cache.constructor | lib/flott/cache.rb:48-52 | an empty table with the given root and reload time |
| FlottCache.Cache.SetReloadTime | lib/flott/cache.rb:55 | the reload time becomes the given value; the table and the root directory stay as they were |
| FlottCache.Cache.Get | lib/flott/cache.rb:74-92 | #get returns and stores what GetSpec says, keeping distinct pages under distinct names |
| FlottCache.Cache.CompiledPage | lib/flott/cache.rb:81-82 | a miss builds the page with Page.new, which compiles it, and compiles it once more; the result is what one compile of a blank page gives |
| FlottCache.Cache.Put | lib/flott/cache.rb:100-103 | the page is stored under the name and nothing else changes |
| FlottCache.Cache.Evaluate | lib/flott/cache.rb:94-97 | the cache (true) when #get found a template, nil (false) when it gave nil; other errors propagate |
| FlottCache.Cache.Pages | lib/flott/cache.rb:59-70 | the loop collects exactly PageNames, in walk order |
| FlottCache.PageName | lib/flott/cache.rb:62-64 | a path under the root loses exactly the `rootdir/` prefix |
| FlottCache.PageNames | lib/flott/cache.rb:59-70 | at most one name per walked path |
| CacheProps.GetTouchesOnlyName | lib/flott/cache.rb:74-103 | #get never drops a page, adds at most the requested name, and leaves other pages as they were |
| CacheProps.GetKeepsPaths | lib/flott/cache.rb:81-83 | every page stays stored under the name whose file it compiles |
| CacheProps.NegativeReloadRecompiles | lib/flott/cache.rb:23-29 | a negative reload time recompiles on every hit |
| CacheProps.WindowKeepsCache | lib/flott/cache.rb:23-29 | inside the window the cached template is returned and the table is untouched |
| CacheProps.NoReloadTimeFollowsMtime | lib/flott/cache.rb:23-29 | without a reload time a hit recompiles exactly when the newest file time moved |
| CacheProps.MissingPageRescued | lib/flott/cache.rb:81-91 | a missing file or a directory gives nil and stores nothing |
| CacheProps.CompileErrorPropagates | lib/flott/cache.rb:81-91 | a compile error is not rescued and stores nothing |
| CacheProps.MissCompilesAndStores | lib/flott/cache.rb:81-89 | a miss on a compilable file returns its template and stores it with its newest time |
| CacheProps.SecondGetStable | lib/flott/cache.rb:74-90 | unless the reload time is negative, a second #get on an unchanged disk returns the same template and changes nothing |
| CacheProps.PageNamesMembers | lib/flott/cache.rb:59-70 | a name is listed iff some walked path is a regular file whose name, after the prefix is removed, has no line starting with '.' |
| CacheProps.PageNameOfJoin | lib/flott/cache.rb:62-81 | the name #pages lists for `rootdir/name` is `name`, the name #get resolves to that file |
| FlottPageCache.AsWrittenCompile | lib/flott/page_cache.rb:36-40 | the call as written always raises ArgumentError |
| FlottPageCache.IntendedCompile | lib/flott/page_cache.rb:36-40 | the intended call compiles in the cache's workdir: the code starts with that workdir's frame and included paths exist |
| FlottPageCache.PageV.Changed | lib/flott/page_cache.rb:23-29 | negative reload time: true; within the window after the recorded time: nil; otherwise whether the file's own time moved; a vanished file is ENOENT |
| FlottPageCache.NewPage | lib/flott/page_cache.rb:7-11 | a new page records the file's time and has no template; ENOENT when the file is missing |
| FlottPageCache.CompilePage | lib/flott/page_cache.rb:35-41 | a readable file's time is recorded before compiling; success stores the new template, a compile error keeps the old one |
| FlottPageCache.GetSpec | lib/flott/page_cache.rb:78-94 | a returned template is the one now stored under the name |
| FlottPageCache.GetKeepsCompiled | lib/flott/page_cache.rb:78-94 | #get only stores compiled pages: a table whose pages all hold a template keeps that property |
| FlottPageCache.Page.Create | lib/flott/page_cache.rb:7-11 | the object's Page.new does what NewPage says |
| FlottPageCache.Page.Compile | lib/flott/page_cache.rb:35-41 | the object's compile does what CompilePage says with the intended compiler |
| FlottPageCache.PageCache.constructor | lib/flott/page_cache.rb:51-56 | the workdir is `dirname(pages_path)` and the table is empty |
| FlottPageCache.PageCache.Get | lib/flott/page_cache.rb:78-94 | #get returns and stores what GetSpec says, compiling in the cache's workdir, and every stored page keeps a template |
| FlottPageCache.PageCache.Put | lib/flott/page_cache.rb:102-104 | the page (compiled, as #get only puts compiled pages) is stored under the name and nothing else changes |
| FlottPageCache.PageCache.Evaluate | lib/flott/page_cache.rb:96-99 | the cache (true) when #get yielded a template, nil (false) when it gave nil |
| PageCacheProps.NegativeReloadRecompiles | lib/flott/page_cache.rb:23-29 | a negative reload time recompiles on every hit |
| PageCacheProps.WindowKeepsCache | lib/flott/page_cache.rb:23-29 | inside the window after the recorded time the cached template is returned untouched |
| PageCacheProps.RemovedPageRescued | lib/flott/page_cache.rb:78-94 | a cached page whose file vanished gives nil and stays in the table |
| PageCacheProps.MissingPageRescued | lib/flott/page_cache.rb:83-93 | a missing file or a directory gives nil and stores nothing |
| PageCacheProps.OnlyOwnFileWatched | lib/flott/page_cache.rb:23-29 | changed? depends only on the page's own file, not on included ones |
| PageCacheProps.CachePageWatchesIncludes | lib/flott/cache.rb:23-29 | Cache's changed? is decided by the times of all the template's files |
| PageCacheProps.SameNewest | lib/flott.rb:363-365 | Template#mtime depends only on the listed files |
| PageCacheProps.FailedRecompileKeepsStaleTemplate | lib/flott/page_cache.rb:35-41 | a recompile that fails still records the new time, so the next #get serves the old template |
| PageCacheProps.AsWrittenGetRaises | lib/flott/page_cache.rb:36-40 | as written, #get on an existing page raises ArgumentError and stores nothing |
| PageCacheProps.AsWrittenNeverYields | lib/flott/page_cache.rb:78-94 | as written, a cache that starts empty stays empty and never returns a template |
| PageCacheProps.IntendedGetCompiles | lib/flott/page_cache.rb:36-40 | with the intended call, a plain page compiles in the cache's workdir and is stored with its file's time |

## Left out

- Evaluation of the generated code (`eval` in `Parser#compile`, `Template#call`, `Parser#evaluate`): the template is the fragment list and its paths.
  - `Cache#evaluate` and `PageCache#evaluate` therefore return whether a template was found.
  - Errors raised while evaluating, and `SyntaxError` wrapping, are not modelled.
- `compiled_string` (`join.untaint`) is not modelled. The fragment list is kept instead.
- Environment output primitives (`p`, `pp`, `puts`, `print`, `printf`, `write` and their `!` forms), `function` and the dynamic `include`: they depend on Ruby formatting and evaluation. `update`, `output`, `rootdir` and `workdir` accessors are simple attribute access and are not modelled either.
- `File.expand_path` and `Dir.pwd`: the root directory handed to the compiler is taken as already absolute and normalised. A parser made without a workdir is not modelled.
- Compiler.Include and Parsing.Parser.Fork: the child parser's workdir is the dirname of the joined include path as written, where Ruby's `Parser#initialize` stores `File.expand_path` of it (lib/flott.rb:484-489, 575-579). `.` and `..` segments are therefore not resolved in the child's disk lookups, in the `@__workdir__` assignment it emits, in the includes it resolves in turn, or in the push decision (Ruby compares the parent's expanded workdir with the raw dirname). For example `[<sub/../x]` in `/w`, where `x` holds `[<y]`, emits `/w/sub/..` and looks up `/w/sub/../y` here, where Ruby emits `/w` and reads `/w/y`. The disk is a map keyed by path strings, so the two agree exactly when the include names contain no `.` or `..` segments.
- `File.readable?` is modelled as "the path exists": permissions are not modelled.
- `Find.find` is not modelled. `Cache#pages` takes the walked paths, in the walk's order, as a parameter.
- `PageCache#pages` is not part of this model. It is the same code as `Cache#pages`.
- `Time` values are integers: sub-second times and time zones are not modelled.
- The include depth is a fuel count (64 for the caches). Running out is StackTooDeep, standing in for Ruby's stack overflow on deep or self-including templates.
- Debug output to STDERR (`debug_output`) and the command-line block are not modelled.
- Calling `get` with a block is modelled only through `evaluate`.
- A Cache page compiled once keeps a defined mtime on the same snapshot of the disk. The model reads one disk state per call, so a file vanishing between the compile and `template.mtime` inside one `Page#compile` is not modelled.
- Tokens.Peek: `StringScanner#peek(40)` cuts the rest of the source after 40 bytes; strings are sequences of characters here, so the cut is after 40 characters and the byte encoding (and a cut inside a multi-byte character) is not modelled.
- Values that are not strings are not modelled: `Environment#[]` and `#[]=` convert the name with `to_s` (so a symbol works) and HTML_ESCAPE converts its argument with `to_s`; the model takes names and escaped values as already converted strings.
- FlottCache.Cache.Put and FlottPageCache.PageCache.Put: Ruby's `put` stores any page under any name. The model's `Put` takes only what `#get` hands it: a compiled page, under a name not yet stored, that no other name holds. This keeps the tables' invariant (distinct pages, each with a template). Replacing an entry, and putting an uncompiled page from outside, are not modelled.
- The object model keeps a page's mutations visible through the table by holding `Page` objects. Aliasing of pages across two caches is not modelled.

## Findings

| source | as written | input that shows it | evidently intended | confidence | as-written member | corrected member |
|---|---|---|---|---|---|---|
| lib/flott/page_cache.rb:36-40 | `Parser.new(workdir)` passes the workdir as the template source, and `parser.compile(source)` passes an argument to `Parser#compile`, which takes none (lib/flott.rb:543) | `get("index")` on an empty PageCache whose `pages_path/index` is a regular file raises ArgumentError instead of returning a template | `Parser.new(source, workdir).compile` | high; not executed | PageCacheProps.AsWrittenGetRaises | PageCacheProps.IntendedGetCompiles |
