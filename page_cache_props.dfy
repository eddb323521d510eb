/**
 * What Flott::PageCache#get promises, on the value model: the reload policy, the rescue, what a page
 * watches, and the consequences of its compiler call as written and as intended.
 */
module PageCacheProps {
  import opened Wrappers
  import opened Errors
  import opened Files
  import opened Templates
  import opened Compiler
  import opened CompileState
  import opened FlottPageCache
  import FlottCache
  import CompilerProps

  /** A negative reload time recompiles a cached page on every #get. */
  lemma NegativeReloadRecompiles(pages: map<string, PageV>, pagesPath: string, workdir: string, rt: Option<int>, now: int,
                                 fs: FileSystem, compile: PageCompiler, name: string)
    requires name in pages && rt.Some? && rt.value < 0
    ensures var (got, after) := GetSpec(pages, pagesPath, workdir, rt, now, fs, compile, name);
            var (q, o) := CompilePage(pages[name], workdir, fs, compile);
            after == pages[name := q] && (o.Pass? ==> got == Ok(q.template))
            && (o.Fail? ==> got == FlottCache.Rescue(o.error))
  {
  }

  /** Within the waiting window from the recorded time, #get returns the cached template untouched. */
  lemma WindowKeepsCache(pages: map<string, PageV>, pagesPath: string, workdir: string, rt: Option<int>, now: int,
                         fs: FileSystem, compile: PageCompiler, name: string)
    requires name in pages && rt.Some? && rt.value >= 0 && now - pages[name].mtime < rt.value
    ensures GetSpec(pages, pagesPath, workdir, rt, now, fs, compile, name) == (Ok(pages[name].template), pages)
  {
  }

  /** A cached page whose file was removed gives nil, and the table keeps the page. */
  lemma RemovedPageRescued(pages: map<string, PageV>, pagesPath: string, workdir: string, now: int,
                           fs: FileSystem, compile: PageCompiler, name: string)
    requires name in pages && pages[name].path !in fs
    ensures GetSpec(pages, pagesPath, workdir, None, now, fs, compile, name) == (Ok(None), pages)
  {
  }

  /** A name with no file, or naming a directory, gives nil and stores nothing. */
  lemma MissingPageRescued(pages: map<string, PageV>, pagesPath: string, workdir: string, rt: Option<int>, now: int,
                           fs: FileSystem, compile: PageCompiler, name: string)
    requires name !in pages && Read(fs, Join(pagesPath, name)).Err?
    ensures GetSpec(pages, pagesPath, workdir, rt, now, fs, compile, name) == (Ok(None), pages)
  {
    assert FlottCache.Rescue<Template>(Read(fs, Join(pagesPath, name)).error) == Ok(None);
  }

  /**
   * A page watches its own file only: two disks that agree on that file give the same changed? answer,
   * whatever the files it includes look like.
   */
  lemma OnlyOwnFileWatched(p: PageV, rt: Option<int>, now: int, fs: FileSystem, fs2: FileSystem)
    requires (p.path in fs <==> p.path in fs2) && (p.path in fs ==> fs[p.path].mtime == fs2[p.path].mtime)
    ensures p.Changed(rt, now, fs) == p.Changed(rt, now, fs2)
  {
  }

  /**
   * A Cache page, in contrast, watches every file its template was compiled from: its changed? answer is
   * decided by those files alone, so an edited include is noticed.
   */
  lemma CachePageWatchesIncludes(p: FlottCache.PageV, rt: Option<int>, now: int, fs: FileSystem, fs2: FileSystem)
    requires p.template.Some?
    requires forall i :: 0 <= i < |p.template.value.pathes| ==>
               var f := p.template.value.pathes[i];
               (f in fs <==> f in fs2) && (f in fs ==> fs[f].mtime == fs2[f].mtime)
    ensures p.Changed(rt, now, fs) == p.Changed(rt, now, fs2)
  {
    SameNewest(fs, fs2, p.template.value.pathes);
  }

  /** Disks that agree on the listed files give the same newest time. */
  lemma {:induction false} SameNewest(fs: FileSystem, fs2: FileSystem, pathes: seq<string>)
    requires forall i :: 0 <= i < |pathes| ==>
               (pathes[i] in fs <==> pathes[i] in fs2) && (pathes[i] in fs ==> fs[pathes[i]].mtime == fs2[pathes[i]].mtime)
    ensures NewestMtime(fs, pathes) == NewestMtime(fs2, pathes)
  {
    if pathes != [] {
      SameNewest(fs, fs2, pathes[1..]);
    }
  }

  /**
   * A recompilation that fails with a compile error still records the file's new time, so without a reload
   * time the next #get on the same disk sees no change and returns the template compiled before the edit.
   */
  lemma FailedRecompileKeepsStaleTemplate(pages: map<string, PageV>, pagesPath: string, workdir: string, now: int,
                                          fs: FileSystem, compile: PageCompiler, name: string)
    requires name in pages && Read(fs, pages[name].path).Ok?
    requires fs[pages[name].path].mtime != pages[name].mtime
    requires compile(fs, workdir, fs[pages[name].path].contents).Err?
    requires IsCompileError(compile(fs, workdir, fs[pages[name].path].contents).error)
    ensures var (got, after) := GetSpec(pages, pagesPath, workdir, None, now, fs, compile, name);
            got == Err(compile(fs, workdir, fs[pages[name].path].contents).error)
            && GetSpec(after, pagesPath, workdir, None, now, fs, compile, name) == (Ok(pages[name].template), after)
  {
    var (q, o) := CompilePage(pages[name], workdir, fs, compile);
    assert q.mtime == fs[q.path].mtime && q.template == pages[name].template;
  }

  /**
   * The compiler call as written: a page whose file exists is never compiled. #get on it raises
   * ArgumentError, which is not rescued, and the page is never put.
   */
  lemma AsWrittenGetRaises(pages: map<string, PageV>, pagesPath: string, workdir: string, rt: Option<int>, now: int,
                           fs: FileSystem, name: string)
    requires name !in pages && Read(fs, Join(pagesPath, name)).Ok?
    ensures GetSpec(pages, pagesPath, workdir, rt, now, fs, AsWrittenCompile, name) == (Err(WrongArgumentCount), pages)
  {
  }

  /** As written, a cache that starts empty stays empty and #get never returns a template. */
  lemma AsWrittenNeverYields(pagesPath: string, workdir: string, rt: Option<int>, now: int, fs: FileSystem, name: string)
    ensures var (got, after) := GetSpec(map[], pagesPath, workdir, rt, now, fs, AsWrittenCompile, name);
            after == map[] && !(got.Ok? && got.value.Some?)
  {
  }

  /**
   * With the intended call, a page of plain text compiles: #get returns the template that prints the text,
   * compiled in the cache's workdir, and stores it with the file's time.
   */
  lemma IntendedGetCompiles(pages: map<string, PageV>, pagesPath: string, workdir: string, rt: Option<int>, now: int,
                            fs: FileSystem, name: string)
    requires name !in pages && Read(fs, Join(pagesPath, name)).Ok?
    requires CompilerProps.Plain(fs[Join(pagesPath, name)].contents)
    ensures var source := fs[Join(pagesPath, name)].contents;
            var t := Template([PreambleOpen, RootdirAssignment(workdir), WorkdirAssignment(Some(workdir))]
                              + (if source == [] then [] else [OutputOpen, source, OutputClose])
                              + [WorkdirAssignment(None), Trailer], []);
            GetSpec(pages, pagesPath, workdir, rt, now, fs, IntendedCompile, name)
              == (Ok(Some(t)), pages[name := PageV(Join(pagesPath, name), Some(t), fs[Join(pagesPath, name)].mtime)])
  {
    var source := fs[Join(pagesPath, name)].contents;
    CompilerProps.PlainTextCompiles(FlottCache.IncludeDepth, fs, source, workdir, None);
  }
}
