/**
 * Flott::PageCache: the older page cache. A page remembers the modification time of its own file only,
 * taken when the page is created and again each time it is compiled, and every page is compiled in the one
 * directory `dirname(pages_path)`.
 *
 * The compiler is a parameter of the value model so that the call as written in page_cache.rb (which
 * cannot succeed) and the call it evidently intends can both be stated; the PageCache class uses the
 * intended one.
 */
module FlottPageCache {
  import opened Wrappers
  import opened Errors
  import opened Files
  import opened Templates
  import opened Compiler
  import opened Parsing
  import FlottCache
  import CompilerProps
  import opened CompileState

  /** How a page's source is compiled: (disk, workdir, source) to a template or an error. */
  type PageCompiler = (FileSystem, string, string) -> Result<Template, Error>

  /**
   * `Parser.new(workdir)` followed by `parser.compile(source)`, as written: Parser#initialize takes the
   * workdir as the source, and Parser#compile takes no argument, so the call always raises ArgumentError.
   */
  function AsWrittenCompile(fs: FileSystem, workdir: string, source: string): (r: Result<Template, Error>)
    ensures r == Err(WrongArgumentCount)
  {
    Err(WrongArgumentCount)
  }

  /**
   * `Parser.new(source, workdir).compile`: the source compiled with `workdir` as its work and root
   * directory and no file name of its own.
   */
  function IntendedCompile(fs: FileSystem, workdir: string, source: string): (r: Result<Template, Error>)
    ensures r.Err? ==> r.error != DirectoriesEmpty
    ensures r.Ok? ==> |r.value.code| >= 5
                      && r.value.code[..3] == [PreambleOpen, RootdirAssignment(workdir), WorkdirAssignment(Some(workdir))]
    ensures r.Ok? ==> forall i :: 0 <= i < |r.value.pathes| ==> r.value.pathes[i] in fs
  {
    CompilerProps.CompileFraming(FlottCache.IncludeDepth, fs, source, workdir, workdir, None, TextMode);
    match CompileSpec(FlottCache.IncludeDepth, fs, source, workdir, workdir, None, TextMode)
    case Err(e) => Err(e)
    case Ok((t, _)) => Ok(t)
  }

  /** A PageCache::Page as a value. */
  datatype PageV = PageV(path: string, template: Option<Template>, mtime: int)
  {
    /**
     * PageCache::Page#changed?: true when `rt` is negative; nil (None) while less than `rt` has passed since
     * the recorded time; otherwise whether the file's own modification time differs from the recorded one.
     */
    function Changed(rt: Option<int>, now: int, fs: FileSystem): (r: Result<Option<bool>, Error>)
      ensures rt.Some? && rt.value < 0 ==> r == Ok(Some(true))
      ensures rt.Some? && 0 <= rt.value && now - mtime < rt.value ==> r == Ok(None)
      ensures r.Err? <==> !(rt.Some? && (rt.value < 0 || now - mtime < rt.value)) && path !in fs
      ensures r.Err? ==> r.error == NoEntry(path)
      ensures !(rt.Some? && (rt.value < 0 || now - mtime < rt.value)) && path in fs ==>
                r == Ok(Some(fs[path].mtime != mtime))
    {
      if rt.Some? && rt.value < 0 then Ok(Some(true))
      else if rt.Some? && now - mtime < rt.value then Ok(None)
      else
        match StatMtime(fs, path)
        case Err(e) => Err(e)
        case Ok(m) => Ok(Some(m != mtime))
    }
  }

  /** PageCache::Page.new on a value: the file's modification time, ENOENT when it is missing. */
  function NewPage(fs: FileSystem, path: string): (r: Result<PageV, Error>)
    ensures r.Ok? <==> path in fs
    ensures r.Ok? ==> r.value == PageV(path, None, fs[path].mtime)
    ensures r.Err? ==> r.error == NoEntry(path)
  {
    match StatMtime(fs, path)
    case Err(e) => Err(e)
    case Ok(m) => Ok(PageV(path, None, m))
  }

  /**
   * PageCache::Page#compile on a value: the file is read, its modification time recorded, and only then is
   * the source compiled; a compile error leaves the new time in place and the old template.
   */
  function CompilePage(p: PageV, workdir: string, fs: FileSystem, compile: PageCompiler): (r: (PageV, Outcome<Error>))
    ensures r.0.path == p.path
    ensures Read(fs, p.path).Err? ==> r == (p, Fail(Read(fs, p.path).error))
    ensures Read(fs, p.path).Ok? ==> r.0.mtime == fs[p.path].mtime
    ensures Read(fs, p.path).Ok? ==>
              match compile(fs, workdir, Read(fs, p.path).value)
              case Ok(t) => r.0.template == Some(t) && r.1 == Pass
              case Err(e) => r.0.template == p.template && r.1 == Fail(e)
    ensures r.1.Pass? ==> r.0.template.Some?
    ensures r.1.Fail? ==> r.0.template == p.template
  {
    match Read(fs, p.path)
    case Err(e) => (p, Fail(e))
    case Ok(source) =>
      var stamped := p.(mtime := fs[p.path].mtime);
      match compile(fs, workdir, source)
      case Err(e) => (stamped, Fail(e))
      case Ok(t) => (stamped.(template := Some(t)), Pass)
  }

  /**
   * PageCache#get on values, with the cache's `workdir` and `pagesPath`: a hit recompiles when changed?
   * is true, keeping what the compilation stored even when it then fails; a miss creates the page, compiles
   * it and puts it. ENOENT and EISDIR give nil, every other error propagates.
   */
  function GetSpec(pages: map<string, PageV>, pagesPath: string, workdir: string, rt: Option<int>, now: int,
                   fs: FileSystem, compile: PageCompiler, name: string)
    : (r: (Result<Option<Template>, Error>, map<string, PageV>))
    ensures r.0.Ok? && r.0.value.Some? ==> name in r.1 && r.1[name].template == r.0.value
  {
    if name in pages then
      var p := pages[name];
      match p.Changed(rt, now, fs)
      case Err(e) => (FlottCache.Rescue(e), pages)
      case Ok(c) =>
        if c == Some(true) then
          var (q, o) := CompilePage(p, workdir, fs, compile);
          (if o.Pass? then Ok(q.template) else FlottCache.Rescue(o.error), pages[name := q])
        else (Ok(p.template), pages)
    else
      match NewPage(fs, Join(pagesPath, name))
      case Err(e) => (FlottCache.Rescue(e), pages)
      case Ok(p) =>
        var (q, o) := CompilePage(p, workdir, fs, compile);
        if o.Fail? then (FlottCache.Rescue(o.error), pages)
        else (Ok(q.template), pages[name := q])
  }

  /** #get only ever stores compiled pages: a table whose pages all hold a template keeps that property. */
  lemma GetKeepsCompiled(pages: map<string, PageV>, pagesPath: string, workdir: string, rt: Option<int>, now: int,
                         fs: FileSystem, compile: PageCompiler, name: string)
    requires forall n :: n in pages ==> pages[n].template.Some?
    ensures var after := GetSpec(pages, pagesPath, workdir, rt, now, fs, compile, name).1;
            forall n :: n in after ==> after[n].template.Some?
  {
    var after := GetSpec(pages, pagesPath, workdir, rt, now, fs, compile, name).1;
    if name in pages {
      var p := pages[name];
      var changed := p.Changed(rt, now, fs);
      if changed.Ok? && changed.value == Some(true) {
        var q := CompilePage(p, workdir, fs, compile).0;
        assert after == pages[name := q];
      } else {
        assert after == pages;
      }
    } else {
      var created := NewPage(fs, Join(pagesPath, name));
      if created.Ok? {
        var (q, o) := CompilePage(created.value, workdir, fs, compile);
        assert after == if o.Fail? then pages else pages[name := q];
      } else {
        assert after == pages;
      }
    }
  }

  /** PageCache::Page as an object. */
  class Page {
    const path: string
    var template: Option<Template>
    var mtime: int

    function View(): PageV
      reads this
    {
      PageV(path, template, mtime)
    }

    constructor (path: string, mtime: int)
      ensures View() == PageV(path, None, mtime)
    {
      this.path := path;
      template := None;
      this.mtime := mtime;
    }

    /** PageCache::Page.new: stats the file (ENOENT when it is missing); nothing is compiled yet. */
    static method Create(fs: FileSystem, path: string) returns (r: Result<Page, Error>)
      ensures NewPage(fs, path).Err? ==> r == Err(NewPage(fs, path).error)
      ensures NewPage(fs, path).Ok? ==> r.Ok? && fresh(r.value) && r.value.View() == NewPage(fs, path).value
    {
      var m := StatMtime(fs, path);
      if m.Err? {
        return Err(m.error);
      }
      var page := new Page(path, m.value);
      r := Ok(page);
    }

    /** PageCache::Page#compile(workdir), with the parser call it intends. */
    method Compile(fs: FileSystem, workdir: string) returns (r: Outcome<Error>)
      modifies this
      ensures (View(), r) == CompilePage(old(View()), workdir, fs, IntendedCompile)
    {
      var source := Read(fs, path);
      if source.Err? {
        return Fail(source.error);
      }
      mtime := fs[path].mtime;
      var parser := new Parser(source.value, workdir);
      var compiled := parser.Compile(FlottCache.IncludeDepth, fs);
      if compiled.Err? {
        return Fail(compiled.error);
      }
      template := Some(compiled.value);
      r := Pass;
    }
  }

  /** Flott::PageCache as an object. */
  class PageCache {
    const pagesPath: string
    /** dirname(pages_path): every page is compiled with this directory. */
    const workdir: string
    /** The reload_time reader. */
    const reloadTime: Option<int>
    var pages: map<string, Page>

    /** Distinct names hold distinct pages, and every stored page has been compiled. */
    ghost predicate Valid()
      reads this, pages.Values
    {
      (forall n, m :: n in pages && m in pages && n != m ==> pages[n] != pages[m])
      && (forall n :: n in pages ==> pages[n].template.Some?)
    }

    function View(): map<string, PageV>
      reads this, pages.Values
    {
      map n | n in pages :: pages[n].View()
    }

    /** PageCache.new(pages_path, reload_time). */
    constructor (pagesPath: string, reloadTime: Option<int>)
      ensures Valid() && View() == map[]
      ensures this.pagesPath == pagesPath && workdir == Dirname(pagesPath) && this.reloadTime == reloadTime
    {
      this.pagesPath := pagesPath;
      workdir := Dirname(pagesPath);
      this.reloadTime := reloadTime;
      pages := map[];
    }

    /** PageCache#get: the template for `name`, as GetSpec describes with the intended compiler. */
    method Get(fs: FileSystem, now: int, name: string) returns (r: Result<Option<Template>, Error>)
      requires Valid()
      modifies this, pages.Values
      ensures Valid()
      ensures (r, View()) == GetSpec(old(View()), pagesPath, workdir, reloadTime, now, fs, IntendedCompile, name)
    {
      if name in pages {
        r := GetHit(fs, now, name);
      } else {
        r := GetMiss(fs, now, name);
      }
    }

    /** #get on a cached name: `page.changed? and page.compile(@workdir)`. */
    method GetHit(fs: FileSystem, now: int, name: string) returns (r: Result<Option<Template>, Error>)
      requires Valid() && name in pages
      modifies pages[name]
      ensures Valid()
      ensures (r, View()) == GetSpec(old(View()), pagesPath, workdir, reloadTime, now, fs, IntendedCompile, name)
    {
      ghost var before := View();
      var page := pages[name];
      var changed := page.View().Changed(reloadTime, now, fs);
      if changed.Err? {
        return FlottCache.Rescue(changed.error);
      }
      if changed.value == Some(true) {
        var o := page.Compile(fs, workdir);
        UpdatedView(before, name, page);
        if o.Fail? {
          return FlottCache.Rescue(o.error);
        }
      }
      r := Ok(page.template);
    }

    /** #get on a new name: Page.new, compile, put. */
    method GetMiss(fs: FileSystem, now: int, name: string) returns (r: Result<Option<Template>, Error>)
      requires Valid() && name !in pages
      modifies this
      ensures Valid()
      ensures (r, View()) == GetSpec(old(View()), pagesPath, workdir, reloadTime, now, fs, IntendedCompile, name)
    {
      ghost var before := View();
      var created := Page.Create(fs, Join(pagesPath, name));
      if created.Err? {
        return FlottCache.Rescue(created.error);
      }
      var page := created.value;
      assert page !in pages.Values;
      var o := page.Compile(fs, workdir);
      if o.Fail? {
        assert View() == before;
        return FlottCache.Rescue(o.error);
      }
      assert View() == before;
      Put(name, page);
      r := Ok(page.template);
    }

    /** After `page`, the page stored under `name`, was changed in place, only that entry of the view moved. */
    lemma UpdatedView(before: map<string, PageV>, name: string, page: Page)
      requires name in pages && pages[name] == page
      requires forall n, m :: n in pages && m in pages && n != m ==> pages[n] != pages[m]
      requires before.Keys == pages.Keys
      requires forall n :: n in pages && n != name ==> before[n] == pages[n].View()
      ensures View() == before[name := page.View()]
    {
    }

    /** PageCache#put: stores `page` under `name`. */
    method Put(name: string, page: Page)
      requires Valid() && name !in pages && page !in pages.Values
      requires page.template.Some?
      modifies this
      ensures pages == old(pages)[name := page]
      ensures Valid() && View() == old(View())[name := page.View()]
    {
      pages := pages[name := page];
    }

    /**
     * PageCache#evaluate: true (the cache itself) when #get yielded a template to evaluation (outside the
     * model), false (nil) when #get gave nil; other errors propagate.
     */
    method Evaluate(fs: FileSystem, now: int, name: string) returns (r: Result<bool, Error>)
      requires Valid()
      modifies this, pages.Values
      ensures Valid()
      ensures var (got, after) := GetSpec(old(View()), pagesPath, workdir, reloadTime, now, fs, IntendedCompile, name);
              View() == after
              && (r.Ok? <==> got.Ok?) && (r.Err? ==> r.error == got.error)
              && (r.Ok? ==> (r.value <==> got.value.Some?))
    {
      var got := Get(fs, now, name);
      if got.Err? {
        return Err(got.error);
      }
      r := Ok(got.value.Some?);
    }
  }
}
