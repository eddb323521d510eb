/**
 * Flott::Cache: a table from page names to Pages, each holding a template compiled from the file
 * `rootdir/name` and the modification time the compilation saw. The reload policy is driven by
 * `reloadTime`: negative recompiles on every hit, a waiting window measured from the template's newest file
 * time returns the cached template untouched, and otherwise a changed newest time triggers a recompile.
 *
 * The table is modelled twice: as objects (class Cache holding class Page objects, updated in place) and
 * as values (PageV, GetSpec). Every method is proved to compute what the value functions say.
 */
module FlottCache {
  import opened Wrappers
  import opened Strings
  import opened Errors
  import opened Files
  import opened Templates
  import opened Compiler
  import opened Parsing
  import CompilerProps

  /** The include nesting the model allows per compilation; deeper nesting is StackTooDeep. */
  const IncludeDepth: nat := 64

  /** The `rescue Errno::ENOENT, Errno::EISDIR` of #get: those give nil, every other error propagates. */
  function Rescue<T>(e: Error): (r: Result<Option<T>, Error>)
    ensures r.Ok? <==> IsRescued(e)
    ensures r.Ok? ==> r.value.None?
    ensures r.Err? ==> r.error == e
  {
    if IsRescued(e) then Ok(None) else Err(e)
  }

  /**
   * Parser.from_filename(path).compile: the file is read (NoEntry, IsDirectory) and compiled in its own
   * directory. A compiled template's first path is `path`, and all its paths exist, so its mtime is defined.
   */
  function CompileFile(fs: FileSystem, path: string): (r: Result<Template, Error>)
    ensures Read(fs, path).Err? ==> r == Err(Read(fs, path).error)
    ensures r.Ok? ==> r.value.pathes != [] && r.value.pathes[0] == path
    ensures r.Ok? ==> NewestMtime(fs, r.value.pathes).Ok? && NewestMtime(fs, r.value.pathes).value.Some?
  {
    match Read(fs, path)
    case Err(e) => Err(e)
    case Ok(source) =>
      var dir := Dirname(path);
      CompilerProps.CompileFraming(IncludeDepth, fs, source, dir, dir, Some(path), TextMode);
      match CompileSpec(IncludeDepth, fs, source, dir, dir, Some(path), TextMode)
      case Err(e) => Err(e)
      case Ok((t, _)) => Ok(t)
  }

  /** A Cache::Page as a value. */
  datatype PageV = PageV(path: string, template: Option<Template>, mtime: Option<int>)
  {
    /**
     * Cache::Page#changed?: Some(true) when `rt` is negative; nil (None) while less than `rt` has passed
     * since the template's newest file time; otherwise whether that newest time differs from the recorded
     * one. A vanished file is NoEntry.
     */
    function Changed(rt: Option<int>, now: int, fs: FileSystem): (r: Result<Option<bool>, Error>)
      requires template.Some?
      ensures rt.Some? && rt.value < 0 ==> r == Ok(Some(true))
      ensures !(rt.Some? && rt.value < 0) ==>
                (r.Err? <==> NewestMtime(fs, template.value.pathes).Err?
                              || (rt.Some? && NewestMtime(fs, template.value.pathes).value.None?))
      ensures r.Ok? && r.value.None? <==>
                !(rt.Some? && rt.value < 0) && rt.Some? && NewestMtime(fs, template.value.pathes).Ok?
                && NewestMtime(fs, template.value.pathes).value.Some?
                && now - NewestMtime(fs, template.value.pathes).value.value < rt.value
      ensures r.Ok? && r.value.Some? && !(rt.Some? && rt.value < 0) ==>
                r.value.value == (NewestMtime(fs, template.value.pathes).value != mtime)
    {
      if rt.Some? && rt.value < 0 then Ok(Some(true))
      else
        match NewestMtime(fs, template.value.pathes)
        case Err(e) => Err(e)
        case Ok(newest) =>
          if rt.Some? then
            (match newest
             case None => Err(NilTime)
             case Some(t) => if now - t < rt.value then Ok(None) else Ok(Some(newest != mtime)))
          else Ok(Some(newest != mtime))
    }
  }

  /**
   * Cache::Page#compile on a value: the new template and its newest file time are stored; an error while
   * reading or compiling leaves the page as it was. On one snapshot of the disk the template's mtime is
   * always defined once it compiled.
   */
  function CompilePage(p: PageV, fs: FileSystem): (r: (PageV, Outcome<Error>))
    ensures r.0.path == p.path
    ensures r.1.Pass? <==> CompileFile(fs, p.path).Ok?
    ensures r.1.Pass? ==> r.0.template == Some(CompileFile(fs, p.path).value)
                          && r.0.mtime == NewestMtime(fs, r.0.template.value.pathes).value
                          && r.0.mtime.Some?
    ensures r.1.Fail? ==> r.0 == p && r.1.error == CompileFile(fs, p.path).error
  {
    match CompileFile(fs, p.path)
    case Err(e) => (p, Fail(e))
    case Ok(t) => (p.(template := Some(t), mtime := NewestMtime(fs, t.pathes).value), Pass)
  }

  /** Every page in the table has been compiled. */
  predicate AllCompiled(pages: map<string, PageV>) {
    forall n :: n in pages ==> pages[n].template.Some?
  }

  /**
   * Cache#get on values: the template #get returns (nil as None, a propagated error as Err) and the table
   * afterwards. A hit recompiles when changed? is true; a miss compiles a new page for `rootdir/name` twice
   * (Page.new compiles, then #get compiles again) and puts it.
   */
  function GetSpec(pages: map<string, PageV>, rootdir: string, rt: Option<int>, now: int, fs: FileSystem, name: string)
    : (r: (Result<Option<Template>, Error>, map<string, PageV>))
    requires AllCompiled(pages)
    ensures AllCompiled(r.1)
    ensures r.0.Ok? && r.0.value.Some? ==> name in r.1 && r.1[name].template == r.0.value
  {
    if name in pages then
      var p := pages[name];
      match p.Changed(rt, now, fs)
      case Err(e) => (Rescue(e), pages)
      case Ok(c) =>
        if c == Some(true) then
          var (q, o) := CompilePage(p, fs);
          (if o.Pass? then Ok(q.template) else Rescue(o.error), pages[name := q])
        else (Ok(p.template), pages)
    else
      var (p1, o1) := CompilePage(PageV(Join(rootdir, name), None, None), fs);
      if o1.Fail? then (Rescue(o1.error), pages)
      else (Ok(p1.template), pages[name := p1])
  }

  /**
   * A miss compiles the new page twice (Page.new, then #get). On one snapshot of the disk the second
   * compilation sees what the first saw: it succeeds and leaves the page as the first one left it.
   */
  lemma RecompileStable(p: PageV, fs: FileSystem)
    requires CompilePage(p, fs).1.Pass?
    ensures CompilePage(CompilePage(p, fs).0, fs) == CompilePage(p, fs)
  {
  }

  /** Cache::Page as an object: its template and mtime are overwritten by #compile. */
  class Page {
    const path: string
    var template: Option<Template>
    var mtime: Option<int>

    function View(): PageV
      reads this
    {
      PageV(path, template, mtime)
    }

    /** The allocation part of Page.new, before #initialize compiles. */
    constructor (path: string)
      ensures View() == PageV(path, None, None)
    {
      this.path := path;
      template := None;
      mtime := None;
    }

    /** Cache::Page.new: a page for `path`, compiled once; an error while compiling discards it. */
    static method Create(fs: FileSystem, path: string) returns (r: Result<Page, Error>)
      ensures CompilePage(PageV(path, None, None), fs).1.Fail? ==>
                r == Err(CompilePage(PageV(path, None, None), fs).1.error)
      ensures CompilePage(PageV(path, None, None), fs).1.Pass? ==>
                r.Ok? && fresh(r.value) && r.value.View() == CompilePage(PageV(path, None, None), fs).0
    {
      var page := new Page(path);
      var o := page.Compile(fs);
      if o.Fail? {
        return Err(o.error);
      }
      r := Ok(page);
    }

    /** Cache::Page#compile: Parser.from_filename(path).compile, then the template's mtime. */
    method Compile(fs: FileSystem) returns (r: Outcome<Error>)
      modifies this
      ensures (View(), r) == CompilePage(old(View()), fs)
    {
      var parser := Parser.FromFilename(fs, path);
      if parser.Err? {
        return Fail(parser.error);
      }
      assert Read(fs, path) == Ok(parser.value.source);
      var compiled := parser.value.Compile(IncludeDepth, fs);
      if compiled.Err? {
        return Fail(compiled.error);
      }
      assert compiled.value == CompileFile(fs, path).value;
      template := Some(compiled.value);
      var newest := NewestMtime(fs, compiled.value.pathes);
      mtime := newest.value;
      r := Pass;
    }
  }

  /** Flott::Cache as an object. */
  class Cache {
    /** The directory page names are resolved under. */
    const rootdir: string
    /** The reload_time accessor: nil (None), negative, or a waiting window. */
    var reloadTime: Option<int>
    /** @pages. */
    var pages: map<string, Page>

    /** Distinct names hold distinct pages, and every page has been compiled. */
    ghost predicate Valid()
      reads this, pages.Values
    {
      (forall n, m :: n in pages && m in pages && n != m ==> pages[n] != pages[m])
      && (forall n :: n in pages ==> pages[n].template.Some?)
    }

    /** The table as values. */
    function View(): map<string, PageV>
      reads this, pages.Values
    {
      map n | n in pages :: pages[n].View()
    }

    /** Cache.new(rootdir, reload_time): an empty table. */
    constructor (rootdir: string, reloadTime: Option<int>)
      ensures Valid() && View() == map[]
      ensures this.rootdir == rootdir && this.reloadTime == reloadTime
    {
      this.rootdir := rootdir;
      this.reloadTime := reloadTime;
      pages := map[];
    }

    /** The reload_time= writer: later #get calls use the new reload time; the table is untouched. */
    method SetReloadTime(rt: Option<int>)
      modifies this`reloadTime
      ensures reloadTime == rt
    {
      reloadTime := rt;
    }

    /** Cache#get: the template for `name`, as GetSpec describes; the table stays valid. */
    method Get(fs: FileSystem, now: int, name: string) returns (r: Result<Option<Template>, Error>)
      requires Valid()
      modifies this`pages, pages.Values
      ensures Valid()
      ensures AllCompiled(old(View())) && (r, View()) == GetSpec(old(View()), rootdir, reloadTime, now, fs, name)
    {
      if name in pages {
        r := GetHit(fs, now, name);
      } else {
        r := GetMiss(fs, now, name);
      }
    }

    /** #get on a name already in the table: recompiled in place when changed? is true. */
    method GetHit(fs: FileSystem, now: int, name: string) returns (r: Result<Option<Template>, Error>)
      requires Valid() && name in pages
      modifies pages[name]
      ensures Valid()
      ensures AllCompiled(old(View())) && (r, View()) == GetSpec(old(View()), rootdir, reloadTime, now, fs, name)
    {
      ghost var before := View();
      var page := pages[name];
      var changed := page.View().Changed(reloadTime, now, fs);
      if changed.Err? {
        return Rescue(changed.error);
      }
      if changed.value == Some(true) {
        var o := page.Compile(fs);
        UpdatedView(before, name, page);
        if o.Fail? {
          return Rescue(o.error);
        }
      }
      r := Ok(page.template);
    }

    /** #get on a name not in the table: a new page, compiled, put under `name`. */
    method GetMiss(fs: FileSystem, now: int, name: string) returns (r: Result<Option<Template>, Error>)
      requires Valid() && name !in pages
      modifies this`pages
      ensures Valid()
      ensures AllCompiled(old(View()))
      ensures (r, View()) == GetSpec(old(View()), rootdir, reloadTime, now, fs, name)
    {
      MissSpec(View(), rootdir, reloadTime, now, fs, name);
      var created := CompiledPage(fs, Join(rootdir, name));
      if created.Err? {
        return Rescue(created.error);
      }
      Put(name, created.value);
      r := Ok(created.value.template);
    }

    /** `Page.new(self, path)` followed by `page.compile`, as #get does on a miss. */
    static method CompiledPage(fs: FileSystem, path: string) returns (r: Result<Page, Error>)
      ensures var (p, o) := CompilePage(PageV(path, None, None), fs);
              (o.Fail? ==> r == Err(o.error)) && (o.Pass? ==> r.Ok? && fresh(r.value) && r.value.View() == p)
    {
      var created := Page.Create(fs, path);
      if created.Err? {
        return Err(created.error);
      }
      var page := created.value;
      RecompileStable(PageV(path, None, None), fs);
      var _ := page.Compile(fs);
      r := Ok(page);
    }

    /** GetSpec on a name that is not in the table. */
    static lemma MissSpec(pages: map<string, PageV>, rootdir: string, rt: Option<int>, now: int, fs: FileSystem, name: string)
      requires AllCompiled(pages) && name !in pages
      ensures var first := CompilePage(PageV(Join(rootdir, name), None, None), fs);
              GetSpec(pages, rootdir, rt, now, fs, name)
                == if first.1.Fail? then (Rescue(first.1.error), pages) else (Ok(first.0.template), pages[name := first.0])
    {
    }

    /** After `page`, the page stored under `name`, was changed in place, only that entry of the view moved. */
    lemma UpdatedView(before: map<string, PageV>, name: string, page: Page)
      requires name in pages && pages[name] == page
      requires forall n, m :: n in pages && m in pages && n != m ==> pages[n] != pages[m]
      requires before.Keys == pages.Keys
      requires forall n :: n in pages && n != name ==> before[n] == pages[n].View()
      ensures View() == before[name := page.View()]
    {
    }

    /** Cache#put: stores `page` under `name`. */
    method Put(name: string, page: Page)
      requires Valid() && name !in pages && page !in pages.Values
      requires page.template.Some?
      modifies this`pages
      ensures pages == old(pages)[name := page]
      ensures Valid() && View() == old(View())[name := page.View()]
    {
      pages := pages[name := page];
    }

    /**
     * Cache#evaluate: true (the cache itself) when #get found a template, which is then evaluated (outside
     * the model); false (nil) when #get gave nil; other errors propagate.
     */
    method Evaluate(fs: FileSystem, now: int, name: string) returns (r: Result<bool, Error>)
      requires Valid()
      modifies this`pages, pages.Values
      ensures Valid()
      ensures AllCompiled(old(View()))
      ensures var (got, after) := GetSpec(old(View()), rootdir, reloadTime, now, fs, name);
              View() == after
              && (r.Ok? <==> got.Ok?) && (r.Err? ==> r.error == got.error)
              && (r.Ok? ==> (r.value <==> got.value.Some?))
    {
      var got := Get(fs, now, name);
      if got.Err? {
        return Err(got.error);
      }
      r := Ok(got.value.Some?);
    }

    /**
     * Cache#pages: of the paths the walk of `rootdir` yields (in `found`, in the walk's order), the names
     * with the "rootdir/" prefix removed, of regular files whose name has no line starting with '.'.
     */
    method Pages(fs: FileSystem, found: seq<string>) returns (names: seq<string>)
      ensures names == PageNames(fs, rootdir, found)
    {
      names := [];
      var i := 0;
      while i < |found|
        invariant i <= |found|
        invariant names == PageNames(fs, rootdir, found[..i])
      {
        assert found[..i + 1][..i] == found[..i];
        var pagename := PageName(rootdir, found[i]);
        if !IsHidden(pagename) && found[i] in fs && fs[found[i]].File? {
          names := names + [pagename];
        }
        i := i + 1;
      }
      assert found[..i] == found;
    }
  }

  /** The page name for a walked path: the first occurrence of "rootdir/" removed. */
  function PageName(rootdir: string, path: string): (r: string)
    ensures StartsWith(path, Join(rootdir, "")) ==> r == path[|Join(rootdir, "")|..]
  {
    SubFirst(path, Join(rootdir, ""))
  }

  /** /^\./ matches: some line of the name starts with '.'. */
  predicate IsHidden(name: string) {
    exists k :: 0 <= k < |name| && name[k] == '.' && (k == 0 || name[k - 1] == '\n')
  }

  /** Whether the walked path is listed by #pages. */
  predicate Listed(fs: FileSystem, rootdir: string, path: string) {
    !IsHidden(PageName(rootdir, path)) && path in fs && fs[path].File?
  }

  /** The names #pages collects from the walked paths, in order. */
  function PageNames(fs: FileSystem, rootdir: string, found: seq<string>): (r: seq<string>)
    ensures |r| <= |found|
  {
    if found == [] then []
    else
      var last := found[|found| - 1];
      PageNames(fs, rootdir, found[..|found| - 1]) + (if Listed(fs, rootdir, last) then [PageName(rootdir, last)] else [])
  }
}
