/** What Flott::Cache#get and #pages promise, stated on the value model of the cache. */
module CacheProps {
  import opened Wrappers
  import opened Strings
  import opened Errors
  import opened Files
  import opened Templates
  import opened FlottCache

  /** Every page is stored under the name whose file it compiles. */
  predicate PathsUnder(pages: map<string, PageV>, rootdir: string) {
    forall n :: n in pages ==> pages[n].path == Join(rootdir, n)
  }

  /** #get touches only the entry for `name`: no page is dropped and every other page is left as it was. */
  lemma GetTouchesOnlyName(pages: map<string, PageV>, rootdir: string, rt: Option<int>, now: int, fs: FileSystem, name: string)
    requires AllCompiled(pages)
    ensures var after := GetSpec(pages, rootdir, rt, now, fs, name).1;
            pages.Keys <= after.Keys <= pages.Keys + {name}
            && forall n :: n in pages && n != name ==> after[n] == pages[n]
  {
  }

  /** #get keeps every page stored under the name whose file it compiles. */
  lemma GetKeepsPaths(pages: map<string, PageV>, rootdir: string, rt: Option<int>, now: int, fs: FileSystem, name: string)
    requires AllCompiled(pages) && PathsUnder(pages, rootdir)
    ensures PathsUnder(GetSpec(pages, rootdir, rt, now, fs, name).1, rootdir)
  {
    if name in pages {
      assert CompilePage(pages[name], fs).0.path == pages[name].path;
    } else {
      assert CompilePage(PageV(Join(rootdir, name), None, None), fs).0.path == Join(rootdir, name);
    }
  }

  /** A negative reload time recompiles a cached page on every #get. */
  lemma NegativeReloadRecompiles(pages: map<string, PageV>, rootdir: string, rt: Option<int>, now: int, fs: FileSystem, name: string)
    requires AllCompiled(pages) && name in pages && rt.Some? && rt.value < 0
    ensures var (got, after) := GetSpec(pages, rootdir, rt, now, fs, name);
            var (q, o) := CompilePage(pages[name], fs);
            after == pages[name := q]
            && (o.Pass? ==> got == Ok(Some(CompileFile(fs, pages[name].path).value)))
            && (o.Fail? ==> got == Rescue(o.error))
  {
  }

  /**
   * Within the waiting window (less than `rt` since the template's newest file time) #get returns the
   * cached template and leaves the table alone, whatever changed on disk.
   */
  lemma WindowKeepsCache(pages: map<string, PageV>, rootdir: string, rt: Option<int>, now: int, fs: FileSystem, name: string, t: int)
    requires AllCompiled(pages) && name in pages && rt.Some? && rt.value >= 0
    requires NewestMtime(fs, pages[name].template.value.pathes) == Ok(Some(t)) && now - t < rt.value
    ensures GetSpec(pages, rootdir, rt, now, fs, name) == (Ok(pages[name].template), pages)
  {
  }

  /**
   * Without a reload time, #get recompiles a cached page exactly when the newest time among the files it
   * was compiled from differs from the recorded one.
   */
  lemma NoReloadTimeFollowsMtime(pages: map<string, PageV>, rootdir: string, now: int, fs: FileSystem, name: string)
    requires AllCompiled(pages) && name in pages
    requires NewestMtime(fs, pages[name].template.value.pathes).Ok?
    ensures var after := GetSpec(pages, rootdir, None, now, fs, name).1;
            (NewestMtime(fs, pages[name].template.value.pathes).value == pages[name].mtime ==> after == pages)
            && (NewestMtime(fs, pages[name].template.value.pathes).value != pages[name].mtime ==>
                  after == pages[name := CompilePage(pages[name], fs).0])
  {
  }

  /** A name whose file is missing or is a directory gives nil and stores nothing. */
  lemma MissingPageRescued(pages: map<string, PageV>, rootdir: string, rt: Option<int>, now: int, fs: FileSystem, name: string)
    requires AllCompiled(pages) && name !in pages
    requires Read(fs, Join(rootdir, name)).Err?
    ensures GetSpec(pages, rootdir, rt, now, fs, name) == (Ok(None), pages)
  {
    assert IsRescued(CompileFile(fs, Join(rootdir, name)).error);
  }

  /** A compile error in a new page is not rescued: it propagates and nothing is stored. */
  lemma CompileErrorPropagates(pages: map<string, PageV>, rootdir: string, rt: Option<int>, now: int, fs: FileSystem, name: string)
    requires AllCompiled(pages) && name !in pages
    requires CompileFile(fs, Join(rootdir, name)).Err? && IsCompileError(CompileFile(fs, Join(rootdir, name)).error)
    ensures GetSpec(pages, rootdir, rt, now, fs, name) == (Err(CompileFile(fs, Join(rootdir, name)).error), pages)
  {
  }

  /** A name whose file compiles is stored after #get, holding the template #get returned. */
  lemma MissCompilesAndStores(pages: map<string, PageV>, rootdir: string, rt: Option<int>, now: int, fs: FileSystem, name: string)
    requires AllCompiled(pages) && name !in pages
    requires CompileFile(fs, Join(rootdir, name)).Ok?
    ensures var (got, after) := GetSpec(pages, rootdir, rt, now, fs, name);
            var t := CompileFile(fs, Join(rootdir, name)).value;
            got == Ok(Some(t)) && after == pages[name := PageV(Join(rootdir, name), Some(t), NewestMtime(fs, t.pathes).value)]
  {
  }

  /**
   * Unless the reload time is negative, a second #get on an unchanged disk at the same instant returns the
   * same template and leaves the table as the first one left it.
   */
  lemma SecondGetStable(pages: map<string, PageV>, rootdir: string, rt: Option<int>, now: int, fs: FileSystem, name: string)
    requires AllCompiled(pages) && !(rt.Some? && rt.value < 0)
    requires GetSpec(pages, rootdir, rt, now, fs, name).0.Ok?
    requires GetSpec(pages, rootdir, rt, now, fs, name).0.value.Some?
    ensures var (got, after) := GetSpec(pages, rootdir, rt, now, fs, name);
            GetSpec(after, rootdir, rt, now, fs, name) == (got, after)
  {
    var (got, after) := GetSpec(pages, rootdir, rt, now, fs, name);
    var p := after[name];
    assert p.template == got.value;
    if name in pages && pages[name].Changed(rt, now, fs) == Ok(Some(true)) {
      var q := CompilePage(pages[name], fs).0;
      assert after == pages[name := q] && p == q;
      assert p.mtime == NewestMtime(fs, p.template.value.pathes).value;
      assert p.Changed(rt, now, fs) != Ok(Some(true));
    } else if name in pages {
      assert after == pages;
      assert pages[name].Changed(rt, now, fs).Ok?;
    } else {
      assert p == CompilePage(PageV(Join(rootdir, name), None, None), fs).0;
      assert p.mtime == NewestMtime(fs, p.template.value.pathes).value;
      assert p.Changed(rt, now, fs) != Ok(Some(true));
    }
  }

  /** The names #pages lists are those of the walked paths that are listed, each with the prefix removed. */
  lemma {:induction false} PageNamesMembers(fs: FileSystem, rootdir: string, found: seq<string>, x: string)
    ensures x in PageNames(fs, rootdir, found) <==>
              exists i :: 0 <= i < |found| && Listed(fs, rootdir, found[i]) && x == PageName(rootdir, found[i])
  {
    if found != [] {
      var init := found[..|found| - 1];
      PageNamesMembers(fs, rootdir, init, x);
      if x in PageNames(fs, rootdir, found) && x !in PageNames(fs, rootdir, init) {
        assert Listed(fs, rootdir, found[|found| - 1]) && x == PageName(rootdir, found[|found| - 1]);
      }
      if exists i :: 0 <= i < |found| && Listed(fs, rootdir, found[i]) && x == PageName(rootdir, found[i]) {
        var i :| 0 <= i < |found| && Listed(fs, rootdir, found[i]) && x == PageName(rootdir, found[i]);
        if i < |found| - 1 {
          assert init[i] == found[i];
        }
      }
    }
  }

  /**
   * The name #pages lists for the file of a page is the name #get resolves to that file: a page name with no
   * leading '/' survives File.join onto the root followed by the removal of the root prefix.
   */
  lemma PageNameOfJoin(rootdir: string, name: string)
    requires rootdir != [] && rootdir[|rootdir| - 1] != '/'
    requires name == [] || name[0] != '/'
    ensures PageName(rootdir, Join(rootdir, name)) == name
  {
    assert Join(rootdir, "") == rootdir + "/";
    assert Join(rootdir, name) == rootdir + "/" + name;
    assert (rootdir + "/" + name)[|rootdir + "/"|..] == name;
  }
}
