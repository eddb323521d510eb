/** Flott::Template: the compiled program, kept as its list of generated code fragments, and the files it came from. */
module Templates {
  import opened Wrappers
  import opened Errors
  import opened Files

  /**
   * A compiled template. `code` is the generated Ruby source as the ordered list of fragments whose
   * concatenation the parser hands to `eval`; evaluating it is outside the model. `pathes` lists the
   * template's own file (when it has one) followed by every statically included file.
   */
  datatype Template = Template(code: seq<string>, pathes: seq<string>)

  /**
   * Template#mtime: the newest modification time among `pathes`, nil (None) for no paths, and ENOENT for the
   * first path, in order, that no longer exists.
   */
  function NewestMtime(fs: FileSystem, pathes: seq<string>): (r: Result<Option<int>, Error>)
    ensures r.Err? <==> exists i :: 0 <= i < |pathes| && pathes[i] !in fs
    ensures r.Err? ==> exists i :: 0 <= i < |pathes| && pathes[i] !in fs && r.error == NoEntry(pathes[i])
                                   && forall j :: 0 <= j < i ==> pathes[j] in fs
    ensures r.Ok? ==> (r.value.None? <==> pathes == [])
    ensures r.Ok? && r.value.Some? ==>
              (forall i :: 0 <= i < |pathes| ==> fs[pathes[i]].mtime <= r.value.value)
              && exists i :: 0 <= i < |pathes| && fs[pathes[i]].mtime == r.value.value
  {
    if pathes == [] then Ok(None)
    else if pathes[0] !in fs then Err(NoEntry(pathes[0]))
    else
      var first := fs[pathes[0]].mtime;
      match NewestMtime(fs, pathes[1..])
      case Err(e) => Err(e)
      case Ok(None) => Ok(Some(first))
      case Ok(Some(rest)) => Ok(Some(if first < rest then rest else first))
  }
}
