/**
 * `FileServer`: a cache of the current buffer's text, keyed by the version
 * (change counter and cursor) of the context it was built for. Out-of-process
 * sources fetch the text with the reference stamped into their context; a
 * request for a version the editor is no longer at gets nothing.
 *
 * The editor is not called from here: the live context that `cm#context()`
 * would return and the buffer's lines are parameters of `GetSrc`, read only
 * on the paths where the source calls the editor.
 */
module VersionCache {
  import opened Wrappers
  import opened Text
  import opened Editor

  /** `_context_changed`: either side missing, or the change counters or the cursors differ. */
  function ContextChanged(a: Option<Version>, b: Option<Version>): (r: bool)
    ensures !r <==> a.Some? && b.Some? && a.value == b.value
  {
    a.None? || b.None? || a.value.changedtick != b.value.changedtick || a.value.curpos != b.value.curpos
  }

  /** `get_file_url`: the reference keeps only `changedtick` and `curpos` of the context. */
  function GetFileUrl(ctx: Context): (r: FileRef)
    ensures !ContextChanged(Some(r.context), Some(VersionOf(ctx)))
  {
    FileRef(VersionOf(ctx))
  }

  /** Two contexts get the same reference exactly when they have the same version. */
  lemma FileUrlOnlyVersion(a: Context, b: Context)
    ensures GetFileUrl(a) == GetFileUrl(b) <==> a.changedtick == b.changedtick && a.curpos == b.curpos
  {
  }

  class FileServer {
    /** The last context the core reported, or that a request re-queried; only its version is read. */
    var currentContext: Option<Version>
    /** The version `cacheSrc` was built for. */
    var cacheContext: Option<Version>
    var cacheSrc: string

    constructor ()
      ensures currentContext == None && cacheContext == None && cacheSrc == ""
    {
      currentContext := None;
      cacheContext := None;
      cacheSrc := "";
    }

    /** `set_current_context`: records the core's context and changes nothing else. */
    method SetCurrentContext(ctx: Context)
      modifies this`currentContext
      ensures currentContext == Some(VersionOf(ctx))
    {
      currentContext := Some(VersionOf(ctx));
    }

    /**
     * `get_src`: `live` is what `cm#context()` returns and `buffer` the
     * buffer's lines. The text is returned only for the version the editor
     * is at; it is rebuilt when the cache was built for another version.
     */
    method GetSrc(request: Option<Version>, live: Version, buffer: seq<string>) returns (src: Option<string>)
      modifies this
      ensures currentContext == if ContextChanged(old(currentContext), request) then Some(live) else old(currentContext)
      ensures src.None? <==> ContextChanged(currentContext, request)
      ensures src.None? ==> cacheContext == old(cacheContext) && cacheSrc == old(cacheSrc)
      ensures src.Some? ==> request.Some? && cacheContext == currentContext == request && src.value == cacheSrc
      ensures src.Some? ==>
                cacheSrc == if ContextChanged(currentContext, old(cacheContext)) then Join(buffer) else old(cacheSrc)
    {
      if ContextChanged(currentContext, request) {
        currentContext := Some(live);
      }
      if ContextChanged(currentContext, request) {
        return None;
      }
      if ContextChanged(currentContext, cacheContext) {
        cacheContext := currentContext;
        cacheSrc := Join(buffer);
      }
      return Some(cacheSrc);
    }
  }

  /**
   * A cache built at one version; a request for a version the editor has
   * not reached gets nothing, not the older text; once the editor is there
   * the cache is rebuilt from the new buffer.
   */
  method StaleRequestScenario()
  {
    var v1 := Version(1, [0, 1, 4, 0, 4]);
    var v2 := Version(2, [0, 1, 5, 0, 5]);
    var server := new FileServer();
    server.SetCurrentContext(Context("abc", 4, Some("text"), None, 1, [0, 1, 4, 0, 4], None));
    var a := server.GetSrc(Some(v1), v1, ["abc"]);
    assert a == Some("abc");
    var b := server.GetSrc(Some(v2), v1, ["abc"]);
    assert b == None;
    var c := server.GetSrc(Some(v2), v2, ["abcd"]);
    assert c == Some("abcd");
    var d := server.GetSrc(Some(v2), v2, ["ignored"]);
    assert d == Some("abcd");
  }
}
