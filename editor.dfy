/**
 * What the editor hands to the completion core: the context of one edit
 * cycle, and the version that identifies it.
 */
module Editor {
  import opened Wrappers
  import opened Text

  /** A context's version: the buffer's change counter and the cursor position. */
  datatype Version = Version(changedtick: int, curpos: seq<int>)

  /** The reference stamped into a context: the stripped `{changedtick, curpos}` the URL encodes. */
  datatype FileRef = FileRef(context: Version)

  /**
   * One edit-cycle snapshot. `filetype` is a key the editor normally sends;
   * `None` stands for the dictionary lacking it, which makes the scope
   * lookup raise. `fileUrl` is absent until the core stamps it.
   */
  datatype Context = Context(
    typed: string,
    col: Col,
    filetype: Option<string>,
    scope: Option<string>,
    changedtick: int,
    curpos: seq<int>,
    fileUrl: Option<FileRef>)

  function VersionOf(ctx: Context): Version
  {
    Version(ctx.changedtick, ctx.curpos)
  }
}
