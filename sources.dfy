/**
 * Source descriptors and the part of `cm_refresh` that decides which sources
 * to ask for new matches (`_check_scope` and the loop over `srcs`).
 */
module Sources {
  import opened Wrappers
  import opened Text
  import opened OrderedDict
  import opened Editor

  /** A notification target; only a channel that has an `id` is notified. */
  datatype Channel = Channel(id: Option<int>)

  /**
   * A source's descriptor. `name` and `scopes` are optional keys
   * (`name` missing makes the refresh check raise; `scopes` defaults to
   * `["*"]`); `refresh`, `channels` and `abbreviation` carry their defaults
   * `0`, `[]` and `""` when absent. `hasRefresh` says whether the descriptor
   * has a `cm_refresh` key.
   */
  datatype Source = Source(
    name: Option<string>,
    priority: int,
    scopes: Option<seq<string>>,
    refresh: int,
    hasRefresh: bool,
    channels: seq<Channel>,
    abbreviation: string)

  /** A queued notification: `dict(name=name, id=channel['id'], context=ctx)`. */
  datatype ChannelNote = ChannelNote(name: string, id: int, context: Context)

  const Universal := "*"

  function ScopesOf(info: Source): seq<string>
  {
    if info.scopes.Some? then info.scopes.value else [Universal]
  }

  /** The loop of `_check_scope`: true at the first `"*"` or the first scope equal to `current`. */
  function AnyScope(scopes: seq<string>, current: string): (r: bool)
    ensures r <==> Universal in scopes || current in scopes
  {
    if scopes == [] then false
    else
      assert scopes == [scopes[0]] + scopes[1..];
      scopes[0] == Universal || scopes[0] == current || AnyScope(scopes[1..], current)
  }

  /**
   * `_check_scope`: `None` when the lookup of `ctx['filetype']` raises
   * (it is evaluated even when the context has a `scope`).
   */
  function CheckScope(ctx: Context, info: Source): (r: Option<bool>)
    ensures r.None? <==> ctx.filetype.None?
    ensures r == Some(true) <==>
              ctx.filetype.Some? &&
              (Universal in ScopesOf(info) ||
               (if ctx.scope.Some? then ctx.scope.value else ctx.filetype.value) in ScopesOf(info))
    ensures ctx.filetype.Some? && info.scopes.None? ==> r == Some(true)
  {
    if ctx.filetype.None? then None
    else
      var current := if ctx.scope.Some? then ctx.scope.value else ctx.filetype.value;
      Some(AnyScope(ScopesOf(info), current))
  }

  /**
   * One pass of the loop body: the source is asked again when its scope
   * matches and it either has no stored matches or asks to be refreshed. A
   * raising check (no `filetype`, no `name`) skips the source.
   */
  predicate Queued(ctx: Context, info: Source, cached: set<string>)
    ensures Queued(ctx, info, cached) ==> ctx.filetype.Some? && info.name.Some?
    ensures ctx.filetype.Some? && info.scopes.None? && info.name.Some? && info.name.value !in cached ==> Queued(ctx, info, cached)
  {
    CheckScope(ctx, info) == Some(true) && info.name.Some? && (info.name.value !in cached || info.refresh != 0)
  }

  /** `refreshes_calls` after the loop has visited `order`. */
  function SyncQueue(ctx: Context, order: seq<string>, srcs: map<string, Source>, cached: set<string>): (r: seq<string>)
    requires forall n :: n in order ==> n in srcs
    ensures |r| <= |order|
  {
    if order == [] then []
    else
      var n := order[|order| - 1];
      SyncQueue(ctx, order[..|order| - 1], srcs, cached) +
      (if Queued(ctx, srcs[n], cached) && srcs[n].hasRefresh then [n] else [])
  }

  /** The loop over `info.get('channels', [])`: a note for each channel with an `id`, in order. */
  function ChannelNotes(name: string, channels: seq<Channel>, ctx: Context): (r: seq<ChannelNote>)
    ensures forall k :: 0 <= k < |r| ==> r[k].name == name && r[k].context == ctx
  {
    if channels == [] then []
    else
      var ch := channels[|channels| - 1];
      ChannelNotes(name, channels[..|channels| - 1], ctx) +
      (if ch.id.Some? then [ChannelNote(name, ch.id.value, ctx)] else [])
  }

  /** `refreshes_channels` after the loop has visited `order`. */
  function ChannelQueue(ctx: Context, order: seq<string>, srcs: map<string, Source>, cached: set<string>): (r: seq<ChannelNote>)
    requires forall n :: n in order ==> n in srcs
    ensures forall k :: 0 <= k < |r| ==> r[k].context == ctx
  {
    if order == [] then []
    else
      var n := order[|order| - 1];
      ChannelQueue(ctx, order[..|order| - 1], srcs, cached) +
      (if Queued(ctx, srcs[n], cached) then ChannelNotes(n, srcs[n].channels, ctx) else [])
  }

  /** A source is called directly exactly when it is queued and has a `refresh` handler. */
  lemma {:induction false} SyncQueueMembers(ctx: Context, order: seq<string>, srcs: map<string, Source>, cached: set<string>)
    requires forall n :: n in order ==> n in srcs
    ensures forall n :: n in SyncQueue(ctx, order, srcs, cached) <==> n in order && Queued(ctx, srcs[n], cached) && srcs[n].hasRefresh
  {
    if order != [] {
      var init, n := order[..|order| - 1], order[|order| - 1];
      assert order == init + [n];
      SyncQueueMembers(ctx, init, srcs, cached);
    }
  }

  /** A note is made for exactly the channels that have an `id`. */
  lemma {:induction false} ChannelNotesMembers(name: string, channels: seq<Channel>, ctx: Context)
    ensures forall note :: note in ChannelNotes(name, channels, ctx) <==>
              note.name == name && note.context == ctx && Channel(Some(note.id)) in channels
  {
    if channels != [] {
      var init, ch := channels[..|channels| - 1], channels[|channels| - 1];
      assert channels == init + [ch];
      ChannelNotesMembers(name, init, ctx);
    }
  }

  /** A channel is notified exactly when its source is queued and the channel has an `id`. */
  lemma {:induction false} ChannelQueueMembers(ctx: Context, order: seq<string>, srcs: map<string, Source>, cached: set<string>)
    requires forall n :: n in order ==> n in srcs
    ensures forall note :: note in ChannelQueue(ctx, order, srcs, cached) <==>
              note.name in order && Queued(ctx, srcs[note.name], cached) &&
              Channel(Some(note.id)) in srcs[note.name].channels && note.context == ctx
  {
    if order != [] {
      var init, n := order[..|order| - 1], order[|order| - 1];
      assert order == init + [n];
      ChannelQueueMembers(ctx, init, srcs, cached);
      ChannelNotesMembers(n, srcs[n].channels, ctx);
    }
  }

  lemma QueueStep(ctx: Context, order: seq<string>, i: nat, srcs: map<string, Source>, cached: set<string>)
    requires i < |order|
    requires forall m :: m in order ==> m in srcs
    ensures var n := order[i];
            SyncQueue(ctx, order[..i + 1], srcs, cached) ==
            SyncQueue(ctx, order[..i], srcs, cached) + (if Queued(ctx, srcs[n], cached) && srcs[n].hasRefresh then [n] else [])
    ensures var n := order[i];
            ChannelQueue(ctx, order[..i + 1], srcs, cached) ==
            ChannelQueue(ctx, order[..i], srcs, cached) + (if Queued(ctx, srcs[n], cached) then ChannelNotes(n, srcs[n].channels, ctx) else [])
  {
    assert order[..i + 1][..i] == order[..i];
  }

  lemma ChannelNotesStep(name: string, channels: seq<Channel>, j: nat, ctx: Context)
    requires j < |channels|
    ensures var ch := channels[j];
            ChannelNotes(name, channels[..j + 1], ctx) ==
            ChannelNotes(name, channels[..j], ctx) + (if ch.id.Some? then [ChannelNote(name, ch.id.value, ctx)] else [])
  {
    assert channels[..j + 1][..j] == channels[..j];
  }

  /** `cm_refresh` starts afresh when nothing is typed or the last typed character is not `[0-9a-zA-Z_]`. */
  predicate ResetsStore(typed: string)
    ensures typed != "" && typed[|typed| - 1] == '_' ==> !ResetsStore(typed)
    ensures typed != "" && typed[|typed| - 1] == ' ' ==> ResetsStore(typed)
  {
    typed == "" || !IsWordChar(typed[|typed| - 1])
  }
}
