/**
 * `Handler`: the completion core. It stores each source's reported matches,
 * decides on each refresh which sources to ask again, merges the stored
 * results into one list and hands it to the editor's popup.
 *
 * Calls into the editor (`cm#notify_sources_to_refresh`,
 * `cm#core_complete`) are appended to the ghost log `calls`.
 */
module Coordinator {
  import opened Wrappers
  import opened Text
  import opened OrderedDict
  import opened Editor
  import opened MatchProcessor
  import opened Sources
  import opened Merge
  import opened MergeLoops
  import opened VersionCache

  /** A call the core makes into the editor. */
  datatype EditorCall =
    | NotifySourcesToRefresh(syncNames: seq<string>, channels: seq<ChannelNote>, context: Context)
    | CoreComplete(context: Context, startcol: Col, matches: seq<Candidate>, state: Store)

  /**
   * `_complete`: the popup is updated unless both the new list and the list
   * remembered as last emitted are empty.
   */
  function Emission(ctx: Context, startcol: Col, matches: seq<Candidate>, state: Store, last: seq<Candidate>): (r: seq<EditorCall>)
    ensures r == [] <==> matches == [] && last == []
    ensures |r| <= 1
    ensures r != [] ==> r[0].CoreComplete? && r[0].matches == matches && r[0].startcol == startcol
  {
    if |matches| == 0 && |last| == 0 then [] else [CoreComplete(ctx, startcol, matches, state)]
  }

  /** What `_refresh_completions` does to the store, and the calls it makes. */
  function MergeEffect(store: Store, srcs: Dict<Source>, ctx: Context, last: seq<Candidate>): (r: (Store, seq<EditorCall>))
    requires store.Valid()
    ensures r.0.Valid() && r.0.keys == store.keys
    ensures |r.1| <= 1
    ensures MergeSpec(store, srcs.vals, ctx).None? ==> r == (store, [])
    ensures r.1 != [] ==> r.1[0].CoreComplete? && r.1[0].state == r.0
  {
    match MergeSpec(store, srcs.vals, ctx)
    case None => (store, [])
    case Some(m) => (m.state, Emission(ctx, m.startcol, m.matches, m.state, last))
  }

  /** `ctx['file_url'] = get_file_url(ctx)`. */
  function Stamp(ctx: Context): Context
  {
    ctx.(fileUrl := Some(GetFileUrl(ctx)))
  }

  /** The padding loop of the merge: puts `prefix` in front of every word, one entry at a time. */
  method PadWords(prefix: string, cs: seq<Candidate>) returns (padded: seq<Candidate>)
    ensures padded == Pad(prefix, cs)
  {
    padded := cs;
    var j := 0;
    while j < |padded|
      invariant 0 <= j <= |padded| == |cs|
      invariant forall k :: 0 <= k < j ==> padded[k] == cs[k].(word := prefix + cs[k].word)
      invariant forall k :: j <= k < |cs| ==> padded[k] == cs[k]
    {
      padded := padded[j := padded[j].(word := prefix + padded[j].word)];
      j := j + 1;
    }
  }

  /**
   * One source in the first loop of `_refresh_completions`: its processed
   * matches are stored (none when its start column is past the cursor), and
   * a nonempty result from further left lowers the start column.
   */
  method ProcessSource(ctx: Context, abbr: string, name: string, startcol: Col, s: map<string, Entry>)
    returns (r: map<string, Entry>, g: Col)
    requires name in s
    ensures r == s[name := s[name].(lastMatches := Processed(ctx, s[name], abbr))]
    ensures g == if Contributes(ctx, s[name], abbr) && s[name].startcol < startcol then s[name].startcol else startcol
  {
    var e := s[name];
    g := startcol;
    if e.startcol > ctx.col {
      r := s[name := e.(lastMatches := [])];
      return;
    }
    var processed := ProcessMatches(ctx.typed, e.startcol, abbr, e.matches);
    r := s[name := e.(lastMatches := processed)];
    if processed != [] && e.startcol < startcol {
      g := e.startcol;
    }
  }

  /**
   * The first loop of `_refresh_completions` over the entries `s0`: each
   * source in `names` gets its processed matches, and the start column is
   * lowered to that of every source with a nonempty result.
   */
  method ProcessEntries(ctx: Context, names: seq<string>, s0: map<string, Entry>, srcs: map<string, Source>)
    returns (s: map<string, Entry>, startcol: Col)
    requires forall n :: n in names ==> n in s0 && n in srcs
    ensures s == ProcessedEntries(ctx, names, s0, srcs)
    ensures startcol == MergeStart(ctx, names, s0, srcs)
  {
    s := s0;
    startcol := ctx.col;
    var i := 0;
    while i < |names|
      invariant 0 <= i <= |names|
      invariant s == ProcessedEntries(ctx, names[..i], s0, srcs)
      invariant startcol == MergeStart(ctx, names[..i], s0, srcs)
    {
      var name := names[i];
      ProcessedStep(ctx, names, i, s0, srcs);
      MergeStartStep(ctx, names, i, s0, srcs);
      SameReportsEntry(ctx, startcol, s[name], s0[name], srcs[name].abbreviation);
      s, startcol := ProcessSource(ctx, srcs[name].abbreviation, name, startcol, s);
      i := i + 1;
    }
    assert names[..i] == names;
  }

  /**
   * One source in the second loop of `_refresh_completions`: skipped when
   * its start column is past the cursor, otherwise its words are padded
   * and become its part of the merged list.
   */
  method PadSource(ctx: Context, name: string, startcol: Col, s: map<string, Entry>)
    returns (r: map<string, Entry>, part: seq<Candidate>)
    requires name in s
    ensures r == if s[name].startcol > ctx.col then s else s[name := PadEntry(ctx, startcol, s[name])]
    ensures part == if s[name].startcol > ctx.col then [] else PadEntry(ctx, startcol, s[name]).lastMatches
  {
    var e := s[name];
    if e.startcol > ctx.col {
      return s, [];
    }
    part := PadWords(Slice(ctx.typed, startcol - 1, e.startcol - 1), e.lastMatches);
    r := s[name := e.(lastMatches := part)];
  }

  /**
   * The second loop of `_refresh_completions`: the processed matches of
   * each source in `names` get the typed text between `startcol` and the
   * source's own start column in front of every word, and are appended to
   * the merged list.
   */
  method PadEntries(ctx: Context, names: seq<string>, startcol: Col, s: map<string, Entry>)
    returns (r: map<string, Entry>, merged: seq<Candidate>)
    requires forall n :: n in names ==> n in s
    ensures r == PaddedEntries(ctx, startcol, names, s)
    ensures merged == PaddedList(ctx, startcol, names, s)
  {
    r := s;
    merged := [];
    var i := 0;
    while i < |names|
      invariant 0 <= i <= |names|
      invariant r == PaddedEntries(ctx, startcol, names[..i], s)
      invariant merged == PaddedList(ctx, startcol, names[..i], s)
    {
      var name := names[i];
      PaddedStep(ctx, startcol, names, i, s);
      var part;
      r, part := PadSource(ctx, name, startcol, r);
      merged := merged + part;
      i := i + 1;
    }
    assert names[..i] == names;
  }

  /**
   * One source in the loop of `cm_refresh`: when it is queued, its name if
   * it has a `refresh` handler, and a note for each of its channels with an
   * `id`, in order.
   */
  method QueueSource(ctx: Context, name: string, info: Source, cached: set<string>)
    returns (sync: seq<string>, found: seq<ChannelNote>)
    ensures sync == if Queued(ctx, info, cached) && info.hasRefresh then [name] else []
    ensures found == if Queued(ctx, info, cached) then ChannelNotes(name, info.channels, ctx) else []
  {
    sync, found := [], [];
    // a raising scope check or a missing `name` skips the source like a
    // scope that does not match; a source with stored matches and no
    // `refresh` needs no refresh
    var inScope := CheckScope(ctx, info);
    if !(inScope == Some(true) && info.name.Some? && (info.name.value !in cached || info.refresh != 0)) {
      return;
    }
    if info.hasRefresh {
      sync := [name];
    }
    var j := 0;
    while j < |info.channels|
      invariant 0 <= j <= |info.channels|
      invariant found == ChannelNotes(name, info.channels[..j], ctx)
    {
      var channel := info.channels[j];
      ChannelNotesStep(name, info.channels, j, ctx);
      if channel.id.Some? {
        found := found + [ChannelNote(name, channel.id.value, ctx)];
      }
      j := j + 1;
    }
    assert info.channels[..j] == info.channels;
  }

  /**
   * The loop of `cm_refresh` over `srcs`, with `cached` the sources that
   * have stored matches: which sources to call directly, which channels to
   * notify.
   */
  method SourcesToRefresh(srcs: Dict<Source>, ctx: Context, cached: set<string>)
    returns (syncNames: seq<string>, notes: seq<ChannelNote>)
    requires srcs.Valid()
    ensures syncNames == SyncQueue(ctx, srcs.keys, srcs.vals, cached)
    ensures notes == ChannelQueue(ctx, srcs.keys, srcs.vals, cached)
  {
    syncNames, notes := [], [];
    var i := 0;
    while i < |srcs.keys|
      invariant 0 <= i <= |srcs.keys|
      invariant syncNames == SyncQueue(ctx, srcs.keys[..i], srcs.vals, cached)
      invariant notes == ChannelQueue(ctx, srcs.keys[..i], srcs.vals, cached)
    {
      var name := srcs.keys[i];
      QueueStep(ctx, srcs.keys, i, srcs.vals, cached);
      var sync, found := QueueSource(ctx, name, srcs.vals[name], cached);
      syncNames, notes := syncNames + sync, notes + found;
      i := i + 1;
    }
    assert srcs.keys[..i] == srcs.keys;
  }

  /**
   * `cm_complete` goes on to merge: the report was processed without
   * raising, it is not an early return, and the popup was already shown
   * in this cycle.
   */
  predicate CompleteMerges(srcs: map<string, Source>, name: string, typed: string, startcol: Col, items: seq<Item>,
                           store: Store, poppedUp: bool)
  {
    var result := ProcessFor(srcs, name, typed, startcol, items);
    result.Some? && !SkipsMerge(result.value, store, name) && poppedUp
  }

  /** The stored reports `cm_refresh` keeps: none after a non-word character. */
  function KeptReports(store: Store, typed: string): (r: Store)
    ensures ResetsStore(typed) ==> r == Empty()
    ensures !ResetsStore(typed) ==> r == store
  {
    if ResetsStore(typed) then Empty() else store
  }

  /** No source is queued for a refresh, so `cm_refresh` merges at once. */
  predicate NothingQueued(ctx: Context, srcs: Dict<Source>, cached: set<string>)
    requires srcs.Valid()
  {
    SyncQueue(ctx, srcs.keys, srcs.vals, cached) == [] && ChannelQueue(ctx, srcs.keys, srcs.vals, cached) == []
  }

  class Handler {
    /** `_matches`: per source, its start column, raw matches and last processed matches. */
    var store: Store
    /** `_sources`: the descriptors of the last `cm_complete` or `cm_refresh`. */
    var sources: Dict<Source>
    /** `_has_popped_up`: a merge was emitted in this refresh cycle. */
    var hasPoppedUp: bool
    /** `_last_matches`: set once to the empty list and never assigned again. */
    const lastMatches: seq<Candidate> := []
    /** `_file_server` */
    const fileServer: FileServer
    /** The calls made into the editor, oldest first. */
    ghost var calls: seq<EditorCall>

    ghost predicate Valid()
      reads this
    {
      store.Valid() && sources.Valid()
    }

    constructor ()
      ensures Valid()
      ensures store == Empty() && sources == Empty() && !hasPoppedUp && calls == []
      ensures fresh(fileServer)
      ensures fileServer.currentContext == None && fileServer.cacheContext == None && fileServer.cacheSrc == ""
    {
      store := Empty();
      sources := Empty();
      hasPoppedUp := false;
      fileServer := new FileServer();
      calls := [];
    }

    /** `_complete` */
    method Complete(ctx: Context, startcol: Col, matches: seq<Candidate>)
      modifies this`calls
      ensures calls == old(calls) + Emission(ctx, startcol, matches, store, lastMatches)
    {
      if |matches| == 0 && |lastMatches| == 0 {
        return;
      }
      calls := calls + [CoreComplete(ctx, startcol, matches, store)];
    }

    /**
     * `_refresh_completions`: `raised` when the priority sort raises because
     * a stored source has no descriptor; then nothing changes.
     */
    method RefreshCompletions(ctx: Context) returns (raised: bool)
      requires Valid()
      modifies this`store, this`calls
      ensures Valid()
      ensures raised <==> MergeSpec(old(store), sources.vals, ctx).None?
      ensures store == MergeEffect(old(store), sources, ctx, lastMatches).0
      ensures calls == old(calls) + MergeEffect(old(store), sources, ctx, lastMatches).1
    {
      var order := MergeOrder(store, sources.vals);
      if order.None? {
        return true;
      }
      var names := order.value;
      LoopsMeetMerge(store, sources.vals, ctx);
      if |names| == 0 {
        Complete(ctx, ctx.col, []);
        return false;
      }
      var processed, startcol := ProcessEntries(ctx, names, store.vals, sources.vals);
      var padded, merged := PadEntries(ctx, names, startcol, processed);
      store := store.(vals := padded);
      Complete(ctx, startcol, merged);
      return false;
    }

    /**
     * `cm_complete`: store the source's report first (even when returning
     * early), then merge only when the report was processed, is not an
     * early return, and the popup was already shown in this cycle.
     */
    method CmComplete(srcs: Dict<Source>, name: string, ctx: Context, startcol: Col, items: seq<Item>)
      requires Valid() && srcs.Valid()
      modifies this`store, this`sources, this`calls
      ensures Valid()
      ensures sources == srcs
      ensures !CompleteMerges(srcs.vals, name, ctx.typed, startcol, items, old(store), old(hasPoppedUp)) ==>
                store == Stored(old(store), name, startcol, items) && calls == old(calls)
      ensures CompleteMerges(srcs.vals, name, ctx.typed, startcol, items, old(store), old(hasPoppedUp)) ==>
                var stored := Stored(old(store), name, startcol, items);
                store == MergeEffect(stored, srcs, ctx, lastMatches).0 &&
                calls == old(calls) + MergeEffect(stored, srcs, ctx, lastMatches).1
    {
      sources := srcs;
      var result := ProcessFor(srcs.vals, name, ctx.typed, startcol, items);
      var early := result.Some? && SkipsMerge(result.value, store, name);
      store := Stored(store, name, startcol, items);
      if result.None? || early {
        return;
      }
      if hasPoppedUp {
        var _ := RefreshCompletions(ctx);
      }
    }

    /** `cm_insert_enter`: forget every stored report. */
    method CmInsertEnter()
      requires Valid()
      modifies this`store
      ensures Valid() && store == Empty()
    {
      store := Empty();
    }

    /** `cm_complete_timeout`: merge once in a cycle, when no merge was emitted yet. */
    method CmCompleteTimeout(ctx: Context)
      requires Valid()
      modifies this`store, this`calls, this`hasPoppedUp
      ensures Valid()
      ensures old(hasPoppedUp) ==> store == old(store) && calls == old(calls) && hasPoppedUp
      ensures !old(hasPoppedUp) ==>
                store == MergeEffect(old(store), sources, ctx, lastMatches).0 &&
                calls == old(calls) + MergeEffect(old(store), sources, ctx, lastMatches).1 &&
                hasPoppedUp == MergeSpec(old(store), sources.vals, ctx).Some?
    {
      if !hasPoppedUp {
        var raised := RefreshCompletions(ctx);
        if !raised {
          hasPoppedUp := true;
        }
      }
    }

    /**
     * `cm_refresh`: report the context to the file server, stamp it with the
     * file reference, start a new cycle, forget the stored reports after a
     * non-word character, and either ask the queued sources for matches or,
     * when none is queued, merge at once.
     */
    method CmRefresh(srcs: Dict<Source>, ctx0: Context)
      requires Valid() && srcs.Valid()
      modifies this`store, this`sources, this`calls, this`hasPoppedUp, fileServer`currentContext
      ensures Valid()
      ensures fileServer.currentContext == Some(VersionOf(ctx0))
      ensures sources == srcs
      ensures var ctx, kept := Stamp(ctx0), KeptReports(old(store), ctx0.typed);
              NothingQueued(ctx, srcs, kept.vals.Keys) ==>
                && store == MergeEffect(kept, srcs, ctx, lastMatches).0
                && calls == old(calls) + MergeEffect(kept, srcs, ctx, lastMatches).1
                && hasPoppedUp == MergeSpec(kept, srcs.vals, ctx).Some?
      ensures var ctx, kept := Stamp(ctx0), KeptReports(old(store), ctx0.typed);
              !NothingQueued(ctx, srcs, kept.vals.Keys) ==>
                && store == kept
                && calls == old(calls) + [NotifySourcesToRefresh(SyncQueue(ctx, srcs.keys, srcs.vals, kept.vals.Keys),
                                                                 ChannelQueue(ctx, srcs.keys, srcs.vals, kept.vals.Keys), ctx)]
                && !hasPoppedUp
    {
      var ctx := StartCycle(srcs, ctx0);
      RefreshOrNotify(ctx);
    }

    /**
     * The start of `cm_refresh`: report the context to the file server,
     * stamp it, take the descriptors, start a new cycle and forget the
     * stored reports after a non-word character.
     */
    method StartCycle(srcs: Dict<Source>, ctx0: Context) returns (ctx: Context)
      requires Valid() && srcs.Valid()
      modifies this`store, this`sources, this`hasPoppedUp, fileServer`currentContext
      ensures Valid()
      ensures ctx == Stamp(ctx0)
      ensures fileServer.currentContext == Some(VersionOf(ctx0))
      ensures sources == srcs && !hasPoppedUp
      ensures store == KeptReports(old(store), ctx0.typed)
    {
      fileServer.SetCurrentContext(ctx0);
      ctx := ctx0.(fileUrl := Some(GetFileUrl(ctx0)));
      sources := srcs;
      hasPoppedUp := false;

      if ctx.typed == "" {
        store := Empty();
      } else if !IsWordChar(ctx.typed[|ctx.typed| - 1]) {
        store := Empty();
      }
    }

    /**
     * The end of `cm_refresh`: ask the queued sources for matches or, when
     * none is queued, merge at once.
     */
    method RefreshOrNotify(ctx: Context)
      requires Valid()
      modifies this`store, this`calls, this`hasPoppedUp
      ensures Valid()
      ensures NothingQueued(ctx, sources, old(store).vals.Keys) ==>
                && store == MergeEffect(old(store), sources, ctx, lastMatches).0
                && calls == old(calls) + MergeEffect(old(store), sources, ctx, lastMatches).1
                && hasPoppedUp == (old(hasPoppedUp) || MergeSpec(old(store), sources.vals, ctx).Some?)
      ensures !NothingQueued(ctx, sources, old(store).vals.Keys) ==>
                && store == old(store) && hasPoppedUp == old(hasPoppedUp)
                && calls == old(calls) + [NotifySourcesToRefresh(SyncQueue(ctx, sources.keys, sources.vals, old(store).vals.Keys),
                                                                 ChannelQueue(ctx, sources.keys, sources.vals, old(store).vals.Keys), ctx)]
    {
      var syncNames, notes := SourcesToRefresh(sources, ctx, store.vals.Keys);
      if syncNames == [] && notes == [] {
        var raised := RefreshCompletions(ctx);
        if !raised {
          hasPoppedUp := true;
        }
      } else {
        calls := calls + [NotifySourcesToRefresh(syncNames, notes, ctx)];
      }
    }
  }
}
