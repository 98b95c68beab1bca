/**
 * The two loops of `_refresh_completions` as they update the stored
 * entries one source at a time, and the proof that, run over the merge
 * order, they produce the merge that `Merge.MergeSpec` describes.
 */
module MergeLoops {
  import opened Wrappers
  import opened Text
  import opened OrderedDict
  import opened Editor
  import opened MatchProcessor
  import opened Sources
  import opened Merge

  /** The first loop after visiting `names`: each visited entry holds its processed matches. */
  function ProcessedEntries(ctx: Context, names: seq<string>, store: map<string, Entry>, srcs: map<string, Source>): (r: map<string, Entry>)
    requires forall n :: n in names ==> n in store && n in srcs
    ensures SameReports(r, store)
  {
    if names == [] then store
    else
      var r := ProcessedEntries(ctx, names[..|names| - 1], store, srcs);
      var n := names[|names| - 1];
      r[n := r[n].(lastMatches := Processed(ctx, r[n], srcs[n].abbreviation))]
  }

  /**
   * An entry the second loop does not skip: the typed text between `g` and
   * the entry's start column goes in front of every word.
   */
  function PadEntry(ctx: Context, g: Col, e: Entry): Entry
  {
    e.(lastMatches := Pad(Slice(ctx.typed, g - 1, e.startcol - 1), e.lastMatches))
  }

  /** The second loop after visiting `names`: an entry whose start column is past the cursor is skipped. */
  function PaddedEntries(ctx: Context, g: Col, names: seq<string>, store: map<string, Entry>): (r: map<string, Entry>)
    requires forall n :: n in names ==> n in store
    ensures r.Keys == store.Keys
  {
    if names == [] then store
    else
      var r := PaddedEntries(ctx, g, names[..|names| - 1], store);
      var n := names[|names| - 1];
      if r[n].startcol > ctx.col then r else r[n := PadEntry(ctx, g, r[n])]
  }

  /** The merged list after the second loop has visited `names`. */
  function PaddedList(ctx: Context, g: Col, names: seq<string>, store: map<string, Entry>): seq<Candidate>
    requires forall n :: n in names ==> n in store
  {
    if names == [] then []
    else
      var r := PaddedEntries(ctx, g, names[..|names| - 1], store);
      var n := names[|names| - 1];
      PaddedList(ctx, g, names[..|names| - 1], store) +
      (if r[n].startcol > ctx.col then [] else PadEntry(ctx, g, r[n]).lastMatches)
  }

  lemma ProcessedStep(ctx: Context, names: seq<string>, i: nat, store: map<string, Entry>, srcs: map<string, Source>)
    requires i < |names|
    requires forall n :: n in names ==> n in store && n in srcs
    ensures var r := ProcessedEntries(ctx, names[..i], store, srcs);
            var n := names[i];
            ProcessedEntries(ctx, names[..i + 1], store, srcs) ==
            r[n := r[n].(lastMatches := Processed(ctx, r[n], srcs[n].abbreviation))]
  {
    assert names[..i + 1][..i] == names[..i];
  }

  lemma PaddedStep(ctx: Context, g: Col, names: seq<string>, i: nat, store: map<string, Entry>)
    requires i < |names|
    requires forall n :: n in names ==> n in store
    ensures var r := PaddedEntries(ctx, g, names[..i], store);
            var n := names[i];
            && PaddedEntries(ctx, g, names[..i + 1], store) == (if r[n].startcol > ctx.col then r else r[n := PadEntry(ctx, g, r[n])])
            && PaddedList(ctx, g, names[..i + 1], store) ==
               PaddedList(ctx, g, names[..i], store) + (if r[n].startcol > ctx.col then [] else PadEntry(ctx, g, r[n]).lastMatches)
  {
    assert names[..i + 1][..i] == names[..i];
  }

  /** Padding a processed entry gives its part of the merge. */
  lemma PadProcessed(ctx: Context, g: Col, e0: Entry, abbr: string)
    ensures var e := e0.(lastMatches := Processed(ctx, e0, abbr));
            && (if e.startcol > ctx.col then e else PadEntry(ctx, g, e)) == e0.(lastMatches := Contribution(ctx, g, e0, abbr))
            && (if e.startcol > ctx.col then [] else PadEntry(ctx, g, e).lastMatches) == Contribution(ctx, g, e0, abbr)
  {
  }

  /** After the first loop, a visited entry holds its processed matches and the others are as they were. */
  lemma {:induction false} ProcessedAt(ctx: Context, names: seq<string>, store: map<string, Entry>, srcs: map<string, Source>, x: string)
    requires forall n :: n in names ==> n in store && n in srcs
    requires x in store
    ensures var r := ProcessedEntries(ctx, names, store, srcs);
            x in names ==> r[x] == store[x].(lastMatches := Processed(ctx, store[x], srcs[x].abbreviation))
    ensures x !in names ==> ProcessedEntries(ctx, names, store, srcs)[x] == store[x]
  {
    if names != [] {
      var init, n := names[..|names| - 1], names[|names| - 1];
      assert names == init + [n];
      ProcessedAt(ctx, init, store, srcs, x);
      var r := ProcessedEntries(ctx, init, store, srcs);
      if x == n {
        SameReportsEntry(ctx, ctx.col, r[n], store[n], srcs[n].abbreviation);
      }
    }
  }

  /** After the second loop over distinct names, a visited entry not skipped is padded once and the others are as they were. */
  lemma {:induction false} PaddedAt(ctx: Context, g: Col, names: seq<string>, store: map<string, Entry>, x: string)
    requires Distinct(names)
    requires forall n :: n in names ==> n in store
    requires x in store
    ensures PaddedEntries(ctx, g, names, store)[x] ==
            if x in names && store[x].startcol <= ctx.col then PadEntry(ctx, g, store[x]) else store[x]
  {
    if names != [] {
      var init, n := names[..|names| - 1], names[|names| - 1];
      assert names == init + [n];
      DistinctAt(names, |names| - 1);
      DistinctPrefix(names, |names| - 1);
      PaddedAt(ctx, g, init, store, x);
      PaddedAt(ctx, g, init, store, n);
    }
  }

  /** Over distinct names and processed entries, the merged list of the second loop is the merge's list. */
  lemma {:induction false} PaddedListIsMerged(ctx: Context, g: Col, names: seq<string>, s0: map<string, Entry>, srcs: map<string, Source>)
    requires Distinct(names)
    requires forall n :: n in names ==> n in s0 && n in srcs
    ensures var s := ProcessedEntries(ctx, names, s0, srcs);
            PaddedList(ctx, g, names, s) == MergedList(ctx, g, names, s0, srcs)
  {
    var s := ProcessedEntries(ctx, names, s0, srcs);
    PaddedListOver(ctx, g, names, names, s, s0, srcs);
  }

  lemma {:induction false} PaddedListOver(ctx: Context, g: Col, visited: seq<string>, names: seq<string>, s: map<string, Entry>,
                                          s0: map<string, Entry>, srcs: map<string, Source>)
    requires Distinct(visited)
    requires forall n :: n in visited ==> n in s0 && n in srcs
    requires forall n :: n in names ==> n in s0 && n in srcs
    requires forall n :: n in visited ==> n in names
    requires s == ProcessedEntries(ctx, names, s0, srcs)
    ensures PaddedList(ctx, g, visited, s) == MergedList(ctx, g, visited, s0, srcs)
  {
    if visited != [] {
      var init, n := visited[..|visited| - 1], visited[|visited| - 1];
      assert visited == init + [n];
      DistinctAt(visited, |visited| - 1);
      DistinctPrefix(visited, |visited| - 1);
      PaddedListOver(ctx, g, init, names, s, s0, srcs);
      PaddedAt(ctx, g, init, s, n);
      ProcessedAt(ctx, names, s0, srcs, n);
      PadProcessed(ctx, g, s0[n], srcs[n].abbreviation);
    }
  }

  /**
   * The two loops run over the merge order `names` of the entries `s0`
   * leave the entries the merge describes.
   */
  lemma LoopsMeetSpec(ctx: Context, g: Col, names: seq<string>, s0: map<string, Entry>, srcs: map<string, Source>)
    requires Distinct(names)
    requires forall n :: n in names <==> n in s0
    requires forall n :: n in s0 ==> n in srcs
    ensures var s := ProcessedEntries(ctx, names, s0, srcs);
            && PaddedEntries(ctx, g, names, s) == MergedEntries(ctx, g, s0, srcs)
            && PaddedList(ctx, g, names, s) == MergedList(ctx, g, names, s0, srcs)
  {
    var s := ProcessedEntries(ctx, names, s0, srcs);
    var r := PaddedEntries(ctx, g, names, s);
    forall x | x in s0
      ensures r[x] == MergedEntries(ctx, g, s0, srcs)[x]
    {
      ProcessedAt(ctx, names, s0, srcs, x);
      PaddedAt(ctx, g, names, s, x);
      PadProcessed(ctx, g, s0[x], srcs[x].abbreviation);
    }
    PaddedListIsMerged(ctx, g, names, s0, srcs);
  }

  /**
   * `_refresh_completions` on a store whose sort does not raise: its two
   * loops, run over the merge order from the typed column, give the
   * outcome of the merge.
   */
  lemma LoopsMeetMerge(store: Store, srcs: map<string, Source>, ctx: Context)
    requires store.Valid() && MergeOrder(store, srcs).Some?
    ensures var names := MergeOrder(store, srcs).value;
            var g := MergeStart(ctx, names, store.vals, srcs);
            var s := ProcessedEntries(ctx, names, store.vals, srcs);
            MergeSpec(store, srcs, ctx) == Some(Outcome(Dict(store.keys, PaddedEntries(ctx, g, names, s)), g, PaddedList(ctx, g, names, s)))
  {
    var names := MergeOrder(store, srcs).value;
    MergeOrderSpec(store, srcs);
    LoopsMeetSpec(ctx, MergeStart(ctx, names, store.vals, srcs), names, store.vals, srcs);
  }
}
