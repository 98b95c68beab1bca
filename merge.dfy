/**
 * The stored per-source state and what `_refresh_completions` computes from
 * it: the order of the sources, the common start column, the merged list
 * with every word padded to start there, and the state written back. Also
 * the store update of `cm_complete`.
 */
module Merge {
  import opened Wrappers
  import opened Text
  import opened OrderedDict
  import opened Sorting
  import opened Editor
  import opened MatchProcessor
  import opened Sources

  /**
   * `_matches[name]`: the start column and raw matches the source reported,
   * and the matches the last merge produced for it (`[]` before any merge,
   * which behaves as the missing key does).
   */
  datatype Entry = Entry(startcol: Col, matches: seq<Item>, lastMatches: seq<Candidate>)

  type Store = Dict<Entry>

  /** The result of one merge: the store written back, the start column and the list emitted. */
  datatype Outcome = Outcome(state: Store, startcol: Col, matches: seq<Candidate>)

  // ----- cm_complete ------------------------------------------------------

  function LastMatchesOf(store: Store, name: string): seq<Candidate>
  {
    if name in store.vals then store.vals[name].lastMatches else []
  }

  /**
   * The `finally` block of `cm_complete`: an empty report removes the
   * source's entry; otherwise the entry gets the new start column and raw
   * matches and keeps its last processed matches. Other entries stay as
   * they were; a new source goes to the end of the key order.
   */
  function Stored(store: Store, name: string, startcol: Col, items: seq<Item>): (r: Store)
    requires store.Valid()
    ensures r.Valid()
    ensures |items| == 0 ==> name !in r.vals
    ensures |items| > 0 ==> name in r.vals && r.vals[name] == Entry(startcol, items, LastMatchesOf(store, name))
    ensures forall n :: n != name ==> (n in r.vals <==> n in store.vals)
    ensures forall n :: n != name && n in store.vals ==> r.vals[n] == store.vals[n]
    ensures |items| > 0 && name in store.vals ==> r.keys == store.keys
    ensures |items| > 0 && name !in store.vals ==> r.keys == store.keys + [name]
  {
    if |items| == 0 then Delete(store, name)
    else Put(store, name, Entry(startcol, items, LastMatchesOf(store, name)))
  }

  /** Some item has no `menu`, so processing it looks the source up in `srcs`. */
  predicate NeedsSourceLookup(items: seq<Item>)
  {
    exists i :: 0 <= i < |items| && Normalize(items[i]).menu.None?
  }

  /**
   * `process_matches` as `cm_complete` calls it: `None` when the lookup of
   * the source's descriptor raises, which happens only for an item without
   * a `menu` from a source missing from `srcs`.
   */
  function ProcessFor(srcs: map<string, Source>, name: string, typed: string, startcol: Col, items: seq<Item>): (r: Option<seq<Candidate>>)
    ensures r.None? <==> name !in srcs && NeedsSourceLookup(items)
    ensures name in srcs ==> r == Some(ProcessMatches(typed, startcol, srcs[name].abbreviation, items))
    ensures name !in srcs && !NeedsSourceLookup(items) ==> r == Some(ProcessMatches(typed, startcol, "", items))
  {
    if name in srcs then Some(ProcessMatches(typed, startcol, srcs[name].abbreviation, items))
    else if NeedsSourceLookup(items) then None
    else Some(ProcessMatches(typed, startcol, "", items))
  }

  /** The early return of `cm_complete`: nothing to show now, and nothing shown for this source before. */
  predicate SkipsMerge(result: seq<Candidate>, store: Store, name: string)
  {
    result == [] && LastMatchesOf(store, name) == []
  }

  // ----- _refresh_completions ---------------------------------------------

  /** A source's processed matches in a merge: none when its start column is past the cursor. */
  function Processed(ctx: Context, e: Entry, abbr: string): (r: seq<Candidate>)
    ensures |r| <= |e.matches|
    ensures e.startcol > ctx.col ==> r == []
  {
    if e.startcol > ctx.col then [] else ProcessMatches(ctx.typed, e.startcol, abbr, e.matches)
  }

  /** The source has processed matches, and so takes part in the merge. */
  predicate Contributes(ctx: Context, e: Entry, abbr: string)
  {
    Processed(ctx, e, abbr) != []
  }

  lemma ContributorIsValid(ctx: Context, e: Entry, abbr: string)
    requires Contributes(ctx, e, abbr)
    ensures e.startcol <= ctx.col
  {
  }

  /** The sort key of `sorted(..., key=priority, reverse=True)` as an ascending key. */
  function PriorityKey(srcs: map<string, Source>): string -> int
  {
    n => if n in srcs then -srcs[n].priority else 0
  }

  /**
   * The source names in merge order: the stored keys stably sorted by
   * descending priority. `None` when a stored source has no descriptor,
   * where the sort raises.
   */
  function MergeOrder(store: Store, srcs: map<string, Source>): (r: Option<seq<string>>)
    requires store.Valid()
    ensures r.Some? <==> forall n :: n in store.vals ==> n in srcs
    ensures r.Some? ==> forall n :: n in r.value ==> n in store.vals
  {
    if forall n :: n in store.keys ==> n in srcs then
      var names := SortBy(store.keys, PriorityKey(srcs));
      SortByPermutes(store.keys, PriorityKey(srcs));
      assert forall n :: n in names ==> n in store.vals by {
        forall n | n in names
          ensures n in store.vals
        {
          assert n in multiset(names);
        }
      }
      Some(names)
    else None
  }

  /**
   * The merge order lists every stored source once, by non-increasing
   * priority, and keeps the stored order among sources of equal priority.
   */
  lemma MergeOrderSpec(store: Store, srcs: map<string, Source>)
    requires store.Valid() && MergeOrder(store, srcs).Some?
    ensures var names := MergeOrder(store, srcs).value;
            && multiset(names) == multiset(store.keys) && Distinct(names)
            && (forall n :: n in names <==> n in store.vals)
            && (forall i, j :: 0 <= i < j < |names| ==> srcs[names[i]].priority >= srcs[names[j]].priority)
            && (forall p :: WithKey(names, PriorityKey(srcs), p) == WithKey(store.keys, PriorityKey(srcs), p))
  {
    var keys := store.keys;
    var key := PriorityKey(srcs);
    var names := SortBy(keys, key);
    SortByPermutes(keys, key);
    forall n
      ensures n in names <==> n in keys
    {
      assert n in names <==> n in multiset(names);
    }
    SortByIsSorted(keys, key);
    forall i, j | 0 <= i < j < |names|
      ensures srcs[names[i]].priority >= srcs[names[j]].priority
    {
      assert names[i] in names && names[j] in names;
      assert key(names[i]) <= key(names[j]);
    }
    forall p
      ensures WithKey(names, key, p) == WithKey(keys, key, p)
    {
      SortByIsStable(keys, key, p);
    }
  }

  /**
   * The running minimum of the first loop: the cursor column, lowered to
   * the start column of every source with processed matches.
   */
  function MergeStart(ctx: Context, names: seq<string>, store: map<string, Entry>, srcs: map<string, Source>): (r: Col)
    requires forall n :: n in names ==> n in store && n in srcs
    ensures r <= ctx.col
  {
    if names == [] then ctx.col
    else
      var g := MergeStart(ctx, names[..|names| - 1], store, srcs);
      var n := names[|names| - 1];
      if Contributes(ctx, store[n], srcs[n].abbreviation) && store[n].startcol < g then store[n].startcol else g
  }

  /**
   * Start column law: the merge starts at the cursor or at the start column
   * of a source with processed matches, and no such source starts earlier.
   */
  lemma {:induction false} MergeStartLaw(ctx: Context, names: seq<string>, store: map<string, Entry>, srcs: map<string, Source>)
    requires forall n :: n in names ==> n in store && n in srcs
    ensures var g := MergeStart(ctx, names, store, srcs);
            && g <= ctx.col
            && (forall n :: n in names && Contributes(ctx, store[n], srcs[n].abbreviation) ==> g <= store[n].startcol)
            && (g == ctx.col ||
                exists n :: n in names && Contributes(ctx, store[n], srcs[n].abbreviation) && g == store[n].startcol)
  {
    if names != [] {
      var init, n := names[..|names| - 1], names[|names| - 1];
      assert names == init + [n];
      MergeStartLaw(ctx, init, store, srcs);
    }
  }

  /** Every word gets `prefix` in front; nothing else changes. */
  function Pad(prefix: string, cs: seq<Candidate>): (r: seq<Candidate>)
    ensures |r| == |cs|
    ensures forall i :: 0 <= i < |cs| ==> r[i] == cs[i].(word := prefix + cs[i].word)
  {
    if cs == [] then [] else [cs[0].(word := prefix + cs[0].word)] + Pad(prefix, cs[1..])
  }

  /**
   * A source's part of the merged list: its processed matches, each word
   * padded with the typed text between the common start column `g` and the
   * source's own, `typed[g-1 : startcol-1]`.
   */
  function Contribution(ctx: Context, g: Col, e: Entry, abbr: string): (r: seq<Candidate>)
    ensures |r| == |Processed(ctx, e, abbr)|
    ensures forall i :: 0 <= i < |r| ==> r[i].menu == Processed(ctx, e, abbr)[i].menu
  {
    if e.startcol > ctx.col then [] else Pad(Slice(ctx.typed, g - 1, e.startcol - 1), Processed(ctx, e, abbr))
  }

  /** The second loop: the contributions concatenated in merge order. */
  function MergedList(ctx: Context, g: Col, names: seq<string>, store: map<string, Entry>, srcs: map<string, Source>): (r: seq<Candidate>)
    requires forall n :: n in names ==> n in store && n in srcs
    ensures (forall n :: n in names ==> !Contributes(ctx, store[n], srcs[n].abbreviation)) ==> r == []
  {
    if names == [] then []
    else
      var n := names[|names| - 1];
      MergedList(ctx, g, names[..|names| - 1], store, srcs) + Contribution(ctx, g, store[n], srcs[n].abbreviation)
  }

  lemma MergeStartStep(ctx: Context, names: seq<string>, i: nat, store: map<string, Entry>, srcs: map<string, Source>)
    requires i < |names|
    requires forall m :: m in names ==> m in store && m in srcs
    ensures var g := MergeStart(ctx, names[..i], store, srcs);
            var n := names[i];
            MergeStart(ctx, names[..i + 1], store, srcs) ==
            if Contributes(ctx, store[n], srcs[n].abbreviation) && store[n].startcol < g then store[n].startcol else g
  {
    assert names[..i + 1][..i] == names[..i];
  }

  /** The entries after the merge: each keeps its start column and raw matches and holds its padded part. */
  function MergedEntries(ctx: Context, g: Col, store: map<string, Entry>, srcs: map<string, Source>): (r: map<string, Entry>)
    requires forall n :: n in store ==> n in srcs
    ensures r.Keys == store.Keys
  {
    map n | n in store :: store[n].(lastMatches := Contribution(ctx, g, store[n], srcs[n].abbreviation))
  }

  /** `_refresh_completions` on `store` with descriptors `srcs`: `None` when its sort raises. */
  function MergeSpec(store: Store, srcs: map<string, Source>, ctx: Context): (r: Option<Outcome>)
    requires store.Valid()
    ensures r.None? <==> MergeOrder(store, srcs).None?
    ensures r.Some? ==> r.value.state.Valid() && r.value.state.keys == store.keys
  {
    var order := MergeOrder(store, srcs);
    if order.None? then None
    else
      var names := order.value;
      var g := MergeStart(ctx, names, store.vals, srcs);
      Some(Outcome(Dict(store.keys, MergedEntries(ctx, g, store.vals, srcs)), g,
                   MergedList(ctx, g, names, store.vals, srcs)))
  }

  // ----- laws of the merge ------------------------------------------------

  /**
   * Padding a word that matches the base at column `s` with the typed text
   * from column `g` on gives a word that matches the base at `g`.
   */
  lemma PaddedPrefix(typed: string, g: Col, s: Col, w: string)
    requires g <= s
    requires PrefixMatches(Base(typed, s), w)
    ensures PrefixMatches(Base(typed, g), Slice(typed, g - 1, s - 1) + w)
  {
    var base, pad, gbase := Base(typed, s), Slice(typed, g - 1, s - 1), Base(typed, g);
    var word := pad + w;
    PrefixMatchesIff(base, w);
    assert |gbase| == |pad| + |base|;
    forall k | 0 <= k < |gbase|
      ensures LowerChar(word[k]) == LowerChar(gbase[k])
    {
      if k >= |pad| {
        assert base[k - |pad|] == gbase[k];
      }
    }
    PrefixMatchesIff(gbase, word);
  }

  /** One padded candidate of a contributing source matches the base at `g`. */
  lemma PaddedCandidatePrefix(ctx: Context, g: Col, e: Entry, abbr: string, i: nat)
    requires e.startcol <= ctx.col && g <= e.startcol
    requires i < |Processed(ctx, e, abbr)|
    ensures var processed := Processed(ctx, e, abbr);
            PrefixMatches(Base(ctx.typed, g), Slice(ctx.typed, g - 1, e.startcol - 1) + processed[i].word)
  {
    var processed := ProcessMatches(ctx.typed, e.startcol, abbr, e.matches);
    ProcessedMatchBase(ctx.typed, e.startcol, abbr, e.matches);
    assert processed[i] in processed;
    PaddedPrefix(ctx.typed, g, e.startcol, processed[i].word);
  }

  lemma ContributionPrefix(ctx: Context, g: Col, e: Entry, abbr: string)
    requires Contributes(ctx, e, abbr) ==> g <= e.startcol
    ensures forall c :: c in Contribution(ctx, g, e, abbr) ==> PrefixMatches(Base(ctx.typed, g), c.word)
  {
    if e.startcol <= ctx.col {
      var processed := Processed(ctx, e, abbr);
      var prefix := Slice(ctx.typed, g - 1, e.startcol - 1);
      var padded := Pad(prefix, processed);
      assert Contribution(ctx, g, e, abbr) == padded;
      forall i | 0 <= i < |padded|
        ensures PrefixMatches(Base(ctx.typed, g), padded[i].word)
      {
        PaddedCandidatePrefix(ctx, g, e, abbr, i);
      }
    }
  }

  lemma {:induction false} MergedListPrefix(ctx: Context, g: Col, names: seq<string>, store: map<string, Entry>, srcs: map<string, Source>)
    requires forall n :: n in names ==> n in store && n in srcs
    requires forall n :: n in names && Contributes(ctx, store[n], srcs[n].abbreviation) ==> g <= store[n].startcol
    ensures forall c :: c in MergedList(ctx, g, names, store, srcs) ==> PrefixMatches(Base(ctx.typed, g), c.word)
  {
    if names != [] {
      var n := names[|names| - 1];
      MergedListPrefix(ctx, g, names[..|names| - 1], store, srcs);
      ContributionPrefix(ctx, g, store[n], srcs[n].abbreviation);
    }
  }

  /**
   * Prefix law: every merged candidate's word matches, ignoring case, the
   * typed text from the merge's start column on.
   */
  lemma MergePrefixLaw(store: Store, srcs: map<string, Source>, ctx: Context)
    requires store.Valid() && MergeSpec(store, srcs, ctx).Some?
    ensures var m := MergeSpec(store, srcs, ctx).value;
            forall c :: c in m.matches ==> PrefixMatches(Base(ctx.typed, m.startcol), c.word)
  {
    var names := MergeOrder(store, srcs).value;
    var g := MergeStart(ctx, names, store.vals, srcs);
    MergeStartLaw(ctx, names, store.vals, srcs);
    MergedListPrefix(ctx, g, names, store.vals, srcs);
  }

  /** The merge reads of each entry only its start column and raw matches. */
  ghost predicate SameReports(a: map<string, Entry>, b: map<string, Entry>)
  {
    a.Keys == b.Keys && forall n :: n in a ==> a[n].startcol == b[n].startcol && a[n].matches == b[n].matches
  }

  lemma SameReportsEntry(ctx: Context, g: Col, e: Entry, f: Entry, abbr: string)
    requires e.startcol == f.startcol && e.matches == f.matches
    ensures Processed(ctx, e, abbr) == Processed(ctx, f, abbr)
    ensures Contribution(ctx, g, e, abbr) == Contribution(ctx, g, f, abbr)
  {
  }

  lemma {:induction false} SameReportsStart(ctx: Context, names: seq<string>, a: map<string, Entry>, b: map<string, Entry>, srcs: map<string, Source>)
    requires SameReports(a, b)
    requires forall n :: n in names ==> n in a && n in srcs
    ensures MergeStart(ctx, names, a, srcs) == MergeStart(ctx, names, b, srcs)
  {
    if names != [] {
      var n := names[|names| - 1];
      SameReportsStart(ctx, names[..|names| - 1], a, b, srcs);
      SameReportsEntry(ctx, 1, a[n], b[n], srcs[n].abbreviation);
    }
  }

  lemma {:induction false} SameReportsList(ctx: Context, g: Col, names: seq<string>, a: map<string, Entry>, b: map<string, Entry>, srcs: map<string, Source>)
    requires SameReports(a, b)
    requires forall n :: n in names ==> n in a && n in srcs
    ensures MergedList(ctx, g, names, a, srcs) == MergedList(ctx, g, names, b, srcs)
  {
    if names != [] {
      var n := names[|names| - 1];
      SameReportsList(ctx, g, names[..|names| - 1], a, b, srcs);
      SameReportsEntry(ctx, g, a[n], b[n], srcs[n].abbreviation);
    }
  }

  /** Writing the contributions back does not change what the next merge writes. */
  lemma MergedEntriesFixed(ctx: Context, g: Col, store: map<string, Entry>, srcs: map<string, Source>)
    requires forall n :: n in store ==> n in srcs
    ensures var state := MergedEntries(ctx, g, store, srcs);
            MergedEntries(ctx, g, state, srcs) == state
  {
    var state := MergedEntries(ctx, g, store, srcs);
    forall n | n in state
      ensures MergedEntries(ctx, g, state, srcs)[n] == state[n]
    {
      SameReportsEntry(ctx, g, store[n], state[n], srcs[n].abbreviation);
    }
  }

  /**
   * Merging is idempotent: merging the state a merge wrote back (with its
   * padded `last_matches`) gives the same start column, list and state.
   */
  lemma MergeIdempotent(store: Store, srcs: map<string, Source>, ctx: Context)
    requires store.Valid() && MergeSpec(store, srcs, ctx).Some?
    ensures var m := MergeSpec(store, srcs, ctx).value;
            MergeSpec(m.state, srcs, ctx) == Some(m)
  {
    var m := MergeSpec(store, srcs, ctx).value;
    var names := MergeOrder(store, srcs).value;
    var g := MergeStart(ctx, names, store.vals, srcs);
    var state := MergedEntries(ctx, g, store.vals, srcs);
    assert m == Outcome(Dict(store.keys, state), g, MergedList(ctx, g, names, store.vals, srcs));
    assert MergeOrder(m.state, srcs) == Some(names);
    SameReportsStart(ctx, names, store.vals, state, srcs);
    SameReportsList(ctx, g, names, store.vals, state, srcs);
    MergedEntriesFixed(ctx, g, store.vals, srcs);
  }

  /** A source without processed matches adds nothing to the merged list. */
  lemma SilentContribution(ctx: Context, g: Col, e: Entry, abbr: string)
    requires !Contributes(ctx, e, abbr)
    ensures Contribution(ctx, g, e, abbr) == []
  {
    if e.startcol <= ctx.col {
      assert |Pad(Slice(ctx.typed, g - 1, e.startcol - 1), Processed(ctx, e, abbr))| == 0;
    }
  }

  /**
   * A source without processed matches (in particular one whose start
   * column is past the cursor) does not move the start column.
   */
  lemma {:induction false} NonContributorStart(ctx: Context, names: seq<string>, store: map<string, Entry>, srcs: map<string, Source>, x: string)
    requires forall n :: n in names ==> n in store && n in srcs
    requires x in store && x in srcs && !Contributes(ctx, store[x], srcs[x].abbreviation)
    ensures MergeStart(ctx, names, store, srcs) == MergeStart(ctx, Without(names, x), store, srcs)
  {
    if names != [] {
      var init, n := names[..|names| - 1], names[|names| - 1];
      NonContributorStart(ctx, init, store, srcs, x);
      if n == x {
        assert Without(names, x) == Without(init, x);
        assert MergeStart(ctx, names, store, srcs) == MergeStart(ctx, init, store, srcs);
      } else {
        assert Without(names, x) == Without(init, x) + [n];
        MergeStartSnoc(ctx, Without(init, x), n, store, srcs);
      }
    }
  }

  lemma MergeStartSnoc(ctx: Context, names: seq<string>, n: string, store: map<string, Entry>, srcs: map<string, Source>)
    requires forall m :: m in names ==> m in store && m in srcs
    requires n in store && n in srcs
    ensures var g := MergeStart(ctx, names, store, srcs);
            MergeStart(ctx, names + [n], store, srcs) ==
            if Contributes(ctx, store[n], srcs[n].abbreviation) && store[n].startcol < g then store[n].startcol else g
  {
    assert (names + [n])[..|names|] == names;
  }

  /** A source without processed matches leaves the merged list as it is without that source. */
  lemma {:induction false} NonContributorList(ctx: Context, g: Col, names: seq<string>, store: map<string, Entry>, srcs: map<string, Source>, x: string)
    requires forall n :: n in names ==> n in store && n in srcs
    requires x in store && x in srcs && !Contributes(ctx, store[x], srcs[x].abbreviation)
    ensures MergedList(ctx, g, names, store, srcs) == MergedList(ctx, g, Without(names, x), store, srcs)
  {
    if names != [] {
      var init, n := names[..|names| - 1], names[|names| - 1];
      assert names == init + [n];
      NonContributorList(ctx, g, init, store, srcs, x);
      if n == x {
        SilentContribution(ctx, g, store[x], srcs[x].abbreviation);
        assert Without(names, x) == Without(init, x);
      } else {
        var rest := Without(init, x);
        assert Without(names, x) == rest + [n];
        assert (rest + [n])[..|rest + [n]| - 1] == rest;
      }
    }
  }
}
