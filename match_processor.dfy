/**
 * `Handler.process_matches`: normalise one source's candidates into
 * records, give each a `menu`, keep those whose word starts with the typed
 * base (ignoring case) and order them by word length, stably.
 */
module MatchProcessor {
  import opened Wrappers
  import opened Text
  import opened Sorting

  /**
   * A completion record. `menu` and `info` are optional keys; `extras`
   * holds every other key, which the core carries along untouched.
   */
  datatype Candidate = Candidate(word: string, menu: Option<string>, info: Option<string>, extras: map<string, string>)

  /** What a source may send: a bare word, or a record. */
  datatype Item = Plain(text: string) | Record(fields: Candidate)

  /** Length of the `menu` info text below which it is shown. */
  const InfoLimit := 70

  /** A bare word becomes a record holding only `word`; a record is copied. */
  function Normalize(item: Item): (c: Candidate)
    ensures item.Plain? ==> c == Candidate(item.text, None, None, map[])
    ensures item.Record? ==> c == item.fields
  {
    match item
    case Plain(w) => Candidate(w, None, None, map[])
    case Record(fields) => fields
  }

  /** The `menu` given to a record without one, from its `info` and the source's abbreviation. */
  function DefaultMenu(info: Option<string>, abbr: string): string
  {
    if info.Some? && info.value != "" && |info.value| < InfoLimit then
      if abbr != "" then abbr + " :" + info.value else info.value
    else abbr
  }

  /** Gives `c` a menu when it has none; nothing else changes. */
  function Annotate(c: Candidate, abbr: string): (r: Candidate)
    ensures r.menu.Some?
    ensures r.word == c.word && r.info == c.info && r.extras == c.extras
    ensures c.menu.Some? ==> r.menu == c.menu
    ensures c.menu.None? && c.info.Some? && 0 < |c.info.value| < InfoLimit && abbr != "" ==>
              r.menu == Some(abbr + " :" + c.info.value)
    ensures c.menu.None? && c.info.Some? && 0 < |c.info.value| < InfoLimit && abbr == "" ==>
              r.menu == c.info
    ensures c.menu.None? && !(c.info.Some? && 0 < |c.info.value| < InfoLimit) ==>
              r.menu == Some(abbr)
  {
    if c.menu.Some? then c else c.(menu := Some(DefaultMenu(c.info, abbr)))
  }

  function Prepare(item: Item, abbr: string): Candidate
  {
    Annotate(Normalize(item), abbr)
  }

  /** The filter: `base.lower() == word[0:len(base)].lower()`. */
  predicate PrefixMatches(base: string, word: string)
    ensures base == "" ==> PrefixMatches(base, word)
  {
    Lower(base) == Lower(Slice(word, 0, |base|))
  }

  /** The filter holds exactly when `base` is a prefix of `word` up to ASCII case. */
  lemma PrefixMatchesIff(base: string, word: string)
    ensures PrefixMatches(base, word) <==>
              |base| <= |word| && forall k :: 0 <= k < |base| ==> LowerChar(word[k]) == LowerChar(base[k])
  {
    var head := Slice(word, 0, |base|);
    if |base| <= |word| && forall k :: 0 <= k < |base| ==> LowerChar(word[k]) == LowerChar(base[k]) {
      assert Lower(base) == Lower(head);
    }
    if PrefixMatches(base, word) {
      assert |Lower(base)| == |Lower(head)|;
      forall k | 0 <= k < |base|
        ensures LowerChar(word[k]) == LowerChar(base[k])
      {
        assert Lower(base)[k] == Lower(head)[k];
      }
    }
  }

  /** The prepared items that pass the filter, in input order. */
  function Kept(base: string, abbr: string, items: seq<Item>): (r: seq<Candidate>)
    ensures |r| <= |items|
    ensures forall c :: c in r ==> PrefixMatches(base, c.word) && c.menu.Some?
  {
    if items == [] then []
    else
      var e := Prepare(items[0], abbr);
      (if PrefixMatches(base, e.word) then [e] else []) + Kept(base, abbr, items[1..])
  }

  lemma {:induction false} KeptMembers(base: string, abbr: string, items: seq<Item>)
    ensures forall c :: c in Kept(base, abbr, items) <==>
              exists i :: 0 <= i < |items| && c == Prepare(items[i], abbr) && PrefixMatches(base, c.word)
  {
    if items != [] {
      KeptMembers(base, abbr, items[1..]);
      forall c | c in Kept(base, abbr, items)
        ensures exists i :: 0 <= i < |items| && c == Prepare(items[i], abbr) && PrefixMatches(base, c.word)
      {
        if c != Prepare(items[0], abbr) || !PrefixMatches(base, c.word) {
          var i :| 0 <= i < |items[1..]| && c == Prepare(items[1..][i], abbr) && PrefixMatches(base, c.word);
          assert items[1..][i] == items[i + 1];
        }
      }
      forall c | exists i :: 0 <= i < |items| && c == Prepare(items[i], abbr) && PrefixMatches(base, c.word)
        ensures c in Kept(base, abbr, items)
      {
        var i :| 0 <= i < |items| && c == Prepare(items[i], abbr) && PrefixMatches(base, c.word);
        if i > 0 {
          assert items[1..][i - 1] == items[i];
        }
      }
    }
  }

  function WordLength(c: Candidate): int
  {
    |c.word|
  }

  /** `typed[startcol-1:]`, the text the source completes. */
  function Base(typed: string, startcol: Col): string
  {
    From(typed, startcol - 1)
  }

  /** `process_matches(name, ctx, startcol, matches)` for a source whose abbreviation is `abbr`. */
  function ProcessMatches(typed: string, startcol: Col, abbr: string, items: seq<Item>): (r: seq<Candidate>)
    ensures |r| <= |items|
  {
    SortBy(Kept(Base(typed, startcol), abbr, items), WordLength)
  }

  /**
   * What `process_matches` returns: exactly the prepared items whose word
   * starts with the base (ignoring case), each with a menu, no more of them
   * than were given, ordered by non-decreasing word length, and among words
   * of one length in input order.
   */
  lemma ProcessMatchesSpec(typed: string, startcol: Col, abbr: string, items: seq<Item>)
    ensures var r := ProcessMatches(typed, startcol, abbr, items);
            var base := Base(typed, startcol);
            && |r| <= |items|
            && multiset(r) == multiset(Kept(base, abbr, items))
            && (forall c :: c in r ==> PrefixMatches(base, c.word) && c.menu.Some?)
            && (forall c :: c in r <==>
                  exists i :: 0 <= i < |items| && c == Prepare(items[i], abbr) && PrefixMatches(base, c.word))
            && SortedBy(r, WordLength)
            && (forall n :: WithKey(r, WordLength, n) == WithKey(Kept(base, abbr, items), WordLength, n))
  {
    var base := Base(typed, startcol);
    var kept := Kept(base, abbr, items);
    var r := ProcessMatches(typed, startcol, abbr, items);
    KeptMembers(base, abbr, items);
    SortByIsSorted(kept, WordLength);
    SortByPermutes(kept, WordLength);
    forall n {
      SortByIsStable(kept, WordLength, n);
    }
    forall c | c in r
      ensures c in kept
    {
      assert c in multiset(r);
    }
    forall c | c in kept
      ensures c in r
    {
      assert c in multiset(kept);
    }
  }

  /** Every processed candidate's word starts with the base, ignoring case. */
  lemma ProcessedMatchBase(typed: string, startcol: Col, abbr: string, items: seq<Item>)
    ensures forall c :: c in ProcessMatches(typed, startcol, abbr, items) ==> PrefixMatches(Base(typed, startcol), c.word)
  {
    ProcessMatchesSpec(typed, startcol, abbr, items);
  }
}
