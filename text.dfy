/**
 * String helpers with the semantics of the Python operations the completion
 * core uses: ASCII lower-casing, clamped slicing `s[i:j]` for non-negative
 * bounds, the word-character class of `[0-9a-zA-Z_]`, and `"\n".join`.
 */
module Text {

  /** A 1-based editor column. */
  type Col = c: int | 1 <= c witness 1

  function Min(a: int, b: int): int { if a <= b then a else b }

  predicate IsUpper(c: char) { 'A' <= c <= 'Z' }

  /** ASCII lower-casing of one character; every other character is unchanged. */
  function LowerChar(c: char): (r: char)
    ensures !IsUpper(r)
    ensures IsUpper(c) ==> r as int - c as int == 32
    ensures !IsUpper(c) ==> r == c
  {
    if IsUpper(c) then (c as int + 32) as char else c
  }

  function Lower(s: string): (r: string)
    ensures |r| == |s|
    ensures forall k :: 0 <= k < |s| ==> r[k] == LowerChar(s[k])
  {
    seq(|s|, k requires 0 <= k < |s| => LowerChar(s[k]))
  }

  /** Python's `s[i:j]` for non-negative `i` and `j`: both ends clamped to `|s|`, empty when `j <= i`. */
  function Slice(s: string, i: nat, j: nat): (r: string)
    ensures |r| == if i < Min(j, |s|) then Min(j, |s|) - i else 0
    ensures forall k :: 0 <= k < |r| ==> r[k] == s[i + k]
  {
    var lo, hi := Min(i, |s|), Min(j, |s|);
    if lo < hi then s[lo..hi] else []
  }

  /** Python's `s[i:]`. */
  function From(s: string, i: nat): (r: string)
    ensures |r| == if i < |s| then |s| - i else 0
    ensures forall k :: 0 <= k < |r| ==> r[k] == s[i + k]
  {
    Slice(s, i, |s|)
  }

  /** The class `[0-9a-zA-Z_]`. */
  predicate IsWordChar(c: char)
  {
    ('0' <= c <= '9') || ('a' <= c <= 'z') || ('A' <= c <= 'Z') || c == '_'
  }

  /** Python's `"\n".join(lines)`. */
  function Join(lines: seq<string>): (r: string)
    ensures lines == [] ==> r == ""
    ensures lines != [] ==> lines[0] <= r
  {
    if lines == [] then ""
    else if |lines| == 1 then lines[0]
    else lines[0] + "\n" + Join(lines[1..])
  }

  /** Python's `s.split("\n")`: the pieces between newlines, `[""]` for the empty string. */
  function Split(s: string): (r: seq<string>)
    ensures r != []
    decreases |s|
  {
    if '\n' !in s then [s]
    else
      var i := IndexOfNewline(s);
      [s[..i]] + Split(s[i + 1..])
  }

  function IndexOfNewline(s: string): (i: nat)
    requires '\n' in s
    ensures i < |s| && s[i] == '\n' && '\n' !in s[..i]
  {
    if s[0] == '\n' then 0
    else
      assert s == [s[0]] + s[1..];
      1 + IndexOfNewline(s[1..])
  }

  /** The first newline of `s` is the one at `i` when none comes before it. */
  lemma {:induction false} FirstNewline(s: string, i: nat)
    requires i < |s| && s[i] == '\n' && '\n' !in s[..i]
    ensures IndexOfNewline(s) == i
  {
    if i > 0 {
      assert s[0] == s[..i][0];
      assert s[1..][..i - 1] == s[..i][1..];
      FirstNewline(s[1..], i - 1);
    }
  }

  /**
   * Joining lines that hold no newline and splitting the text again gives
   * the lines back: the text served for a buffer determines its lines.
   */
  lemma {:induction false} SplitJoin(lines: seq<string>)
    requires lines != []
    requires forall k :: 0 <= k < |lines| ==> '\n' !in lines[k]
    ensures Split(Join(lines)) == lines
  {
    if |lines| == 1 {
      assert '\n' !in lines[0];
    } else {
      var head, tail := lines[0], lines[1..];
      var rest := Join(tail);
      var s := head + "\n" + rest;
      assert Join(lines) == s;
      assert s[|head|] == '\n';
      assert s[..|head|] == head;
      assert '\n' !in head;
      FirstNewline(s, |head|);
      assert s[|head| + 1..] == rest;
      assert Split(s) == [head] + Split(rest);
      assert forall k :: 0 <= k < |tail| ==> tail[k] == lines[k + 1];
      SplitJoin(tail);
      assert lines == [lines[0]] + lines[1..];
    }
  }
}
