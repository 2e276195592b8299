/**
 * `String.prototype.indexOf`, `split` and `join` with a non-empty
 * separator, as the incident script uses them on `geo_point_2d`.
 */
module Strings {
  import opened Wrappers

  /** The separator between the two coordinates of a `geo_point_2d` cell. */
  const SEP: string := ", "

  /** `sep` occurs in `s` starting at position `j`. */
  predicate OccursAt(s: string, sep: string, j: nat) {
    j + |sep| <= |s| && s[j..j + |sep|] == sep
  }

  predicate Contains(s: string, sep: string) {
    exists j: nat | j <= |s| :: OccursAt(s, sep, j)
  }

  /** s.indexOf(sep, from): the first position at or after `from` where `sep` occurs. */
  function IndexOf(s: string, sep: string, from: nat): (r: Option<nat>)
    requires from <= |s|
    ensures r.Some? ==> from <= r.value && OccursAt(s, sep, r.value)
    ensures forall k: nat :: from <= k && (r.None? || k < r.value) ==> !OccursAt(s, sep, k)
    decreases |s| - from
  {
    if OccursAt(s, sep, from) then Some(from)
    else if from == |s| then None
    else IndexOf(s, sep, from + 1)
  }

  /** s.split(sep): the pieces between the occurrences of `sep`, scanning left to right. */
  function Split(s: string, sep: string): (pieces: seq<string>)
    requires |sep| > 0
    ensures |pieces| >= 1
    decreases |s|
  {
    match IndexOf(s, sep, 0)
    case None => [s]
    case Some(j) => [s[..j]] + Split(s[j + |sep|..], sep)
  }

  /** pieces.join(sep). */
  function Join(pieces: seq<string>, sep: string): (joined: string) {
    if |pieces| == 0 then ""
    else if |pieces| == 1 then pieces[0]
    else pieces[0] + sep + Join(pieces[1..], sep)
  }

  /** Joining the pieces of a split gives back the string that was split. */
  lemma {:induction false} JoinSplit(s: string, sep: string)
    requires |sep| > 0
    ensures Join(Split(s, sep), sep) == s
    decreases |s|
  {
    match IndexOf(s, sep, 0)
    case None =>
    case Some(j) =>
      var rest := s[j + |sep|..];
      var tail := Split(rest, sep);
      JoinSplit(rest, sep);
      JoinCons(s[..j], tail, sep);
      assert s == s[..j] + sep + rest;
  }

  lemma JoinCons(p: string, pieces: seq<string>, sep: string)
    requires |pieces| >= 1
    ensures Join([p] + pieces, sep) == p + sep + Join(pieces, sep)
  {
    assert ([p] + pieces)[1..] == pieces;
  }

  /** No piece of a split contains the separator. */
  lemma {:induction false} SplitPiecesAreFree(s: string, sep: string)
    requires |sep| > 0
    ensures forall i :: 0 <= i < |Split(s, sep)| ==> !Contains(Split(s, sep)[i], sep)
    decreases |s|
  {
    match IndexOf(s, sep, 0)
    case None =>
    case Some(j) =>
      var rest := s[j + |sep|..];
      SplitPiecesAreFree(rest, sep);
      forall k: nat ensures !OccursAt(s[..j], sep, k) {
        if k + |sep| <= j {
          assert !OccursAt(s, sep, k);
          assert s[..j][k..k + |sep|] == s[k..k + |sep|];
        }
      }
      assert Split(s, sep) == [s[..j]] + Split(rest, sep);
  }

  /**
   * Splitting on ", " undoes joining with ", ", for pieces that do not
   * contain ", " themselves (an occurrence cannot straddle a piece and
   * the separator, since ", " does not begin with a space).
   */
  lemma {:induction false} SplitJoin(pieces: seq<string>)
    requires |pieces| >= 1
    requires forall i :: 0 <= i < |pieces| ==> !Contains(pieces[i], SEP)
    ensures Split(Join(pieces, SEP), SEP) == pieces
  {
    if |pieces| == 1 {
      assert Join(pieces, SEP) == pieces[0];
    } else {
      var p, rest := pieces[0], pieces[1..];
      var s := Join(pieces, SEP);
      assert s == p + SEP + Join(rest, SEP);
      forall k: nat | k < |p| ensures !OccursAt(s, SEP, k) {
        if k + |SEP| <= |p| {
          assert s[k..k + |SEP|] == p[k..k + |SEP|];
          assert !OccursAt(p, SEP, k);
        } else {
          assert s[k + 1] == ',';
        }
      }
      assert s[|p|..|p| + |SEP|] == SEP;
      assert OccursAt(s, SEP, |p|);
      assert IndexOf(s, SEP, 0) == Some(|p|);
      assert s[..|p|] == p;
      assert s[|p| + |SEP|..] == Join(rest, SEP);
      SplitJoin(rest);
    }
  }

  /** A text without spaces cannot contain ", ". */
  lemma NoSpaceIsFree(s: string)
    requires forall j :: 0 <= j < |s| ==> s[j] != ' '
    ensures !Contains(s, SEP)
  {
    forall j: nat ensures !OccursAt(s, SEP, j) {
      if j + |SEP| <= |s| {
        assert s[j..j + |SEP|][1] == s[j + 1];
      }
    }
  }
}
