/**
 * The java.lang.String operations the core relies on, for separators that
 * contain no regular-expression metacharacter: `indexOf`, `contains`,
 * `split` with its default limit of 0, and `trim`.
 */
module JavaStrings {

  /** `t` occurs in `s` starting at index `i`. */
  predicate OccursAt(s: string, t: string, i: nat) {
    i + |t| <= |s| && s[i..i + |t|] == t
  }

  /** `s.indexOf(t, from)`: the first occurrence at or after `from`, or -1. */
  function IndexFrom(s: string, t: string, from: nat): (r: int)
    requires from <= |s|
    ensures r == -1 || from <= r <= |s|
    ensures r >= 0 ==> OccursAt(s, t, r)
    ensures r >= 0 ==> forall k :: from <= k < r ==> !OccursAt(s, t, k)
    ensures r < 0 ==> forall k :: from <= k <= |s| ==> !OccursAt(s, t, k)
    decreases |s| - from
  {
    if OccursAt(s, t, from) then from
    else if from == |s| then -1
    else IndexFrom(s, t, from + 1)
  }

  /** `s.indexOf(t)`. */
  function IndexOf(s: string, t: string): (r: int)
    ensures r == -1 || 0 <= r <= |s|
    ensures r >= 0 ==> OccursAt(s, t, r) && forall k :: 0 <= k < r ==> !OccursAt(s, t, k)
    ensures r < 0 <==> forall k :: 0 <= k <= |s| ==> !OccursAt(s, t, k)
  {
    IndexFrom(s, t, 0)
  }

  /** `s.contains(t)`. */
  function Contains(s: string, t: string): (b: bool)
    ensures b <==> exists k :: 0 <= k <= |s| && OccursAt(s, t, k)
  {
    IndexOf(s, t) >= 0
  }

  /**
   * The parts of `s` between the leftmost non-overlapping occurrences of
   * `sep`, scanning left to right, before any trailing empty part is removed.
   */
  function Pieces(s: string, sep: string): (ps: seq<string>)
    requires sep != []
    ensures |ps| >= 1
    decreases |s|
  {
    var i := IndexOf(s, sep);
    if i < 0 then [s] else [s[..i]] + Pieces(s[i + |sep|..], sep)
  }

  /** Removes the run of empty strings at the end of `ps`. */
  function DropTrailingEmpty(ps: seq<string>): (r: seq<string>)
    ensures r <= ps
    ensures forall k :: |r| <= k < |ps| ==> ps[k] == []
    ensures r == [] || r[|r| - 1] != []
  {
    if ps == [] || ps[|ps| - 1] != [] then ps else DropTrailingEmpty(ps[..|ps| - 1])
  }

  /**
   * `s.split(sep)`: when `sep` does not occur the result is `[s]` (even for
   * the empty string); otherwise the pieces with trailing empty ones removed.
   */
  function Split(s: string, sep: string): (r: seq<string>)
    requires sep != []
  {
    if IndexOf(s, sep) < 0 then [s] else DropTrailingEmpty(Pieces(s, sep))
  }

  /** Concatenates `ps` with `sep` between consecutive elements. */
  function Join(ps: seq<string>, sep: string): string {
    if |ps| == 0 then "" else if |ps| == 1 then ps[0] else ps[0] + sep + Join(ps[1..], sep)
  }

  /** `t` is zero or more copies of `sep` and nothing else. */
  predicate OnlyCopies(t: string, sep: string)
    requires sep != []
    decreases |t|
  {
    t == [] || (OccursAt(t, sep, 0) && OnlyCopies(t[|sep|..], sep))
  }

  /**
   * The text of `t` before the first occurrence of `sep`, which ends where
   * that occurrence starts; all of `t` when `sep` does not occur.
   */
  function Before(t: string, sep: string): (r: string)
    ensures r <= t
    ensures !Contains(r, sep) || (sep == [] && r == [])
    ensures Contains(t, sep) ==> OccursAt(t, sep, |r|)
    ensures !Contains(t, sep) ==> r == t
  {
    var i := IndexOf(t, sep);
    var r := if i < 0 then t else t[..i];
    assert forall k :: 0 <= k <= |r| && OccursAt(r, sep, k) ==> OccursAt(t, sep, k);
    r
  }

  /** Joining the pieces with the separator gives back the original string. */
  lemma {:induction false} PiecesJoin(s: string, sep: string)
    requires sep != []
    ensures Join(Pieces(s, sep), sep) == s
    decreases |s|
  {
    var i := IndexOf(s, sep);
    if i >= 0 {
      var rest := s[i + |sep|..];
      PiecesJoin(rest, sep);
      PiecesStep(s, sep);
      JoinCons(s[..i], Pieces(rest, sep), sep);
      Around(s, sep, i);
    } else {
      assert Pieces(s, sep) == [s];
    }
  }

  lemma PiecesStep(s: string, sep: string)
    requires sep != [] && IndexOf(s, sep) >= 0
    ensures Pieces(s, sep) == [s[..IndexOf(s, sep)]] + Pieces(s[IndexOf(s, sep) + |sep|..], sep)
  {
  }

  lemma Around(s: string, sep: string, i: nat)
    requires OccursAt(s, sep, i)
    ensures s == s[..i] + sep + s[i + |sep|..]
  {
    assert s == s[..i] + s[i..i + |sep|] + s[i + |sep|..];
  }

  lemma JoinCons(a: string, tail: seq<string>, sep: string)
    requires |tail| >= 1
    ensures Join([a] + tail, sep) == a + sep + Join(tail, sep)
  {
    assert ([a] + tail)[1..] == tail;
  }

  /** No piece contains the separator. */
  lemma {:induction false} PiecesFreeOfSeparator(s: string, sep: string)
    requires sep != []
    ensures forall k :: 0 <= k < |Pieces(s, sep)| ==> !Contains(Pieces(s, sep)[k], sep)
    decreases |s|
  {
    var i := IndexOf(s, sep);
    assert Pieces(s, sep)[0] == Before(s, sep);
    if i >= 0 {
      PiecesFreeOfSeparator(s[i + |sep|..], sep);
    }
  }

  /** Every string of `ps` is empty. */
  predicate AllEmpty(ps: seq<string>) {
    forall k :: 0 <= k < |ps| ==> ps[k] == []
  }

  lemma AllEmptyCons(a: string, tail: seq<string>)
    ensures AllEmpty([a] + tail) <==> a == [] && AllEmpty(tail)
  {
    var ps := [a] + tail;
    assert ps[0] == a;
    assert forall k :: 0 <= k < |tail| ==> ps[k + 1] == tail[k];
  }

  /** Every piece is empty exactly when `t` consists of copies of `sep`. */
  lemma {:induction false} PiecesAllEmpty(t: string, sep: string)
    requires sep != []
    ensures AllEmpty(Pieces(t, sep)) <==> OnlyCopies(t, sep)
    decreases |t|
  {
    var i := IndexOf(t, sep);
    if i >= 0 {
      var rest := t[i + |sep|..];
      PiecesAllEmpty(rest, sep);
      PiecesStep(t, sep);
      AllEmptyCons(t[..i], Pieces(rest, sep));
      if i == 0 {
        assert t[|sep|..] == rest;
      } else {
        assert !OccursAt(t, sep, 0);
        assert |t[..i]| == i;
      }
    } else {
      assert Pieces(t, sep) == [t];
      assert !OccursAt(t, sep, 0);
      AllEmptyCons(t, []);
      assert [t] + [] == [t];
    }
  }

  /**
   * When `sep` occurs in `s`, `split` keeps at least two parts exactly when
   * the text after the first occurrence is not made of copies of `sep` alone,
   * and then part 1 is the text between the first and the second occurrence
   * (or the end of `s`).
   */
  lemma SplitSecondPart(s: string, sep: string)
    requires sep != [] && Contains(s, sep)
    ensures var rest := s[IndexOf(s, sep) + |sep|..];
      && (|Split(s, sep)| >= 2 <==> !OnlyCopies(rest, sep))
      && (|Split(s, sep)| >= 2 ==> Split(s, sep)[1] == Before(rest, sep))
  {
    var i := IndexOf(s, sep);
    var rest := s[i + |sep|..];
    var tail := Pieces(rest, sep);
    assert Split(s, sep) == DropTrailingEmpty([s[..i]] + tail) by { PiecesStep(s, sep); }
    assert tail[0] == Before(rest, sep);
    PiecesAllEmpty(rest, sep);
    KeepsSecond(s[..i], tail);
  }

  /** Dropping trailing empty strings after a head keeps a second part exactly when the tail has a non-empty one. */
  lemma KeepsSecond(a: string, tail: seq<string>)
    ensures |DropTrailingEmpty([a] + tail)| >= 2 <==> !AllEmpty(tail)
    ensures |DropTrailingEmpty([a] + tail)| >= 2 ==> DropTrailingEmpty([a] + tail)[1] == tail[0]
  {
    var ps := [a] + tail;
    var r := DropTrailingEmpty(ps);
    if !AllEmpty(tail) {
      var k :| 0 <= k < |tail| && tail[k] != [];
      assert ps[k + 1] == tail[k];
    }
    if |r| >= 2 {
      assert r[|r| - 1] == ps[|r| - 1] == tail[|r| - 2];
      assert r[1] == ps[1] == tail[0];
    }
  }

  /** The number of UTF-16 code units Java stores for `c`: two outside the Basic Multilingual Plane. */
  function Utf16Units(c: char): (n: nat)
    ensures n == 1 || n == 2
    ensures n == 2 <==> c >= '\U{10000}'
  {
    if c >= '\U{10000}' then 2 else 1
  }

  /** `s.length()`: Java counts UTF-16 code units, not characters. */
  function Utf16Length(s: string): (n: nat)
    ensures |s| <= n <= 2 * |s|
    ensures n == |s| <==> forall k :: 0 <= k < |s| ==> Utf16Units(s[k]) == 1
  {
    if s == [] then 0
    else
      var p := s[..|s| - 1];
      assert forall k :: 0 <= k < |p| ==> p[k] == s[k];
      Utf16Length(p) + Utf16Units(s[|s| - 1])
  }

  /**
   * `s.substring(0, s.length() - n)`: `s` without its last `n` UTF-16 code
   * units. When the cut falls inside a surrogate pair, Java keeps a lone high
   * surrogate, which a `string` cannot hold; that character is dropped
   * whole, so the result is one code unit shorter than Java's.
   */
  function DropLastUnits(s: string, n: nat): (r: string)
    requires n <= Utf16Length(s)
    ensures r <= s
    ensures || Utf16Length(r) == Utf16Length(s) - n
            || (|r| < |s| && Utf16Units(s[|r|]) == 2 && Utf16Length(r) + 1 == Utf16Length(s) - n)
    ensures Utf16Length(s) == |s| ==> r == s[..|s| - n]
    decreases n
  {
    if n == 0 then s
    else
      var p := s[..|s| - 1];
      var u := Utf16Units(s[|s| - 1]);
      assert forall k :: 0 <= k < |p| ==> p[k] == s[k];
      if u <= n then
        var r := DropLastUnits(p, n - u);
        assert r <= s by { assert s == p + [s[|s| - 1]]; }
        r
      else p
  }

  /**
   * Java's `trim` strips characters at or below U+0020. Every such character
   * is one code unit and no surrogate is at or below it, so trimming code
   * units and trimming characters agree.
   */
  predicate IsTrimmable(c: char) {
    c <= ' '
  }

  /** The number of trimmable characters at the start of `s`. */
  function LeadingTrimmable(s: string): (n: nat)
    ensures n <= |s|
    ensures forall k :: 0 <= k < n ==> IsTrimmable(s[k])
    ensures n < |s| ==> !IsTrimmable(s[n])
  {
    if s != [] && IsTrimmable(s[0]) then 1 + LeadingTrimmable(s[1..]) else 0
  }

  /** The number of trimmable characters at the end of `s`. */
  function TrailingTrimmable(s: string): (n: nat)
    ensures n <= |s|
    ensures forall k :: |s| - n <= k < |s| ==> IsTrimmable(s[k])
    ensures n < |s| ==> !IsTrimmable(s[|s| - 1 - n])
  {
    if s != [] && IsTrimmable(s[|s| - 1]) then 1 + TrailingTrimmable(s[..|s| - 1]) else 0
  }

  /**
   * `s.trim()`: the slice of `s` left after removing trimmable characters
   * from both ends; it is empty exactly when every character is trimmable.
   */
  function Trim(s: string): (r: string)
    ensures LeadingTrimmable(s) + |r| <= |s|
    ensures r == s[LeadingTrimmable(s)..LeadingTrimmable(s) + |r|]
    ensures forall k :: LeadingTrimmable(s) + |r| <= k < |s| ==> IsTrimmable(s[k])
    ensures r == [] <==> forall k :: 0 <= k < |s| ==> IsTrimmable(s[k])
    ensures r != [] ==> !IsTrimmable(r[0]) && !IsTrimmable(r[|r| - 1])
  {
    var a := LeadingTrimmable(s);
    var t := s[a..];
    t[..|t| - TrailingTrimmable(t)]
  }
}
