/**
 * The two JavaScript string operations the route-parameter checker relies on:
 * `String.prototype.split` with a one-character separator and
 * `String.prototype.slice(1, length - 1)`.
 */
module Text {

  /** `parts.join(sep)`: the pieces with one separator between neighbours. */
  function Join(parts: seq<string>, sep: char): string
    requires |parts| >= 1
    decreases |parts|
  {
    if |parts| == 1 then parts[0] else parts[0] + [sep] + Join(parts[1..], sep)
  }

  /**
   * `s.split(sep)`. There is always at least one piece (the empty string
   * splits into `[""]`), no piece contains the separator, and joining the
   * pieces back gives `s`.
   */
  function Split(s: string, sep: char): (parts: seq<string>)
    ensures |parts| >= 1
    ensures forall i :: 0 <= i < |parts| ==> sep !in parts[i]
    ensures Join(parts, sep) == s
    decreases |s|
  {
    if |s| == 0 then [""]
    else
      var rest := Split(s[1..], sep);
      if s[0] == sep then
        assert ([""] + rest)[1..] == rest;
        [""] + rest
      else
        var parts := [[s[0]] + rest[0]] + rest[1..];
        assert parts[1..] == rest[1..];
        parts
  }

  /** In a join of several pieces, the first separator follows the first piece. */
  lemma JoinFirstPiece(parts: seq<string>, sep: char)
    requires |parts| >= 2
    requires sep !in parts[0]
    ensures Join(parts, sep)[..|parts[0]|] == parts[0]
    ensures forall i :: 0 <= i < |parts[0]| ==> Join(parts, sep)[i] != sep
    ensures Join(parts, sep)[|parts[0]|] == sep
  {
  }

  /** Two joins of separator-free pieces agree only when the pieces do. */
  lemma {:induction false} JoinInjective(p: seq<string>, q: seq<string>, sep: char)
    requires |p| >= 1 && |q| >= 1
    requires forall i :: 0 <= i < |p| ==> sep !in p[i]
    requires forall i :: 0 <= i < |q| ==> sep !in q[i]
    requires Join(p, sep) == Join(q, sep)
    ensures p == q
    decreases |p|
  {
    if |p| == 1 || |q| == 1 {
      // A join of two or more pieces contains the separator; a single piece does not.
    } else {
      var j := Join(p, sep);
      JoinFirstPiece(p, sep);
      JoinFirstPiece(q, sep);
      // The first separator of the join sits right after the first piece.
      assert |p[0]| == |q[0]|;
      assert p[0] == j[..|p[0]|] == q[0];
      assert Join(p[1..], sep) == j[|p[0]| + 1..] == Join(q[1..], sep);
      JoinInjective(p[1..], q[1..], sep);
      assert p == [p[0]] + p[1..];
      assert q == [q[0]] + q[1..];
    }
  }

  /** Splitting a join of separator-free pieces gives the pieces back. */
  lemma SplitJoin(parts: seq<string>, sep: char)
    requires |parts| >= 1
    requires forall i :: 0 <= i < |parts| ==> sep !in parts[i]
    ensures Split(Join(parts, sep), sep) == parts
  {
    JoinInjective(Split(Join(parts, sep), sep), parts, sep);
  }

  /**
   * `quoted.slice(1, quoted.length - 1)`: drops the first and the last
   * character; a string shorter than two characters gives the empty string.
   */
  function Unquote(quoted: string): (inner: string)
    ensures |quoted| >= 2 ==> quoted == [quoted[0]] + inner + [quoted[|quoted| - 1]]
    ensures |quoted| < 2 ==> inner == ""
  {
    if |quoted| < 2 then "" else quoted[1..|quoted| - 1]
  }

  /** Unquoting a string wrapped in two quote characters gives the string back. */
  lemma UnquoteQuoted(open: char, s: string, close: char)
    ensures Unquote([open] + s + [close]) == s
  {
  }
}
