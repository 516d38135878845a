/**
 * The few JavaScript string operations the exporter relies on, over
 * `string`. A `char` is a Unicode scalar value, so a character outside the
 * Basic Multilingual Plane is one `char` here, where JavaScript counts two
 * UTF-16 code units.
 */
module Text {

  /** `s.startsWith(p)` */
  predicate StartsWith(s: string, p: string)
  {
    |p| <= |s| && s[..|p|] == p
  }

  /**
   * `s.split(sep)` for a one-character separator: the pieces between
   * consecutive separators, in order; an empty string gives one empty piece.
   */
  function Split(s: string, sep: char): (parts: seq<string>)
    ensures |parts| >= 1
    ensures forall i :: 0 <= i < |parts| ==> sep !in parts[i]
    decreases |s|
  {
    if s == [] then [[]]
    else
      var rest := Split(s[1..], sep);
      if s[0] == sep then [[]] + rest
      else [[s[0]] + rest[0]] + rest[1..]
  }

  /** `parts.join(sep)`, the inverse of `Split`. */
  function Join(parts: seq<string>, sep: char): string
    requires |parts| >= 1
    decreases |parts|
  {
    if |parts| == 1 then parts[0]
    else parts[0] + [sep] + Join(parts[1..], sep)
  }

  /** Joining after a separator-led piece list puts the separator in front. */
  lemma JoinAfterEmpty(parts: seq<string>, sep: char)
    requires |parts| >= 1
    ensures Join([[]] + parts, sep) == [sep] + Join(parts, sep)
  {
    assert ([[]] + parts)[1..] == parts;
  }

  /** Extending the first piece by a character extends the join by it. */
  lemma JoinExtendFirst(c: char, parts: seq<string>, sep: char)
    requires |parts| >= 1
    ensures Join([[c] + parts[0]] + parts[1..], sep) == [c] + Join(parts, sep)
  {
    var q := [[c] + parts[0]] + parts[1..];
    assert q[1..] == parts[1..];
  }

  /** Joining the pieces of a split gives back the original string. */
  lemma {:induction false} JoinSplit(s: string, sep: char)
    ensures Join(Split(s, sep), sep) == s
    decreases |s|
  {
    if s != [] {
      JoinSplit(s[1..], sep);
      var rest := Split(s[1..], sep);
      if s[0] == sep {
        JoinAfterEmpty(rest, sep);
      } else {
        JoinExtendFirst(s[0], rest, sep);
      }
      assert s == [s[0]] + s[1..];
    }
  }

  /** A separator-free prefix is glued onto the first piece of the rest. */
  lemma {:induction false} SplitAppend(p: string, t: string, sep: char)
    requires sep !in p
    ensures Split(p + t, sep) == [p + Split(t, sep)[0]] + Split(t, sep)[1..]
    decreases |p|
  {
    var st := Split(t, sep);
    if p == [] {
      assert p + t == t;
      assert p + st[0] == st[0];
      assert [st[0]] + st[1..] == st;
    } else {
      SplitAppend(p[1..], t, sep);
      assert (p + t)[0] == p[0];
      assert (p + t)[1..] == p[1..] + t;
      assert [p[0]] + (p[1..] + st[0]) == p + st[0];
    }
  }

  /** Splitting a join of separator-free pieces gives back the pieces. */
  lemma {:induction false} SplitJoin(parts: seq<string>, sep: char)
    requires |parts| >= 1
    requires forall i :: 0 <= i < |parts| ==> sep !in parts[i]
    ensures Split(Join(parts, sep), sep) == parts
    decreases |parts|
  {
    if |parts| == 1 {
      SplitAppend(parts[0], [], sep);
      assert parts[0] + [] == parts[0];
    } else {
      var j := Join(parts[1..], sep);
      SplitJoin(parts[1..], sep);
      assert Join(parts, sep) == parts[0] + ([sep] + j);
      SplitAppend(parts[0], [sep] + j, sep);
      assert ([sep] + j)[1..] == j;
      assert Split([sep] + j, sep) == [[]] + parts[1..];
      assert parts[0] + [] == parts[0];
    }
  }

  /** There is a single piece exactly when the separator does not occur. */
  lemma SplitSingle(s: string, sep: char)
    ensures |Split(s, sep)| == 1 <==> sep !in s
  {
    if sep !in s {
      SplitAppend(s, [], sep);
      assert s + [] == s;
    } else {
      JoinSplit(s, sep);
    }
  }

  /**
   * The piece at index 1 is the text between the first separator and the
   * next one (or the end).
   */
  lemma SecondPiece(a: string, b: string, t: string, sep: char)
    requires sep !in a && sep !in b
    requires t == [] || t[0] == sep
    ensures |Split(a + [sep] + b + t, sep)| >= 2
    ensures Split(a + [sep] + b + t, sep)[0] == a
    ensures Split(a + [sep] + b + t, sep)[1] == b
  {
    assert a + [sep] + b + t == a + ([sep] + (b + t));
    SplitAppend(a, [sep] + (b + t), sep);
    assert ([sep] + (b + t))[1..] == b + t;
    SplitAppend(b, t, sep);
    if t != [] {
      assert Split(t, sep) == [[]] + Split(t[1..], sep);
    }
    assert Split(t, sep)[0] == [];
    assert b + [] == b;
    assert a + [] == a;
  }

  /**
   * Conversely, when there are at least two pieces, the string begins with
   * the first piece, a separator and the second piece, followed by the end
   * of the string or another separator.
   */
  lemma SecondPieceShape(s: string, sep: char)
    requires |Split(s, sep)| >= 2
    ensures var parts := Split(s, sep);
      var k := |parts[0]| + 1 + |parts[1]|;
      && k <= |s|
      && s[..k] == parts[0] + [sep] + parts[1]
      && (k == |s| || s[k] == sep)
  {
    var parts := Split(s, sep);
    JoinSplit(s, sep);
    var k := |parts[0]| + 1 + |parts[1]|;
    assert parts[1..][0] == parts[1];
    if |parts| == 2 {
      assert Join(parts[1..], sep) == parts[1];
      assert s == parts[0] + [sep] + parts[1];
    } else {
      assert parts[1..][1..] == parts[2..];
      var tail := Join(parts[2..], sep);
      assert Join(parts[1..], sep) == parts[1] + [sep] + tail;
      assert s == (parts[0] + [sep] + parts[1]) + ([sep] + tail);
    }
  }
}
