/**
 * The two Java string utilities the host parser relies on:
 * `Character.isWhitespace` / `StringUtils.isBlank`, and `String.split`
 * with a single literal separator character and the default limit 0.
 */
module JavaText {

  /** `Character.isWhitespace`: the Unicode space, line and paragraph
      separators except the non-breaking ones (U+00A0, U+2007, U+202F),
      plus the control characters U+0009..U+000D and U+001C..U+001F. */
  function IsWhitespace(c: char): (r: bool)
    ensures c == ' ' || c == '\t' || c == '\n' || c == '\r' ==> r
    ensures c == '\U{00A0}' || c == '\U{2007}' || c == '\U{202F}' ==> !r
    ensures r ==> c as int <= 0x3000
  {
    var n := c as int;
    || (0x09 <= n <= 0x0D)
    || (0x1C <= n <= 0x20)
    || n == 0x1680
    || (0x2000 <= n <= 0x2006)
    || (0x2008 <= n <= 0x200A)
    || n == 0x2028 || n == 0x2029
    || n == 0x205F || n == 0x3000
  }

  /** `StringUtils.isBlank` on a non-null string: empty or whitespace only. */
  function IsBlank(s: string): (r: bool)
    ensures |s| == 0 ==> r
    ensures r <==> forall c :: c in s ==> IsWhitespace(c)
  {
    forall i :: 0 <= i < |s| ==> IsWhitespace(s[i])
  }

  /** True iff no piece contains the separator. */
  predicate SeparatorFree(ps: seq<string>, sep: char) {
    forall i :: 0 <= i < |ps| ==> sep !in ps[i]
  }

  /** The pieces joined back together with the separator between them. */
  function Join(ps: seq<string>, sep: char): string
    requires |ps| >= 1
  {
    if |ps| == 1 then ps[0] else ps[0] + [sep] + Join(ps[1..], sep)
  }

  /** All the substrings between occurrences of `sep`, empty ones included
      (a string with n separators has n + 1 pieces). */
  function Pieces(s: string, sep: char): (ps: seq<string>)
    ensures |ps| >= 1
    decreases |s|
  {
    if |s| == 0 then [""]
    else
      var rest := Pieces(s[1..], sep);
      if s[0] == sep then [""] + rest
      else [[s[0]] + rest[0]] + rest[1..]
  }

  /** Drops the empty strings at the end of `ps`, as `String.split` does
      when its limit is zero. */
  function DropTrailingEmpty(ps: seq<string>): (r: seq<string>)
    ensures |r| <= |ps|
    ensures r == ps[..|r|]
    ensures |r| > 0 ==> r[|r| - 1] != ""
    ensures forall i :: |r| <= i < |ps| ==> ps[i] == ""
  {
    if |ps| == 0 then []
    else if ps[|ps| - 1] == "" then DropTrailingEmpty(ps[..|ps| - 1])
    else ps
  }

  /** `s.split(sep)`: the whole string when the separator does not occur,
      otherwise its pieces with trailing empty strings removed: what is cut
      away are empty pieces only, and the last piece kept is not empty. */
  function Split(s: string, sep: char): (r: seq<string>)
    ensures sep !in s ==> r == [s]
    ensures sep in s ==> |r| <= |Pieces(s, sep)|
    ensures sep in s ==> Pieces(s, sep) == r + Empties(|Pieces(s, sep)| - |r|)
    ensures sep in s && |r| > 0 ==> r[|r| - 1] != ""
  {
    if sep !in s then [s] else DropTrailingEmpty(Pieces(s, sep))
  }

  /** A string of n separators. */
  function Separators(sep: char, n: nat): (r: string)
    ensures |r| == n
    ensures forall i :: 0 <= i < n ==> r[i] == sep
  {
    seq(n, _ => sep)
  }

  /** n empty strings. */
  function Empties(n: nat): (r: seq<string>)
    ensures |r| == n
    ensures forall i :: 0 <= i < n ==> r[i] == ""
  {
    seq(n, _ => "")
  }

  /** Joining what `Pieces` cut gives the original string back. */
  lemma {:induction false} JoinPieces(s: string, sep: char)
    ensures Join(Pieces(s, sep), sep) == s
    decreases |s|
  {
    if |s| > 0 {
      var rest := Pieces(s[1..], sep);
      var ps := Pieces(s, sep);
      JoinPieces(s[1..], sep);
      assert s == [s[0]] + s[1..];
      if s[0] == sep {
        assert ps == [""] + rest;
        assert ps[1..] == rest;
      } else if |rest| > 1 {
        assert ps == [[s[0]] + rest[0]] + rest[1..];
        assert ps[1..] == rest[1..];
        assert Join(rest, sep) == rest[0] + [sep] + Join(rest[1..], sep);
      }
    }
  }

  /** No piece cut by `Pieces` contains the separator. */
  lemma {:induction false} PiecesSeparatorFree(s: string, sep: char)
    ensures SeparatorFree(Pieces(s, sep), sep)
    decreases |s|
  {
    if |s| > 0 {
      var rest := Pieces(s[1..], sep);
      var ps := Pieces(s, sep);
      PiecesSeparatorFree(s[1..], sep);
      if s[0] != sep {
        assert ps == [[s[0]] + rest[0]] + rest[1..];
        forall i | 0 <= i < |ps| ensures sep !in ps[i] {
          if i == 0 {
            assert sep !in rest[0];
          } else {
            assert ps[i] == rest[i];
          }
        }
      }
    }
  }

  /** Cutting a string that starts with a separator-free prefix `a`:
      the prefix sticks to the first piece of the remainder. */
  lemma {:induction false} PiecesOfPrefix(a: string, t: string, sep: char)
    requires sep !in a
    ensures Pieces(a + t, sep) == [a + Pieces(t, sep)[0]] + Pieces(t, sep)[1..]
    decreases |a|
  {
    if |a| == 0 {
      var pt := Pieces(t, sep);
      assert a + t == t;
      assert a + pt[0] == pt[0];
      assert pt == [pt[0]] + pt[1..];
    } else {
      PiecesOfPrefix(a[1..], t, sep);
      var pt := Pieces(t, sep);
      var rest := Pieces(a[1..] + t, sep);
      assert (a + t)[1..] == a[1..] + t;
      assert (a + t)[0] == a[0] && a[0] != sep;
      assert Pieces(a + t, sep) == [[a[0]] + rest[0]] + rest[1..];
      assert rest[0] == a[1..] + pt[0];
      assert rest[1..] == pt[1..];
      assert [a[0]] + (a[1..] + pt[0]) == a + pt[0];
    }
  }

  /** `Pieces` inverts `Join` on separator-free pieces. */
  lemma {:induction false} PiecesOfJoin(ps: seq<string>, sep: char)
    requires |ps| >= 1
    requires SeparatorFree(ps, sep)
    ensures Pieces(Join(ps, sep), sep) == ps
    decreases |ps|
  {
    if |ps| == 1 {
      PiecesOfPrefix(ps[0], "", sep);
      assert ps[0] + "" == ps[0];
    } else {
      var t := Join(ps[1..], sep);
      PiecesOfJoin(ps[1..], sep);
      assert Pieces([sep] + t, sep) == [""] + Pieces(t, sep);
      PiecesOfPrefix(ps[0], [sep] + t, sep);
      assert ps[0] + [sep] + t == ps[0] + ([sep] + t);
      assert ([""] + ps[1..])[0] == "";
      assert ([""] + ps[1..])[1..] == ps[1..];
      assert ps[0] + "" == ps[0];
      assert ps == [ps[0]] + ps[1..];
    }
  }

  /** Joining pieces followed by n empty pieces appends n separators. */
  lemma {:induction false} JoinEmpties(ps: seq<string>, n: nat, sep: char)
    requires |ps| >= 1
    ensures Join(ps + Empties(n), sep) == Join(ps, sep) + Separators(sep, n)
    decreases |ps| + n
  {
    if |ps| == 1 {
      if n == 0 {
        assert ps + Empties(0) == ps;
        assert Join(ps, sep) + Separators(sep, 0) == Join(ps, sep);
      } else {
        JoinEmpties([""], n - 1, sep);
        assert (ps + Empties(n))[1..] == [""] + Empties(n - 1);
        assert Join([""] + Empties(n - 1), sep) == Separators(sep, n - 1);
        assert Separators(sep, n) == [sep] + Separators(sep, n - 1);
      }
    } else {
      JoinEmpties(ps[1..], n, sep);
      assert (ps + Empties(n))[1..] == ps[1..] + Empties(n);
      assert (ps + Empties(n))[0] == ps[0];
    }
  }

  /** A string without the separator is a single piece. */
  lemma PiecesWithoutSeparator(s: string, sep: char)
    requires sep !in s
    ensures Pieces(s, sep) == [s]
  {
    PiecesOfPrefix(s, "", sep);
    assert s + "" == s;
  }

  /** `Split` is `Pieces` with the trailing empty pieces removed, except on
      the empty string, which `String.split` returns whole as `[""]`. */
  lemma SplitAgreesWithPieces(s: string, sep: char)
    ensures s != "" ==> Split(s, sep) == DropTrailingEmpty(Pieces(s, sep))
    ensures Split("", sep) == [""] && DropTrailingEmpty(Pieces("", sep)) == []
  {
    if sep !in s {
      PiecesWithoutSeparator(s, sep);
    }
  }

  /** Trailing empty pieces after a non-empty last piece are exactly what
      `DropTrailingEmpty` takes away. */
  lemma DropPadded(r: seq<string>, n: nat)
    requires |r| >= 1 && r[|r| - 1] != ""
    ensures DropTrailingEmpty(r + Empties(n)) == r
  {
    var p := r + Empties(n);
    var d := DropTrailingEmpty(p);
    assert p[|r| - 1] == r[|r| - 1];
    assert |d| == |r|;
    assert d == p[..|r|] == r;
  }
}
