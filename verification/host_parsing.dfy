/**
 * The `host` argument of the receiver's full constructor: either a bare host
 * name, or `host/virtualHost`. The string is cut with Java's `split("/")`,
 * which drops trailing empty pieces, and then indexed without a length check,
 * so some malformed inputs fail with an index error rather than the
 * constructor's own `IllegalArgumentException`.
 */
module HostParsing {
  import opened Wrappers
  import opened JavaText

  /** Where the connection factory is pointed. `None` keeps the factory's
      default virtual host. */
  datatype HostSpec = HostSpec(host: string, virtualHost: Option<string>)

  /** `InvalidHostDefinition` is the explicit `IllegalArgumentException`;
      `IndexOutOfBounds(i)` is the `ArrayIndexOutOfBoundsException` raised by
      reading `parts[i]` of a too-short split. */
  datatype HostError = InvalidHostDefinition | IndexOutOfBounds(index: nat)

  /** The host/virtual-host decision of the receiver's constructor. The
      `||` chain is evaluated left to right and stops at the first true test. */
  function ParseHost(s: string): (r: Result<HostSpec, HostError>)
    ensures r.Success? && r.value.virtualHost.None? ==> r.value.host == s && '/' !in s
    ensures r.Success? && r.value.virtualHost.Some? ==>
              '/' in s && !IsBlank(r.value.host) && !IsBlank(r.value.virtualHost.value)
  {
    if '/' !in s then Success(HostSpec(s, None))
    else
      var parts := Split(s, '/');
      if |parts| > 2 then Failure(InvalidHostDefinition)
      else if |parts| == 0 then Failure(IndexOutOfBounds(0))
      else if IsBlank(parts[0]) then Failure(InvalidHostDefinition)
      else if |parts| == 1 then Failure(IndexOutOfBounds(1))
      else if IsBlank(parts[1]) then Failure(InvalidHostDefinition)
      else Success(HostSpec(parts[0], Some(parts[1])))
  }

  /** A string without "/" is the host itself, with no virtual host. */
  lemma BareHost(s: string)
    requires '/' !in s
    ensures ParseHost(s) == Success(HostSpec(s, None))
  {
  }

  /** Completeness: two non-blank, slash-free parts joined by "/" are
      accepted, however many slashes trail them. */
  lemma AcceptsHostAndVirtualHost(h: string, v: string, n: nat)
    requires '/' !in h && '/' !in v
    requires !IsBlank(h) && !IsBlank(v)
    ensures ParseHost(h + "/" + v + Separators('/', n)) == Success(HostSpec(h, Some(v)))
  {
    var s := h + "/" + v + Separators('/', n);
    assert s[|h|] == '/';
    var ps := [h, v] + Empties(n);
    JoinEmpties([h, v], n, '/');
    assert Join([h, v], '/') == h + "/" + v by {
      assert [h, v][1..] == [v];
    }
    assert SeparatorFree(ps, '/') by {
      forall i | 0 <= i < |ps| ensures '/' !in ps[i] {
        if i >= 2 {
          assert ps[i] == "";
        }
      }
    }
    PiecesOfJoin(ps, '/');
    assert v != "" by {
      assert !IsBlank(v);
    }
    DropPadded([h, v], n);
  }

  /** Soundness: an accepted virtual host came from exactly
      `host + "/" + virtualHost`, followed by nothing but slashes, and
      neither part contains a slash. */
  lemma AcceptedShape(s: string)
    requires ParseHost(s).Success? && ParseHost(s).value.virtualHost.Some?
    ensures var h := ParseHost(s).value.host;
            var v := ParseHost(s).value.virtualHost.value;
            && '/' !in h && '/' !in v
            && |s| >= |h| + |v| + 1
            && s == h + "/" + v + Separators('/', |s| - |h| - |v| - 1)
  {
    var h := ParseHost(s).value.host;
    var v := ParseHost(s).value.virtualHost.value;
    var ps := Pieces(s, '/');
    assert Split(s, '/') == [h, v];
    var m := |ps| - 2;
    assert ps == [h, v] + Empties(m);
    JoinPieces(s, '/');
    PiecesSeparatorFree(s, '/');
    assert ps[0] == h && ps[1] == v;
    JoinEmpties([h, v], m, '/');
    assert Join([h, v], '/') == h + "/" + v by {
      assert [h, v][1..] == [v];
    }
    assert s == h + "/" + v + Separators('/', m);
  }

  /** More than two segments, the last one non-empty, followed by any run
      of slashes, is the explicit `IllegalArgumentException`. */
  lemma RejectsMoreThanTwoSegments(ps: seq<string>, n: nat)
    requires |ps| >= 3
    requires SeparatorFree(ps, '/')
    requires ps[|ps| - 1] != ""
    ensures ParseHost(Join(ps, '/') + Separators('/', n)) == Failure(InvalidHostDefinition)
  {
    var s := Join(ps, '/') + Separators('/', n);
    assert Join(ps, '/') == ps[0] + "/" + Join(ps[1..], '/');
    assert s[|ps[0]|] == '/';
    var qs := ps + Empties(n);
    JoinEmpties(ps, n, '/');
    assert SeparatorFree(qs, '/') by {
      forall i | 0 <= i < |qs| ensures '/' !in qs[i] {
        if i >= |ps| {
          assert qs[i] == "";
        } else {
          assert qs[i] == ps[i];
        }
      }
    }
    PiecesOfJoin(qs, '/');
    DropPadded(ps, n);
  }

  /** A blank (possibly empty) first segment is always rejected, whatever
      follows the first slash. */
  lemma RejectsBlankFirstSegment(h: string, t: string)
    requires '/' !in h && IsBlank(h)
    ensures ParseHost(h + "/" + t).Failure?
  {
    var s := h + "/" + t;
    assert s[|h|] == '/';
    PiecesOfPrefix(h, "/" + t, '/');
    assert h + ("/" + t) == s;
    var pt := Pieces("/" + t, '/');
    assert ("/" + t)[1..] == t;
    assert pt == [""] + Pieces(t, '/');
    assert Pieces(s, '/')[0] == h + "" == h;
  }

  /** A non-blank host followed only by slashes (`"a/"`, `"a//"`) gets past
      the explicit checks and fails reading the missing `parts[1]`. */
  lemma TrailingSlashesOnly(h: string, n: nat)
    requires '/' !in h && !IsBlank(h)
    requires n >= 1
    ensures ParseHost(h + Separators('/', n)) == Failure(IndexOutOfBounds(1))
  {
    var s := h + Separators('/', n);
    assert s[|h|] == '/';
    JoinEmpties([h], n, '/');
    var ps := [h] + Empties(n);
    assert SeparatorFree(ps, '/') by {
      forall i | 0 <= i < |ps| ensures '/' !in ps[i] {
        if i >= 1 {
          assert ps[i] == "";
        }
      }
    }
    PiecesOfJoin(ps, '/');
    assert h != "";
    DropPadded([h], n);
  }

  /** The two edge cases of the trailing-slash rule. */
  lemma TrailingSlashExamples()
    ensures ParseHost("a/") == Failure(IndexOutOfBounds(1))
    ensures ParseHost("a/b/") == Success(HostSpec("a", Some("b")))
  {
    assert !IsBlank("a") by {
      assert "a"[0] == 'a' && !IsWhitespace('a');
    }
    assert !IsBlank("b") by {
      assert "b"[0] == 'b' && !IsWhitespace('b');
    }
    TrailingSlashesOnly("a", 1);
    assert "a" + Separators('/', 1) == "a/";
    AcceptsHostAndVirtualHost("a", "b", 1);
    assert "a" + "/" + "b" + Separators('/', 1) == "a/b/";
  }
}
