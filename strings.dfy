/**
 * `String.prototype.split` and `Array.prototype.join` over `seq<char>`, for a
 * non-empty separator, with the facts the name parser needs about them.
 */
module Strings {

  /** `s.startsWith(p)`. */
  predicate IsPrefix(p: string, s: string)
  {
    |p| <= |s| && s[..|p|] == p
  }

  /** `s.includes(sub)`: some position of `s` starts an occurrence of `sub`. */
  predicate Contains(s: string, sub: string)
    decreases |s|
  {
    IsPrefix(sub, s) || (|s| > 0 && Contains(s[1..], sub))
  }

  /** `s.split(sep)`: the pieces between the occurrences of `sep`, found left to right. */
  function Split(s: string, sep: string): (parts: seq<string>)
    requires |sep| > 0
    ensures |parts| >= 1
    decreases |s|
  {
    if IsPrefix(sep, s) then [""] + Split(s[|sep|..], sep)
    else if |s| == 0 then [""]
    else
      var rest := Split(s[1..], sep);
      [[s[0]] + rest[0]] + rest[1..]
  }

  /** `parts.join(sep)`. */
  function Join(parts: seq<string>, sep: string): string
    decreases |parts|
  {
    if |parts| == 0 then ""
    else if |parts| == 1 then parts[0]
    else parts[0] + sep + Join(parts[1..], sep)
  }

  /** No proper prefix of `sep` is also a suffix of it (so two occurrences never overlap). */
  predicate Unbordered(sep: string)
  {
    forall k :: 0 < k < |sep| ==> sep[..k] != sep[|sep| - k..]
  }

  /** Prepending a character to the first piece prepends it to the joined string. */
  lemma JoinCons(c: char, p: string, ps: seq<string>, sep: string)
    ensures Join([[c] + p] + ps, sep) == [c] + Join([p] + ps, sep)
  {
    if |ps| > 0 {
      assert ([[c] + p] + ps)[1..] == ps;
      assert ([p] + ps)[1..] == ps;
    }
  }

  /** An empty first piece contributes only the separator. */
  lemma JoinEmptyFirst(ps: seq<string>, sep: string)
    requires |ps| >= 1
    ensures Join([""] + ps, sep) == sep + Join(ps, sep)
  {
    assert ([""] + ps)[1..] == ps;
  }

  /** A string that starts with the separator splits into an empty piece and the split of the rest. */
  lemma SplitAtSep(sep: string, rest: string)
    requires |sep| > 0
    ensures Split(sep + rest, sep) == [""] + Split(rest, sep)
  {
    assert (sep + rest)[..|sep|] == sep;
    assert (sep + rest)[|sep|..] == rest;
  }

  /** Joining the pieces of a split with the same separator gives the string back. */
  lemma {:induction false} JoinSplit(s: string, sep: string)
    requires |sep| > 0
    ensures Join(Split(s, sep), sep) == s
    decreases |s|
  {
    if IsPrefix(sep, s) {
      var tail := s[|sep|..];
      JoinSplit(tail, sep);
      JoinEmptyFirst(Split(tail, sep), sep);
      assert s == sep + tail;
    } else if |s| > 0 {
      var rest := Split(s[1..], sep);
      JoinSplit(s[1..], sep);
      assert rest == [rest[0]] + rest[1..];
      JoinCons(s[0], rest[0], rest[1..], sep);
      assert s == [s[0]] + s[1..];
    }
  }

  /** The first piece of a split is a prefix of the string. */
  lemma FirstPieceIsPrefix(s: string, sep: string)
    requires |sep| > 0
    ensures IsPrefix(Split(s, sep)[0], s)
  {
    var parts := Split(s, sep);
    JoinSplit(s, sep);
    if |parts| > 1 {
      assert Join(parts, sep) == parts[0] + (sep + Join(parts[1..], sep));
    }
  }

  /** Prefixes compose. */
  lemma PrefixOfConcat(p: string, rest: string)
    ensures IsPrefix(p, p + rest)
  {
    assert (p + rest)[..|p|] == p;
  }

  lemma PrefixSplit(p: string, s: string)
    requires IsPrefix(p, s)
    ensures s == p + s[|p|..]
  {
  }

  /** Joining two pieces, after any prefix. */
  lemma JoinPair(prefix: string, a: string, b: string, sep: string)
    ensures prefix + Join([a, b], sep) == prefix + a + sep + b
  {
    assert [a, b][1..] == [b];
    assert Join([a, b], sep) == a + sep + b;
  }

  lemma PrefixTrans(p: string, q: string, s: string)
    requires IsPrefix(q, s)
    ensures IsPrefix(p, q) ==> IsPrefix(p, s)
  {
    if IsPrefix(p, q) {
      assert s[..|p|] == q[..|p|];
    }
  }

  /** The pieces of a split never contain the separator. */
  lemma {:induction false} SplitPiecesAvoidSep(s: string, sep: string, i: nat)
    requires |sep| > 0 && i < |Split(s, sep)|
    ensures !Contains(Split(s, sep)[i], sep)
    decreases |s|
  {
    if IsPrefix(sep, s) {
      if i > 0 {
        SplitPiecesAvoidSep(s[|sep|..], sep, i - 1);
      }
    } else if |s| > 0 {
      var rest := Split(s[1..], sep);
      if i == 0 {
        SplitPiecesAvoidSep(s[1..], sep, 0);
        var piece := [s[0]] + rest[0];
        assert piece[1..] == rest[0];
        FirstPieceIsPrefix(s[1..], sep);
        assert IsPrefix(piece, s) by {
          assert s == [s[0]] + s[1..];
        }
        PrefixTrans(sep, piece, s);
      } else {
        SplitPiecesAvoidSep(s[1..], sep, i);
      }
    }
  }

  /** A string without the separator splits into itself alone. */
  lemma {:induction false} SplitWhole(x: string, sep: string)
    requires |sep| > 0 && !Contains(x, sep)
    ensures Split(x, sep) == [x]
    decreases |x|
  {
    if |x| > 0 {
      SplitWhole(x[1..], sep);
      assert x == [x[0]] + x[1..];
    }
  }

  /** With an unbordered separator, no occurrence starts inside an occurrence-free lead piece. */
  lemma NoEarlyOccurrence(x: string, sep: string, rest: string)
    requires 0 < |x| && |sep| > 0 && Unbordered(sep) && !Contains(x, sep)
    ensures !IsPrefix(sep, x + sep + rest)
  {
    var s := x + sep + rest;
    if |x| >= |sep| {
      assert s[..|sep|] == x[..|sep|];
    } else {
      var k := |sep| - |x|;
      assert s[|x|..|sep|] == sep[..k];
      assert sep[..k] != sep[|sep| - k..];
      assert s[..|sep|][|x|..] == s[|x|..|sep|];
      assert sep[|x|..] == sep[|sep| - k..];
    }
  }

  /**
   * An occurrence-free lead piece followed by an unbordered separator is split
   * off as the first piece.
   */
  lemma {:induction false} SplitLeading(x: string, sep: string, rest: string)
    requires |sep| > 0 && Unbordered(sep) && !Contains(x, sep)
    ensures Split(x + sep + rest, sep) == [x] + Split(rest, sep)
    decreases |x|
  {
    var s := x + sep + rest;
    if |x| == 0 {
      assert s == sep + rest;
      assert s[|sep|..] == rest;
    } else {
      NoEarlyOccurrence(x, sep, rest);
      SplitLeading(x[1..], sep, rest);
      assert s[1..] == x[1..] + sep + rest;
      assert x == [x[0]] + x[1..];
    }
  }

  /** Splitting a join of occurrence-free pieces on an unbordered separator gives the pieces back. */
  lemma {:induction false} SplitJoin(xs: seq<string>, sep: string)
    requires |xs| >= 1 && |sep| > 0 && Unbordered(sep)
    requires forall i :: 0 <= i < |xs| ==> !Contains(xs[i], sep)
    ensures Split(Join(xs, sep), sep) == xs
    decreases |xs|
  {
    if |xs| == 1 {
      SplitWhole(xs[0], sep);
    } else {
      SplitJoin(xs[1..], sep);
      SplitLeading(xs[0], sep, Join(xs[1..], sep));
    }
  }

  /** An occurrence of `sub` starts in the last `m` characters of `a` and ends in `b`. */
  predicate StraddleAt(a: string, b: string, sub: string, m: int)
  {
    0 < m < |sub| && m <= |a| && a[|a| - m..] == sub[..m] && IsPrefix(sub[m..], b)
  }

  /** If neither part contains `sub` and no occurrence straddles the seam, `a + b` does not contain it. */
  lemma {:induction false} NotContainsConcat(a: string, b: string, sub: string)
    requires !Contains(a, sub) && !Contains(b, sub)
    requires forall m :: !StraddleAt(a, b, sub, m)
    ensures !Contains(a + b, sub)
    decreases |a|
  {
    if |a| == 0 {
      assert a + b == b;
    } else {
      if |sub| <= |a| {
        assert (a + b)[..|sub|] == a[..|sub|];
      } else {
        assert !StraddleAt(a, b, sub, |a|);
        assert a[|a| - |a|..] == a;
        assert (a + b)[..|a|] == a;
        assert (a + b)[|a|..] == b;
      }
      forall m ensures !StraddleAt(a[1..], b, sub, m) {
        if 0 < m <= |a[1..]| {
          assert a[1..][|a[1..]| - m..] == a[|a| - m..];
        }
        assert !StraddleAt(a, b, sub, m);
      }
      NotContainsConcat(a[1..], b, sub);
      assert (a + b)[1..] == a[1..] + b;
    }
  }

  /** A string that contains `sub` contains every prefix of `sub`. */
  lemma {:induction false} ContainsPrefixOf(s: string, p: string, sub: string)
    requires IsPrefix(p, sub)
    ensures Contains(s, sub) ==> Contains(s, p)
    decreases |s|
  {
    if IsPrefix(sub, s) {
      assert s[..|p|] == sub[..|p|];
    } else if |s| > 0 {
      ContainsPrefixOf(s[1..], p, sub);
    }
  }

  /** A string none of whose characters is the first of `sub` does not contain `sub`. */
  lemma {:induction false} LacksFirstChar(s: string, sub: string)
    requires |sub| > 0 && forall i :: 0 <= i < |s| ==> s[i] != sub[0]
    ensures !Contains(s, sub)
    decreases |s|
  {
    if |s| > 0 {
      LacksFirstChar(s[1..], sub);
      if |sub| <= |s| {
        assert s[..|sub|][0] == s[0];
      }
    }
  }

  /** A separator whose first character occurs nowhere else in it is unbordered. */
  lemma UniqueFirstUnbordered(sep: string)
    requires |sep| > 0 && forall i :: 0 < i < |sep| ==> sep[i] != sep[0]
    ensures Unbordered(sep)
  {
    forall k | 0 < k < |sep| ensures sep[..k] != sep[|sep| - k..] {
      assert sep[..k][0] == sep[0];
      assert sep[|sep| - k..][0] == sep[|sep| - k];
    }
  }

  /** No suffix of `conn` shorter than `sub` begins an occurrence of `sub`. */
  predicate NoStraddleOutOf(conn: string, sub: string)
  {
    forall m :: 0 < m < |sub| && m <= |conn| ==> conn[|conn| - m..] != sub[..m]
  }

  /** No proper suffix of `sub` is compatible with the beginning of `conn`. */
  predicate NoStraddleInto(sub: string, conn: string)
  {
    forall m :: 0 < m < |sub| ==> !IsPrefix(sub[m..], conn) && !IsPrefix(conn, sub[m..])
  }

  /** If `sub` starts with a character absent from `conn`, nothing straddles out of `conn`. */
  lemma NoStraddleOutOfByChar(conn: string, sub: string)
    requires |sub| > 0 && forall j :: 0 <= j < |conn| ==> conn[j] != sub[0]
    ensures NoStraddleOutOf(conn, sub)
  {
    forall m | 0 < m < |sub| && m <= |conn| ensures conn[|conn| - m..] != sub[..m] {
      assert conn[|conn| - m..][0] == conn[|conn| - m];
      assert sub[..m][0] == sub[0];
    }
  }

  /** If no later character of `sub` is the first of `conn`, nothing straddles into `conn`. */
  lemma NoStraddleIntoByChar(sub: string, conn: string)
    requires |conn| > 0 && forall m :: 0 < m < |sub| ==> sub[m] != conn[0]
    ensures NoStraddleInto(sub, conn)
  {
    forall m | 0 < m < |sub| ensures !IsPrefix(sub[m..], conn) && !IsPrefix(conn, sub[m..]) {
      assert sub[m..][0] == sub[m];
      if |sub[m..]| <= |conn| {
        assert conn[..|sub[m..]|][0] == conn[0];
      }
      if |conn| <= |sub[m..]| {
        assert sub[m..][..|conn|][0] == sub[m];
      }
    }
  }

  lemma NoStraddleBeforeConn(a: string, conn: string, tail: string, sub: string)
    requires NoStraddleInto(sub, conn)
    ensures forall m :: !StraddleAt(a, conn + tail, sub, m)
  {
    forall m ensures !StraddleAt(a, conn + tail, sub, m) {
      if 0 < m < |sub| {
        var rest := sub[m..];
        if |rest| <= |conn| {
          assert |rest| <= |conn + tail| ==> (conn + tail)[..|rest|] == conn[..|rest|];
        } else {
          assert |rest| <= |conn + tail| ==> (conn + tail)[..|rest|][..|conn|] == conn;
        }
      }
    }
  }

  lemma NoStraddleAfterConn(conn: string, b: string, sub: string)
    requires NoStraddleOutOf(conn, sub)
    ensures forall m :: !StraddleAt(conn, b, sub, m)
  {
  }

  /**
   * Joining pieces free of `sub` with a connector that neither contains `sub`
   * nor can combine with a neighbour into `sub` yields a string free of `sub`.
   */
  lemma {:induction false} JoinAvoids(xs: seq<string>, conn: string, sub: string)
    requires forall i :: 0 <= i < |xs| ==> !Contains(xs[i], sub)
    requires !Contains(conn, sub) && NoStraddleOutOf(conn, sub) && NoStraddleInto(sub, conn)
    ensures !Contains(Join(xs, conn), sub)
    decreases |xs|
  {
    if |xs| == 0 {
      assert conn[..0] == "";
    } else if |xs| > 1 {
      var tail := Join(xs[1..], conn);
      JoinAvoids(xs[1..], conn, sub);
      assert Join(xs, conn) == xs[0] + (conn + tail);
      NoStraddleAfterConn(conn, tail, sub);
      NotContainsConcat(conn, tail, sub);
      NoStraddleBeforeConn(xs[0], conn, tail, sub);
      NotContainsConcat(xs[0], conn + tail, sub);
    }
  }
}
