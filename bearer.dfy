/**
 * The `Authorization` header parsing shared by the auth middleware and the
 * token-validation endpoint of the user service: JavaScript's
 * `startsWith("Bearer")` followed by `split(" ")[1]`, with the exact string
 * semantics of those two calls.
 */
module Bearer {
  import opened Wrappers

  /**
   * JavaScript's `s.split(sep)` for a one-character separator: the pieces
   * between consecutive separators, empty pieces included, and always at
   * least one piece.
   */
  function Split(s: string, sep: char): (pieces: seq<string>)
    ensures |pieces| >= 1
    ensures forall i :: 0 <= i < |pieces| ==> sep !in pieces[i]
    decreases |s|
  {
    if s == [] then [""]
    else
      var rest := Split(s[1..], sep);
      if s[0] == sep then [""] + rest
      else [[s[0]] + rest[0]] + rest[1..]
  }

  /** JavaScript's `pieces.join(sep)`. */
  function Join(pieces: seq<string>, sep: char): string
    requires |pieces| >= 1
    decreases |pieces|
  {
    if |pieces| == 1 then pieces[0]
    else pieces[0] + [sep] + Join(pieces[1..], sep)
  }

  /** Splitting loses nothing: joining the pieces gives the string back. */
  lemma {:induction false} JoinSplit(s: string, sep: char)
    ensures Join(Split(s, sep), sep) == s
    decreases |s|
  {
    if s != [] {
      var rest := Split(s[1..], sep);
      JoinSplit(s[1..], sep);
      assert s == [s[0]] + s[1..];
      if s[0] == sep {
        assert Split(s, sep) == [""] + rest;
        assert ([""] + rest)[1..] == rest;
      } else {
        var pieces := [[s[0]] + rest[0]] + rest[1..];
        assert Split(s, sep) == pieces;
        if |rest| > 1 {
          assert pieces[1..] == rest[1..];
        }
      }
    }
  }

  /** A word without separators is a single piece. */
  lemma {:induction false} SplitWord(w: string, sep: char)
    requires sep !in w
    ensures Split(w, sep) == [w]
    decreases |w|
  {
    if w != [] {
      SplitWord(w[1..], sep);
      assert [w[0]] + w[1..] == w;
    }
  }

  /** A separator-free word followed by a separator opens the piece list. */
  lemma {:induction false} SplitWordThenSep(w: string, sep: char, t: string)
    requires sep !in w
    ensures Split(w + [sep] + t, sep) == [w] + Split(t, sep)
    decreases |w|
  {
    var s := w + [sep] + t;
    if w == [] {
      assert s == [sep] + t;
      assert s[1..] == t;
    } else {
      assert s[0] == w[0];
      assert s[1..] == w[1..] + [sep] + t;
      SplitWordThenSep(w[1..], sep, t);
      assert [w[0]] + w[1..] == w;
    }
  }

  /** Joining separator-free pieces and splitting again gives the pieces back. */
  lemma {:induction false} SplitJoin(pieces: seq<string>, sep: char)
    requires |pieces| >= 1
    requires forall i :: 0 <= i < |pieces| ==> sep !in pieces[i]
    ensures Split(Join(pieces, sep), sep) == pieces
    decreases |pieces|
  {
    if |pieces| == 1 {
      SplitWord(pieces[0], sep);
    } else {
      SplitJoin(pieces[1..], sep);
      SplitWordThenSep(pieces[0], sep, Join(pieces[1..], sep));
      assert [pieces[0]] + pieces[1..] == pieces;
    }
  }

  /** The scheme prefix the header must start with; note: no trailing space. */
  const Scheme: string := "Bearer"

  /** JavaScript's `s.startsWith(prefix)`: `s` is `prefix` followed by the rest of `s`. */
  predicate StartsWith(s: string, prefix: string)
    ensures StartsWith(s, prefix) <==> |prefix| <= |s| && s == prefix + s[|prefix|..]
  {
    |prefix| <= |s| && s[..|prefix|] == prefix
  }

  /**
   * The token both `authenticateToken` and `validateToken` extract: for a
   * header that is present and starts with "Bearer", the piece at index 1 of
   * `split(" ")`; None when the header is absent, has another prefix, or that
   * piece is missing or empty (both falsy in JavaScript). An empty header is
   * falsy too, and it never starts with "Bearer".
   */
  function BearerToken(authorization: Option<string>): (t: Option<string>)
    ensures authorization.None? ==> t.None?
    ensures authorization.Some? && !StartsWith(authorization.value, Scheme) ==> t.None?
    ensures t.Some? ==> t.value != "" && ' ' !in t.value
    ensures t.Some? <==>
      && authorization.Some? && StartsWith(authorization.value, Scheme)
      && |Split(authorization.value, ' ')| >= 2 && Split(authorization.value, ' ')[1] != ""
    ensures t.Some? ==> t.value == Split(authorization.value, ' ')[1]
  {
    if authorization.Some? && StartsWith(authorization.value, Scheme) then
      var pieces := Split(authorization.value, ' ');
      if |pieces| >= 2 && pieces[1] != "" then Some(pieces[1]) else None
    else None
  }

  /** The conventional header `Bearer <token>` yields exactly the token. */
  lemma ConventionalHeader(token: string)
    requires token != "" && ' ' !in token
    ensures BearerToken(Some(Scheme + " " + token)) == Some(token)
  {
    var h := Scheme + " " + token;
    assert h == Join([Scheme, token], ' ');
    SplitJoin([Scheme, token], ' ');
    assert h[..|Scheme|] == Scheme;
  }

  /**
   * Because the test is `startsWith("Bearer")` without a space, any word
   * that merely begins with "Bearer" is accepted as the scheme.
   */
  lemma SchemeNeedNotEndTheWord(suffix: string, token: string)
    requires ' ' !in suffix
    requires token != "" && ' ' !in token
    ensures BearerToken(Some(Scheme + suffix + " " + token)) == Some(token)
  {
    var h := Scheme + suffix + " " + token;
    assert ' ' !in Scheme + suffix;
    assert h == Join([Scheme + suffix, token], ' ');
    SplitJoin([Scheme + suffix, token], ' ');
    assert h[..|Scheme|] == Scheme;
  }

  /** Two spaces after the scheme leave an empty piece at index 1: no token. */
  lemma DoubleSpaceHasNoToken(token: string)
    requires ' ' !in token
    ensures BearerToken(Some(Scheme + "  " + token)) == None
  {
    var h := Scheme + "  " + token;
    assert Join(["", token], ' ') == " " + token by {
      assert ["", token][1..] == [token];
    }
    assert [Scheme, "", token][1..] == ["", token];
    assert h == Join([Scheme, "", token], ' ');
    SplitJoin([Scheme, "", token], ' ');
  }

  /** The scheme alone, with or without a trailing space, carries no token. */
  lemma SchemeAloneHasNoToken()
    ensures BearerToken(Some(Scheme)) == None
    ensures BearerToken(Some(Scheme + " ")) == None
  {
    SplitWord(Scheme, ' ');
    assert Scheme + " " == Join([Scheme, ""], ' ');
    SplitJoin([Scheme, ""], ' ');
  }

  /** The scheme is compared case-sensitively. */
  lemma LowerCaseSchemeRejected(rest: string)
    ensures BearerToken(Some("bearer" + rest)) == None
  {
    assert ("bearer" + rest)[0] == 'b';
  }
}
