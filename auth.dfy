/** The bearer-token gate that runs before every route. */
module Auth {
  import opened Wrappers
  import opened Records

  /** `s.split(' ')` in JavaScript: cut at every single space, keeping the empty pieces
      that leading, trailing or doubled spaces produce. */
  function Split(s: string): (parts: seq<string>)
    ensures |parts| >= 1
    ensures forall i :: 0 <= i < |parts| ==> ' ' !in parts[i]
    ensures |parts| == 1 <==> ' ' !in s
  {
    if |s| == 0 then [""]
    else
      var rest := Split(s[1..]);
      assert s == [s[0]] + s[1..];
      if s[0] == ' ' then [""] + rest
      else [[s[0]] + rest[0]] + rest[1..]
  }

  /** The pieces glued back together with single spaces (`parts.join(' ')`). */
  function Join(parts: seq<string>): string
    requires |parts| >= 1
  {
    if |parts| == 1 then parts[0] else parts[0] + " " + Join(parts[1..])
  }

  /** Splitting loses nothing: joining the pieces gives the header back. */
  lemma {:induction false} JoinSplit(s: string)
    ensures Join(Split(s)) == s
  {
    if |s| > 0 {
      JoinSplit(s[1..]);
      var rest := Split(s[1..]);
      if s[0] == ' ' {
        assert Split(s) == [""] + rest;
        assert Split(s)[1..] == rest;
      } else {
        assert Split(s) == [[s[0]] + rest[0]] + rest[1..];
        if |rest| > 1 {
          assert Split(s)[1..] == rest[1..];
        }
      }
    }
  }

  /** A space-free prefix only extends the first piece. */
  lemma {:induction false} SplitWordPrefix(w: string, s: string)
    requires ' ' !in w
    ensures Split(w + s) == [w + Split(s)[0]] + Split(s)[1..]
  {
    var tail := Split(s);
    if |w| > 0 {
      SplitWordPrefix(w[1..], s);
      var inner := Split(w[1..] + s);
      assert inner == [w[1..] + tail[0]] + tail[1..];
      assert (w + s)[1..] == w[1..] + s;
      assert (w + s)[0] == w[0] != ' ';
      assert Split(w + s) == [[w[0]] + inner[0]] + inner[1..];
      assert [w[0]] + inner[0] == w + tail[0];
      assert inner[1..] == tail[1..];
    } else {
      assert w + s == s;
      assert w + tail[0] == tail[0];
      assert tail == [tail[0]] + tail[1..];
    }
  }

  /** Splitting pieces that hold no space, after joining them, gives the pieces back. */
  lemma {:induction false} SplitJoin(parts: seq<string>)
    requires |parts| >= 1
    requires forall i :: 0 <= i < |parts| ==> ' ' !in parts[i]
    ensures Split(Join(parts)) == parts
  {
    if |parts| == 1 {
      SplitWordPrefix(parts[0], "");
      assert parts[0] + "" == parts[0];
    } else {
      SplitJoin(parts[1..]);
      assert parts == [parts[0]] + parts[1..];
      var tail := " " + Join(parts[1..]);
      assert parts[0] + " " + Join(parts[1..]) == parts[0] + tail;
      SplitWordPrefix(parts[0], tail);
      assert tail[0] == ' ' && tail[1..] == Join(parts[1..]);
      assert Split(tail) == [""] + parts[1..];
      assert parts[0] + Split(tail)[0] == parts[0];
      assert Split(tail)[1..] == parts[1..];
    }
  }

  /** `authToken.split(' ')[1]`: the second piece, or `undefined` when there is none. */
  function SecondPart(header: string): Option<string> {
    var parts := Split(header);
    if |parts| >= 2 then Some(parts[1]) else None
  }

  /** The outcome of the gate: call `next()`, or answer at once and stop the chain. */
  datatype Gate = Next | Halt(response: Response)

  const UNAUTHORIZED := Response(401, None, ErrorJson("Unauthorized request"))

  /** `validateBearerToken`: the configured token (`API_TOKEN`, possibly unset) against the
      `Authorization` header (possibly absent). */
  function ValidateBearerToken(apiToken: Option<string>, authorization: Option<string>): (g: Gate)
    ensures g.Halt? ==> g.response == UNAUTHORIZED
    ensures !Present(authorization) ==> g.Halt?
    ensures g.Next? <==>
      Present(authorization) &&
      if ' ' in authorization.value then apiToken == Some(Split(authorization.value)[1])
      else apiToken.None?
  {
    if !Present(authorization) || SecondPart(authorization.value) != apiToken then
      Halt(UNAUTHORIZED)
    else
      Next
  }

  /** A header `<scheme> <token>` whose token equals the configured one passes, whatever
      space-free scheme word precedes it, and so does one with further words after the token. */
  lemma SchemeAndTokenAccepted(scheme: string, token: string, rest: seq<string>)
    requires ' ' !in scheme && ' ' !in token
    requires forall i :: 0 <= i < |rest| ==> ' ' !in rest[i]
    ensures ValidateBearerToken(Some(token), Some(Join([scheme, token] + rest))) == Next
  {
    var parts := [scheme, token] + rest;
    forall i | 0 <= i < |parts| ensures ' ' !in parts[i] {
      if i >= 2 {
        assert parts[i] == rest[i - 2];
      }
    }
    SplitJoin(parts);
    assert SecondPart(Join(parts)) == Some(token);
  }

  /** A header `<scheme> <other> ...` whose second piece differs from the configured token
      (or names one when none is configured) is refused, whatever words surround it. */
  lemma SchemeAndOtherTokenRejected(apiToken: Option<string>, scheme: string, other: string, rest: seq<string>)
    requires ' ' !in scheme && ' ' !in other
    requires forall i :: 0 <= i < |rest| ==> ' ' !in rest[i]
    requires apiToken != Some(other)
    ensures ValidateBearerToken(apiToken, Some(Join([scheme, other] + rest))) == Halt(UNAUTHORIZED)
  {
    var parts := [scheme, other] + rest;
    forall i | 0 <= i < |parts| ensures ' ' !in parts[i] {
      if i >= 2 {
        assert parts[i] == rest[i - 2];
      }
    }
    SplitJoin(parts);
    assert Split(Join(parts))[1] == other;
  }

  /** The usual `Bearer <token>` header passes. */
  lemma BearerAccepted(token: string)
    requires ' ' !in token
    ensures ValidateBearerToken(Some(token), Some("Bearer " + token)) == Next
  {
    SchemeAndTokenAccepted("Bearer", token, []);
    assert Join(["Bearer", token]) == "Bearer " + token;
  }

  /** A `Bearer <other>` header with a different token is refused. */
  lemma OtherTokenRejected(token: string, other: string)
    requires ' ' !in other && other != token
    ensures ValidateBearerToken(Some(token), Some("Bearer " + other)) == Halt(UNAUTHORIZED)
  {
    SplitJoin(["Bearer", other]);
    assert Join(["Bearer", other]) == "Bearer " + other;
  }

  /** With no token configured, any non-empty header without a space passes: its second
      piece is `undefined`, and `undefined !== undefined` is false. */
  lemma UnsetTokenAcceptsOneWord(header: string)
    requires header != "" && ' ' !in header
    ensures ValidateBearerToken(None, Some(header)) == Next
  {
  }

  /** With no token configured, a header holding a space is refused: it has a second piece,
      and a string never equals `undefined`. */
  lemma UnsetTokenRejectsTwoWords(header: string)
    requires ' ' in header
    ensures ValidateBearerToken(None, Some(header)) == Halt(UNAUTHORIZED)
  {
  }

  /** With a token configured, a header without a space is refused. */
  lemma SetTokenRejectsOneWord(token: string, header: string)
    requires ' ' !in header
    ensures ValidateBearerToken(Some(token), Some(header)) == Halt(UNAUTHORIZED)
  {
  }
}
