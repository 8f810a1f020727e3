/** How the middleware and the handlers read the bearer token: the
    `authorization` header (lower-case key first), split on spaces. */
module Headers {
  import opened Json
  import opened Model

  /** `req.headers["authorization"] ?? req.headers["Authorization"]`: the
      lower-case key wins whenever it is present, even with an empty value. */
  function AuthHeader(headers: map<string, string>): (h: Option<string>)
    ensures h.Some? <==> "authorization" in headers || "Authorization" in headers
    ensures "authorization" in headers ==> h == Some(headers["authorization"])
    ensures "authorization" !in headers && "Authorization" in headers ==> h == Some(headers["Authorization"])
  {
    if "authorization" in headers then Some(headers["authorization"])
    else if "Authorization" in headers then Some(headers["Authorization"])
    else None
  }

  /** JavaScript's `s.split(sep)` for a one-character separator: the maximal
      separator-free pieces, empty ones included. */
  function Split(s: string, sep: char): (parts: seq<string>)
    ensures |parts| >= 1
    ensures forall i :: 0 <= i < |parts| ==> sep !in parts[i]
    ensures sep !in s ==> parts == [s]
    ensures sep in s ==> |parts| >= 2
    decreases |s|
  {
    if s == [] then [""]
    else
      var rest := Split(s[1..], sep);
      if s[0] == sep then [""] + rest
      else
        assert s == [s[0]] + s[1..];
        [[s[0]] + rest[0]] + rest[1..]
  }

  /** `parts.join(sep)`. */
  function Join(parts: seq<string>, sep: char): string
    decreases |parts|
  {
    if parts == [] then ""
    else if |parts| == 1 then parts[0]
    else parts[0] + [sep] + Join(parts[1..], sep)
  }

  /** Splitting loses nothing: joining the pieces back gives the string. */
  lemma {:induction false} SplitJoin(s: string, sep: char)
    ensures Join(Split(s, sep), sep) == s
    decreases |s|
  {
    if s != [] {
      var rest := Split(s[1..], sep);
      SplitJoin(s[1..], sep);
      if s[0] == sep {
        assert ([""] + rest)[1..] == rest;
        assert [s[0]] + s[1..] == s;
      } else if |rest| == 1 {
        assert [s[0]] + s[1..] == s;
      } else {
        var parts := [[s[0]] + rest[0]] + rest[1..];
        assert parts[1..] == rest[1..];
        assert Join(rest, sep) == rest[0] + [sep] + Join(rest[1..], sep);
        assert [s[0]] + s[1..] == s;
      }
    }
  }

  /** The pieces after the first separator are the pieces of what follows it. */
  lemma {:induction false} SplitAtFirst(a: string, sep: char, b: string)
    requires sep !in a
    ensures Split(a + [sep] + b, sep) == [a] + Split(b, sep)
    decreases |a|
  {
    var s := a + [sep] + b;
    if a == [] {
      assert s[0] == sep && s[1..] == b;
    } else {
      assert s[0] == a[0] && s[1..] == a[1..] + [sep] + b;
      SplitAtFirst(a[1..], sep, b);
      assert [a[0]] + a[1..] == a;
    }
  }

  /** `const [, token] = authToken.split(" ")`: the second space-separated
      piece, absent when the header holds no space. */
  function BearerToken(header: string): (token: Option<string>)
    ensures token.Some? <==> ' ' in header
    ensures token.Some? ==> ' ' !in token.value
  {
    var parts := Split(header, ' ');
    if |parts| >= 2 then Some(parts[1]) else None
  }

  /** For `"<scheme> <token>"` the token read is exactly `<token>`. */
  lemma BearerTokenOf(scheme: string, token: string)
    requires ' ' !in scheme && ' ' !in token
    ensures BearerToken(scheme + " " + token) == Some(token)
  {
    SplitAtFirst(scheme, ' ', token);
  }

  /** The state-store key a handler looks its session up under. */
  function SessionKey(headers: map<string, string>): Option<string>
    requires AuthHeader(headers).Some?
  {
    BearerToken(AuthHeader(headers).value)
  }

  /** `state.get("user", token)` for the request's bearer token. */
  function CurrentUser(user: map<string, Session>, headers: map<string, string>): (s: Option<Session>)
    requires AuthHeader(headers).Some?
    ensures s.Some? <==> SessionKey(headers).Some? && SessionKey(headers).value in user
    ensures s.Some? ==> s.value == user[SessionKey(headers).value]
  {
    var token := SessionKey(headers);
    if token.Some? && token.value in user then Some(user[token.value]) else None
  }
}
