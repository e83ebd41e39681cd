/**
 * The JavaScript string operations the controller relies on:
 * `String.prototype.split` with a one-character separator, ASCII `toLowerCase`,
 * and the bearer-token extraction `authHeader && authHeader.split(" ")[1]`.
 */
module JsText {
  import opened Wrappers

  /** `s.split(sep)`: the maximal runs between separators, empty runs included. */
  function Split(s: string, sep: char): (fields: seq<string>)
    ensures |fields| >= 1
    ensures forall i :: 0 <= i < |fields| ==> sep !in fields[i]
    ensures sep !in s ==> fields == [s]
    decreases |s|
  {
    if s == [] then [[]]
    else
      var rest := Split(s[1..], sep);
      if s[0] == sep then [[]] + rest
      else
        assert s == [s[0]] + s[1..];
        [[s[0]] + rest[0]] + rest[1..]
  }

  /** `fields.join(sep)`, the inverse of Split. */
  function Join(fields: seq<string>, sep: char): string
    requires |fields| >= 1
    decreases |fields|
  {
    if |fields| == 1 then fields[0] else fields[0] + [sep] + Join(fields[1..], sep)
  }

  /** Splitting loses nothing: joining the fields gives the string back. */
  lemma {:induction false} JoinSplit(s: string, sep: char)
    ensures Join(Split(s, sep), sep) == s
    decreases |s|
  {
    if s != [] {
      var rest := Split(s[1..], sep);
      JoinSplit(s[1..], sep);
      if s[0] == sep {
        assert Split(s, sep)[1..] == rest;
      } else if |rest| > 1 {
        assert Split(s, sep)[1..] == rest[1..];
        assert Join(rest, sep) == rest[0] + [sep] + Join(rest[1..], sep);
        assert s == [s[0]] + s[1..];
      } else {
        assert s == [s[0]] + s[1..];
      }
    }
  }

  /** The first field ends at the first separator. */
  lemma {:induction false} SplitFirst(p: string, q: string, sep: char)
    requires sep !in p
    ensures Split(p + [sep] + q, sep) == [p] + Split(q, sep)
    decreases |p|
  {
    var s := p + [sep] + q;
    if p == [] {
      assert s[1..] == q;
    } else {
      assert s[1..] == p[1..] + [sep] + q;
      SplitFirst(p[1..], q, sep);
      assert [p[0]] + p[1..] == p;
    }
  }

  /**
   * The token of an `Authorization` header: field 1 of the header split on
   * one space, when the header is present and that field is non-empty. The
   * scheme in field 0 is never looked at.
   */
  function BearerToken(authorization: Option<string>): (token: Option<string>)
    ensures token.Some? ==> token.value != [] && ' ' !in token.value
    ensures authorization.None? || ' ' !in authorization.value ==> token.None?
  {
    match authorization
    case None => None
    case Some(header) =>
      var fields := Split(header, ' ');
      if |fields| < 2 || fields[1] == [] then None else Some(fields[1])
  }

  /** Any one-word scheme followed by one space and the token yields that token,
    * with or without further space-separated fields after it. */
  lemma {:induction false} BearerTokenOf(scheme: string, token: string, trailer: string)
    requires ' ' !in scheme && ' ' !in token && token != []
    ensures BearerToken(Some(scheme + " " + token)) == Some(token)
    ensures BearerToken(Some(scheme + " " + token + " " + trailer)) == Some(token)
  {
    SplitFirst(scheme, token, ' ');
    SplitFirst(scheme, token + " " + trailer, ' ');
    SplitFirst(token, trailer, ' ');
    assert scheme + " " + token + " " + trailer == scheme + [' '] + (token + [' '] + trailer);
  }

  /** Conversely, a token found in a header is its second space-separated field. */
  lemma BearerTokenSound(header: string, token: string) returns (scheme: string, trailer: string)
    requires BearerToken(Some(header)) == Some(token)
    ensures ' ' !in scheme
    ensures header == scheme + " " + token + trailer
    ensures trailer == [] || trailer[0] == ' '
  {
    var fields := Split(header, ' ');
    JoinSplit(header, ' ');
    scheme := fields[0];
    if |fields| == 2 {
      trailer := [];
      assert Join(fields[1..], ' ') == fields[1];
    } else {
      trailer := " " + Join(fields[2..], ' ');
      assert fields[1..][1..] == fields[2..];
      assert Join(fields[1..], ' ') == fields[1] + [' '] + Join(fields[2..], ' ');
    }
  }

  function LowerChar(c: char): char
  {
    if 'A' <= c <= 'Z' then (c as int + 32) as char else c
  }

  /** `s.toLowerCase()` restricted to ASCII letters. */
  function LowerAscii(s: string): (r: string)
    ensures |r| == |s|
    ensures forall i :: 0 <= i < |s| ==> r[i] == LowerChar(s[i])
    decreases |s|
  {
    if s == [] then [] else [LowerChar(s[0])] + LowerAscii(s[1..])
  }
}
