/**
 * The session tokens of server/server.go: `generateSessionToken` writes
 * "<username>_<unix seconds>", and `extractUsernameFromToken` reads the
 * username back as the text before the first underscore.
 */
module Tokens {
  import opened Decimal

  /** `strings.Split(s, string(sep))[0]`: the text of `s` before its first `sep`, all of `s` if none. */
  function BeforeFirst(s: string, sep: char): (r: string)
    ensures r <= s
    ensures sep !in r
    ensures r == s || s[|r|] == sep
  {
    if s == [] then []
    else if s[0] == sep then []
    else [s[0]] + BeforeFirst(s[1..], sep)
  }

  /** `extractUsernameFromToken`. */
  function ExtractUsername(token: string): (username: string)
    ensures token == "" ==> username == ""
    ensures username <= token
    ensures '_' !in username
    ensures username == token || token[|username|] == '_'
  {
    if token == "" then "" else BeforeFirst(token, '_')
  }

  /** `generateSessionToken`, with the clock reading passed in. */
  function GenerateSessionToken(username: string, unixSeconds: int): (token: string)
    ensures |token| > |username| + 1
    ensures token[..|username|] == username && token[|username|] == '_'
    ensures forall k :: |username| < k < |token| ==> token[k] == '-' || '0' <= token[k] <= '9'
  {
    username + "_" + IntToString(unixSeconds)
  }

  /** A username without an underscore survives the trip through a session token. */
  lemma SessionTokenRoundTrip(username: string, unixSeconds: int)
    requires '_' !in username
    ensures ExtractUsername(GenerateSessionToken(username, unixSeconds)) == username
  {
    var token := GenerateSessionToken(username, unixSeconds);
    var u := ExtractUsername(token);
    assert token[|username|] == '_';
    assert u == token[..|u|] && username == token[..|username|];
  }

  /** The round trip fails for a username that contains an underscore: "a_b" comes back as "a". */
  lemma UnderscoreUsernameTruncated(unixSeconds: int)
    ensures ExtractUsername(GenerateSessionToken("a_b", unixSeconds)) == "a"
  {
    var token := GenerateSessionToken("a_b", unixSeconds);
    var u := ExtractUsername(token);
    assert token[0] == 'a' && token[1] == '_';
    assert u == token[..|u|];
  }

  /** The text of `s` before its last `sep`, all of `s` if none. */
  function BeforeLast(s: string, sep: char): (r: string)
    ensures r <= s
    ensures sep !in s ==> r == s
    ensures sep in s ==> |r| < |s| && s[|r|] == sep && sep !in s[|r| + 1..]
  {
    if sep !in s then s
    else if s[|s| - 1] == sep then s[..|s| - 1]
    else
      var r := BeforeLast(s[..|s| - 1], sep);
      assert s[|r| + 1..] == s[..|s| - 1][|r| + 1..] + [s[|s| - 1]];
      r
  }

  /** Username extraction that splits at the last underscore, since the clock part never has one. */
  function ExtractUsernameAtLast(token: string): (username: string)
    ensures token == "" ==> username == ""
    ensures username <= token
  {
    if token == "" then "" else BeforeLast(token, '_')
  }

  /** Every username, underscores included, survives the corrected extraction. */
  lemma SessionTokenRoundTripAtLast(username: string, unixSeconds: int)
    ensures ExtractUsernameAtLast(GenerateSessionToken(username, unixSeconds)) == username
  {
    var digits := IntToString(unixSeconds);
    var token := GenerateSessionToken(username, unixSeconds);
    var u := ExtractUsernameAtLast(token);
    assert token[|username|] == '_';
    assert token[|username| + 1..] == digits;
    assert '_' !in digits;
    assert u == token[..|u|] && username == token[..|username|];
  }
}
