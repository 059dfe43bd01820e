/**
 * The splitting that java.util.StringTokenizer performs with one delimiter
 * character and delimiters not returned: the tokens are the maximal non-empty
 * runs of non-delimiter characters, so empty tokens are never produced.
 */
module Tokenizer {

  predicate IsToken(t: string, delim: char) {
    t != [] && delim !in t
  }

  /** The token begun so far, if it is not empty. */
  function Flush(current: string): seq<string> {
    if current == [] then [] else [current]
  }

  /** The tokens of `s`, when `current` holds the characters of a token begun before `s`. */
  function TokensFrom(s: string, delim: char, current: string): (r: seq<string>)
    requires delim !in current
    ensures forall k :: 0 <= k < |r| ==> IsToken(r[k], delim)
    decreases |s|
  {
    if s == [] then Flush(current)
    else if s[0] == delim then Flush(current) + TokensFrom(s[1..], delim, [])
    else TokensFrom(s[1..], delim, current + [s[0]])
  }

  function Tokens(s: string, delim: char): (r: seq<string>)
    ensures forall k :: 0 <= k < |r| ==> IsToken(r[k], delim)
  {
    TokensFrom(s, delim, [])
  }

  /** The tokens written back with one delimiter between neighbours. */
  function Join(ts: seq<string>, delim: char): string {
    if ts == [] then []
    else if |ts| == 1 then ts[0]
    else ts[0] + [delim] + Join(ts[1..], delim)
  }

  /** Characters without a delimiter extend the token being read. */
  lemma {:induction false} TokensFromRun(t: string, rest: string, delim: char, current: string)
    requires delim !in current && delim !in t
    ensures TokensFrom(t + rest, delim, current) == TokensFrom(rest, delim, current + t)
    decreases |t|
  {
    if t == [] {
      assert t + rest == rest;
      assert current + t == current;
    } else {
      assert (t + rest)[0] == t[0];
      assert (t + rest)[1..] == t[1..] + rest;
      TokensFromRun(t[1..], rest, delim, current + [t[0]]);
      assert current + [t[0]] + t[1..] == current + t;
    }
  }

  /** A string without delimiters is one token, or none when it is empty. */
  lemma TokensWithoutDelimiter(s: string, delim: char)
    requires delim !in s
    ensures Tokens(s, delim) == Flush(s)
  {
    TokensFromRun(s, [], delim, []);
    assert s + [] == s;
    assert [] + s == s;
  }

  /** Joining tokens and splitting them again gives the tokens back. */
  lemma {:induction false} TokensOfJoin(ts: seq<string>, delim: char)
    requires forall k :: 0 <= k < |ts| ==> IsToken(ts[k], delim)
    ensures Tokens(Join(ts, delim), delim) == ts
    decreases |ts|
  {
    if ts == [] {
    } else if |ts| == 1 {
      TokensWithoutDelimiter(ts[0], delim);
    } else {
      var rest := Join(ts[1..], delim);
      TokensFromRun(ts[0], [delim] + rest, delim, []);
      assert ts[0] + [delim] + rest == ts[0] + ([delim] + rest);
      assert [] + ts[0] == ts[0];
      assert ([delim] + rest)[1..] == rest;
      TokensOfJoin(ts[1..], delim);
      assert [ts[0]] + ts[1..] == ts;
    }
  }

  /** A delimiter at the start produces no empty token. */
  lemma LeadingDelimiterDropped(s: string, delim: char)
    ensures Tokens([delim] + s, delim) == Tokens(s, delim)
  {
    assert ([delim] + s)[1..] == s;
  }

  /** Two neighbouring delimiters split exactly as one does. */
  lemma {:induction false} DelimiterRunCollapses(a: string, b: string, delim: char, current: string)
    requires delim !in current
    ensures TokensFrom(a + [delim, delim] + b, delim, current) == TokensFrom(a + [delim] + b, delim, current)
    decreases |a|
  {
    var two := a + [delim, delim] + b;
    var one := a + [delim] + b;
    if a == [] {
      assert two[0] == delim && two[1..] == [delim] + b;
      assert one[0] == delim && one[1..] == b;
      assert ([delim] + b)[0] == delim && ([delim] + b)[1..] == b;
    } else {
      assert two[0] == a[0] && two[1..] == a[1..] + [delim, delim] + b;
      assert one[0] == a[0] && one[1..] == a[1..] + [delim] + b;
      if a[0] == delim {
        DelimiterRunCollapses(a[1..], b, delim, []);
      } else {
        DelimiterRunCollapses(a[1..], b, delim, current + [a[0]]);
      }
    }
  }

  /** A delimiter at the end only closes the token being read, which the end of
      input closes anyway. */
  lemma {:induction false} TrailingDelimiterDroppedFrom(s: string, delim: char, current: string)
    requires delim !in current
    ensures TokensFrom(s + [delim], delim, current) == TokensFrom(s, delim, current)
    decreases |s|
  {
    if s == [] {
      assert [] + [delim] == [delim];
      assert Flush(current) + [] == Flush(current);
    } else {
      assert (s + [delim])[0] == s[0] && (s + [delim])[1..] == s[1..] + [delim];
      if s[0] == delim {
        TrailingDelimiterDroppedFrom(s[1..], delim, []);
      } else {
        TrailingDelimiterDroppedFrom(s[1..], delim, current + [s[0]]);
      }
    }
  }

  /** A trailing delimiter produces no token. */
  lemma TrailingDelimiterDropped(s: string, delim: char)
    ensures Tokens(s + [delim], delim) == Tokens(s, delim)
  {
    TrailingDelimiterDroppedFrom(s, delim, []);
  }

  /** Splitting is idempotent through Join: joining the tokens of a string and
      splitting again gives the same tokens. */
  lemma TokensJoinTokens(s: string, delim: char)
    ensures Tokens(Join(Tokens(s, delim), delim), delim) == Tokens(s, delim)
  {
    TokensOfJoin(Tokens(s, delim), delim);
  }
}
