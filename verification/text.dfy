/**
 * The few Python string operations the search plugin relies on:
 * `str.join`, `str.split()` (no argument), `str.strip(c)` and `s * n`.
 * Strings are sequences of characters.
 */
module Text {

  /** `sep.join(items)`. */
  function Join(sep: string, items: seq<string>): string
  {
    if |items| == 0 then ""
    else if |items| == 1 then items[0]
    else items[0] + sep + Join(sep, items[1..])
  }

  /** The concatenation of all items, with no separator. */
  function Concat(items: seq<string>): string
  {
    if |items| == 0 then "" else items[0] + Concat(items[1..])
  }

  /** `s * n`. */
  function Repeat(s: string, n: nat): (r: string)
    ensures |r| == n * |s|
  {
    if n == 0 then "" else s + Repeat(s, n - 1)
  }

  /** `s * n` is `n` copies of `s`, one after the other. */
  lemma {:induction false} RepeatIsCopies(s: string, n: nat)
    ensures Repeat(s, n) == Concat(seq(n, _ => s))
  {
    if n > 0 {
      var copies := seq(n, _ => s);
      assert copies[0] == s;
      assert copies[1..] == seq(n - 1, _ => s);
      RepeatIsCopies(s, n - 1);
    }
  }

  /** `s.lstrip(c)`: drops every leading `c`. */
  function StripLeading(s: string, c: char): (r: string)
    ensures |r| <= |s| && r == s[|s| - |r|..]
    ensures r == [] || r[0] != c
    ensures forall i :: 0 <= i < |s| - |r| ==> s[i] == c
  {
    if s != [] && s[0] == c then StripLeading(s[1..], c) else s
  }

  /** `s.rstrip(c)`: drops every trailing `c`. */
  function StripTrailing(s: string, c: char): (r: string)
    ensures |r| <= |s| && r == s[..|r|]
    ensures r == [] || r[|r| - 1] != c
    ensures forall i :: |r| <= i < |s| ==> s[i] == c
  {
    if s != [] && s[|s| - 1] == c then StripTrailing(s[..|s| - 1], c) else s
  }

  /** `s.strip(c)`. */
  function Strip(s: string, c: char): string
  {
    StripTrailing(StripLeading(s, c), c)
  }

  /** The characters Python's `str.isspace` accepts, which `str.split()` splits on. */
  predicate IsSpace(ch: char)
  {
    || ch == ' ' || ch == '\t' || ch == '\n' || ch == '\r'
    || ch == '\U{B}' || ch == '\U{C}'
    || ('\U{1C}' <= ch <= '\U{1F}')
    || ch == '\U{85}' || ch == '\U{A0}' || ch == '\U{1680}'
    || ('\U{2000}' <= ch <= '\U{200A}')
    || ch == '\U{2028}' || ch == '\U{2029}' || ch == '\U{202F}' || ch == '\U{205F}' || ch == '\U{3000}'
  }

  /** A token of `str.split()`: non-empty and free of whitespace. */
  predicate IsToken(t: string)
  {
    t != [] && forall i :: 0 <= i < |t| ==> !IsSpace(t[i])
  }

  /** The length of the run of non-space characters that `s` starts with. */
  function TokenLength(s: string): (n: nat)
    ensures n <= |s|
    ensures forall i :: 0 <= i < n ==> !IsSpace(s[i])
    ensures n < |s| ==> IsSpace(s[n])
  {
    if s == [] || IsSpace(s[0]) then 0 else 1 + TokenLength(s[1..])
  }

  /** `s.split()`: the maximal runs of non-space characters, in order. */
  function Split(s: string): seq<string>
    decreases |s|
  {
    if s == [] then []
    else if IsSpace(s[0]) then Split(s[1..])
    else
      var n := TokenLength(s);
      [s[..n]] + Split(s[n..])
  }

  /** The characters of `s` that are not whitespace, in order. */
  function RemoveSpaces(s: string): (r: string)
    ensures forall i :: 0 <= i < |r| ==> !IsSpace(r[i])
  {
    if s == [] then []
    else if IsSpace(s[0]) then RemoveSpaces(s[1..])
    else [s[0]] + RemoveSpaces(s[1..])
  }

  /** Every piece `str.split()` returns is a token. */
  lemma {:induction false} SplitYieldsTokens(s: string)
    ensures forall k :: 0 <= k < |Split(s)| ==> IsToken(Split(s)[k])
    decreases |s|
  {
    if s == [] {
    } else if IsSpace(s[0]) {
      SplitYieldsTokens(s[1..]);
    } else {
      var n := TokenLength(s);
      SplitYieldsTokens(s[n..]);
    }
  }

  lemma {:induction false} RemoveSpacesOfToken(t: string)
    requires forall i :: 0 <= i < |t| ==> !IsSpace(t[i])
    ensures RemoveSpaces(t) == t
    decreases |t|
  {
    if t != [] {
      RemoveSpacesOfToken(t[1..]);
    }
  }

  lemma {:induction false} RemoveSpacesAppend(a: string, b: string)
    ensures RemoveSpaces(a + b) == RemoveSpaces(a) + RemoveSpaces(b)
    decreases |a|
  {
    if a != [] {
      assert (a + b)[1..] == a[1..] + b;
      RemoveSpacesAppend(a[1..], b);
    } else {
      assert a + b == b;
    }
  }

  /** Splitting loses exactly the whitespace: the tokens put back together are the non-space characters. */
  lemma {:induction false} SplitKeepsNonSpace(s: string)
    ensures Concat(Split(s)) == RemoveSpaces(s)
    decreases |s|
  {
    if s == [] {
    } else if IsSpace(s[0]) {
      SplitKeepsNonSpace(s[1..]);
    } else {
      var n := TokenLength(s);
      SplitKeepsNonSpace(s[n..]);
      assert s == s[..n] + s[n..];
      RemoveSpacesAppend(s[..n], s[n..]);
      RemoveSpacesOfToken(s[..n]);
    }
  }

  lemma {:induction false} TokenLengthOfJoined(t: string, rest: string)
    requires forall i :: 0 <= i < |t| ==> !IsSpace(t[i])
    requires rest == [] || IsSpace(rest[0])
    ensures TokenLength(t + rest) == |t|
    decreases |t|
  {
    if t == [] {
      assert t + rest == rest;
    } else {
      assert (t + rest)[1..] == t[1..] + rest;
      TokenLengthOfJoined(t[1..], rest);
    }
  }

  /** Joining tokens with single spaces and splitting again gives the tokens back. */
  lemma {:induction false} SplitJoinRoundTrip(tokens: seq<string>)
    requires forall k :: 0 <= k < |tokens| ==> IsToken(tokens[k])
    ensures Split(Join(" ", tokens)) == tokens
    decreases |tokens|
  {
    if |tokens| == 0 {
    } else if |tokens| == 1 {
      var t := tokens[0];
      TokenLengthOfJoined(t, "");
      assert t + "" == t;
      assert t[|t|..] == [];
      assert t[..|t|] == t;
    } else {
      var t := tokens[0];
      var rest := " " + Join(" ", tokens[1..]);
      var s := Join(" ", tokens);
      assert s == t + rest;
      TokenLengthOfJoined(t, rest);
      assert s[..|t|] == t;
      assert s[|t|..] == rest;
      assert rest[1..] == Join(" ", tokens[1..]);
      SplitJoinRoundTrip(tokens[1..]);
    }
  }
}
