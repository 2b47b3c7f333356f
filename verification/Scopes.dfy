/** The scope check on a token's claims. */
module Scopes {
  import opened Options
  import opened Text

  predicate Unspaced(s: string, i: nat, j: nat)
    requires i <= j <= |s|
  {
    forall k :: i <= k < j ==> !IsSpace(s[k])
  }

  /** Length of the leading run without white space. */
  function RunLength(s: string): (n: nat)
    ensures n <= |s| && Unspaced(s, 0, n) && (n == |s| || IsSpace(s[n]))
  {
    if s == "" || IsSpace(s[0]) then 0
    else
      var n := RunLength(s[1..]);
      assert forall k :: 1 <= k < 1 + n ==> s[k] == s[1..][k - 1];
      1 + n
  }

  /** strings.Fields */
  function Fields(s: string): seq<string> {
    if s == "" then []
    else if IsSpace(s[0]) then Fields(s[1..])
    else [s[..RunLength(s)]] + Fields(s[RunLength(s)..])
  }

  /** A longest stretch without white space. */
  ghost predicate MaximalRun(s: string, i: nat, j: nat) {
    && i < j <= |s| && Unspaced(s, i, j)
    && (i == 0 || IsSpace(s[i - 1]))
    && (j == |s| || IsSpace(s[j]))
  }

  ghost predicate IsRun(s: string, word: string) {
    exists i: nat, j: nat :: MaximalRun(s, i, j) && s[i..j] == word
  }

  lemma {:induction false} RunInSuffix(s: string, n: nat, i: nat, j: nat)
    requires n <= |s| && i < j <= |s| - n
    requires i > 0 || n == 0 || IsSpace(s[n - 1])
    ensures MaximalRun(s[n..], i, j) <==> MaximalRun(s, n + i, n + j)
    ensures s[n..][i..j] == s[n + i..n + j]
  {
    assert s[n..][i..j] == s[n + i..n + j];
    assert forall k :: 0 <= k < |s| - n ==> s[n..][k] == s[n + k];
    if MaximalRun(s[n..], i, j) {
      assert forall k :: n + i <= k < n + j ==> s[k] == s[n..][k - n];
    }
  }

  /** The fields of a string are exactly its maximal runs without white space. */
  lemma {:induction false} FieldsAreRuns(s: string, word: string)
    ensures word in Fields(s) <==> IsRun(s, word)
  {
    if s == "" {
    } else if IsSpace(s[0]) {
      FieldsAreRuns(s[1..], word);
      SkipSpace(s, word);
    } else {
      FieldsAreRuns(s[RunLength(s)..], word);
      SkipRun(s, word);
    }
  }

  lemma {:induction false} SkipSpace(s: string, word: string)
    requires s != "" && IsSpace(s[0])
    ensures IsRun(s, word) <==> IsRun(s[1..], word)
  {
    if i: nat, j: nat :| MaximalRun(s, i, j) && s[i..j] == word {
      RunInSuffix(s, 1, i - 1, j - 1);
    }
    if i: nat, j: nat :| MaximalRun(s[1..], i, j) && s[1..][i..j] == word {
      RunInSuffix(s, 1, i, j);
    }
  }

  /** A maximal run is the leading one, or lies behind it. */
  lemma {:induction false} LeadingOrLater(s: string, n: nat, i: nat, j: nat)
    requires s != "" && !IsSpace(s[0]) && n == RunLength(s) && MaximalRun(s, i, j)
    ensures (i == 0 && j == n) || (n < i && MaximalRun(s[n..], i - n, j - n) && s[n..][i - n..j - n] == s[i..j])
  {
    if i > 0 {
      RunInSuffix(s, n, i - n, j - n);
    }
  }

  lemma {:induction false} SkipRun(s: string, word: string)
    requires s != "" && !IsSpace(s[0])
    ensures var n := RunLength(s); IsRun(s, word) <==> word == s[..n] || IsRun(s[n..], word)
  {
    var n := RunLength(s);
    assert s[0..n] == s[..n];
    assert MaximalRun(s, 0, n);
    if i: nat, j: nat :| MaximalRun(s, i, j) && s[i..j] == word {
      LeadingOrLater(s, n, i, j);
    }
    if i: nat, j: nat :| MaximalRun(s[n..], i, j) && s[n..][i..j] == word {
      RunInSuffix(s, n, i, j);
    }
  }

  /** What the check sees of a request: whether a token is there, and its scope claim if it reads as a string. */
  datatype Token = Token(scope: Option<string>)

  datatype Verdict = Passed | Unauthorized | Forbidden

  function RequireScope(token: Option<Token>, required: string): Verdict {
    if token.None? then Unauthorized
    else if token.value.scope.None? then Forbidden
    else if required in Fields(token.value.scope.value) then Passed
    else Forbidden
  }

  /** The request is passed on exactly when the required scope is a word of the claim. */
  lemma {:induction false} ScopeMatch(token: Option<Token>, required: string)
    ensures RequireScope(token, required).Passed? <==>
            token.Some? && token.value.scope.Some? && IsRun(token.value.scope.value, required)
    ensures RequireScope(token, required).Unauthorized? <==> token.None?
    ensures RequireScope(token, required).Passed? ==> required != "" && NoSpaces(required)
  {
    if token.Some? && token.value.scope.Some? {
      FieldsAreRuns(token.value.scope.value, required);
    }
  }

  predicate Words(tokens: seq<string>) {
    forall i :: 0 <= i < |tokens| ==> tokens[i] != "" && NoSpaces(tokens[i])
  }

  lemma {:induction false} RunLengthOf(word: string, rest: string)
    requires NoSpaces(word) && (rest == "" || IsSpace(rest[0]))
    ensures RunLength(word + rest) == |word|
  {
    if word == "" {
      assert word + rest == rest;
    } else {
      assert (word + rest)[1..] == word[1..] + rest;
      RunLengthOf(word[1..], rest);
    }
  }

  /** A list of scope tokens joined by spaces reads back as the list. */
  lemma {:induction false} FieldsOfJoined(tokens: seq<string>)
    requires tokens != [] && Words(tokens)
    ensures Fields(Join(tokens, ' ')) == tokens
  {
    var first := tokens[0];
    if |tokens| == 1 {
      RunLengthOf(first, "");
      assert first + "" == first && first[..|first|] == first && first[|first|..] == "";
      assert tokens == [first];
    } else {
      var rest := [' '] + Join(tokens[1..], ' ');
      var all := first + rest;
      FieldsOfJoined(tokens[1..]);
      RunLengthOf(first, rest);
      assert Join(tokens, ' ') == all;
      assert all[..|first|] == first && all[|first|..] == rest;
      assert rest[1..] == Join(tokens[1..], ' ');
      assert tokens == [first] + tokens[1..];
    }
  }
}
