/** Advertisement tokens: short ones must be whole words, longer ones may be anywhere. */
module Tokens {

  predicate IsLowerOrDigit(c: char) { 'a' <= c <= 'z' || '0' <= c <= '9' }

  predicate IsAsciiAlphanumeric(c: char) { IsLowerOrDigit(c) || 'A' <= c <= 'Z' }

  /** `s[i..j]` is a maximal run of lower-case ASCII letters and digits. */
  predicate MaximalRun(s: string, i: nat, j: nat) {
    && i < j <= |s|
    && (forall k | i <= k < j :: IsLowerOrDigit(s[k]))
    && (i > 0 ==> !IsLowerOrDigit(s[i - 1]))
    && (j < |s| ==> !IsLowerOrDigit(s[j]))
  }

  /** The maximal runs that end before position `k`. */
  function WordsBefore(s: string, k: nat): set<string> {
    set i: nat, j: nat | i <= |s| && j <= |s| && j < k && MaximalRun(s, i, j) :: s[i..j]
  }

  function Words(s: string): set<string> { WordsBefore(s, |s| + 1) }

  predicate OccursAt(s: string, sub: string, i: nat) { i + |sub| <= |s| && s[i..i + |sub|] == sub }

  predicate Contains(s: string, sub: string) { exists i: nat | i <= |s| :: OccursAt(s, sub, i) }

  /** The token is matched as a word rather than as a substring. */
  predicate WholeWord(token: string) {
    |token| <= 2 && forall c | c in token :: IsAsciiAlphanumeric(c)
  }

  predicate Matches(token: string, low: string) {
    token != "" && if WholeWord(token) then token in Words(low) else Contains(low, token)
  }

  predicate ContainsAnyToken(tokens: seq<string>, low: string) {
    exists t | t in tokens :: Matches(t, low)
  }

  /** One pass over the text, collecting each run when it ends. */
  method AsciiWords(text: string) returns (words: set<string>)
    ensures words == Words(text)
  {
    words := {};
    var current := "";
    var k := 0;
    while k < |text|
      invariant 0 <= k <= |text| && |current| <= k
      invariant OpenRun(text, k - |current|, k) && current == text[k - |current|..k]
      invariant words == WordsBefore(text, k)
    {
      var ch := text[k];
      OneMorePosition(text, k - |current|, k);
      if IsLowerOrDigit(ch) {
        current := current + [ch];
      } else if current != "" {
        words := words + {current};
        current := "";
      }
      k := k + 1;
    }
    OneMorePosition(text, k - |current|, k);
    if current != "" {
      words := words + {current};
    }
  }

  /** `s[start..k]` is a run that cannot be extended to the left. */
  predicate OpenRun(s: string, start: nat, k: nat) {
    && start <= k <= |s|
    && (forall m | start <= m < k :: IsLowerOrDigit(s[m]))
    && (start > 0 ==> !IsLowerOrDigit(s[start - 1]))
  }

  lemma OneMorePosition(s: string, start: nat, k: nat)
    requires OpenRun(s, start, k)
    ensures WordsBefore(s, k + 1) == WordsBefore(s, k) +
              if start < k && (k == |s| || !IsLowerOrDigit(s[k])) then {s[start..k]} else {}
  {
    forall i: nat | MaximalRun(s, i, k) ensures i == start && start < k {
      assert start < i ==> start <= i - 1 < k;
      assert i < start ==> i <= start - 1 < k;
    }
    if start < k && (k == |s| || !IsLowerOrDigit(s[k])) {
      assert MaximalRun(s, start, k);
    }
  }

  /** The words are computed at most once, when the first short token is met. */
  method ContainsAnyAdToken(tokens: seq<string>, text: string, lower: string -> string) returns (found: bool)
    requires lower("") == ""
    ensures found <==> ContainsAnyToken(tokens, lower(text))
  {
    if text == "" {
      NothingInEmptyText(tokens);
      return false;
    }
    var low := lower(text);
    var haveWords, words := false, {};
    var i := 0;
    while i < |tokens|
      invariant 0 <= i <= |tokens|
      invariant haveWords ==> words == Words(low)
      invariant forall k | 0 <= k < i :: !Matches(tokens[k], low)
    {
      var token := tokens[i];
      if token != "" {
        if WholeWord(token) {
          if !haveWords {
            words := AsciiWords(low);
            haveWords := true;
          }
          if token in words {
            assert Matches(tokens[i], low);
            return true;
          }
        } else if Contains(low, token) {
          assert Matches(tokens[i], low);
          return true;
        }
      }
      i := i + 1;
    }
    return false;
  }

  lemma NothingInEmptyText(tokens: seq<string>)
    ensures !ContainsAnyToken(tokens, "")
  {
    assert Words("") == {};
  }

  /** A token of at most two letters or digits inside a longer run is no match, whatever surrounds the run. */
  lemma InsideLongerWordIsNoMatch(s: string, a: nat, b: nat, token: string)
    requires MaximalRun(s, a, b) && |token| < b - a && WholeWord(token)
    requires forall i: nat, j: nat | MaximalRun(s, i, j) && (j <= a || b <= i) :: s[i..j] != token
    ensures !Matches(token, s)
  {
    forall i: nat, j: nat | MaximalRun(s, i, j) ensures s[i..j] != token {
      RunsAreDisjoint(s, a, b, i, j);
    }
  }

  lemma RunsAreDisjoint(s: string, a: nat, b: nat, i: nat, j: nat)
    requires MaximalRun(s, a, b) && MaximalRun(s, i, j)
    ensures j <= a || b <= i || (i == a && j == b)
  {
    if i < b && a < j {
      assert i < a ==> i <= a - 1 < j;
      assert a < i ==> a <= i - 1 < b;
      assert b < j ==> i <= b < j;
      assert j < b ==> a <= j < b;
    }
  }
}
