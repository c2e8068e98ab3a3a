/** Which of the texts that a decoder would accept is the canonical one: the shortest escapes in lower case,
    and members in code point order. */
module Spelling {
  import opened Model
  import opened Ordering
  import opened Canonical

  /** A control character: C0, delete, or C1. */
  predicate Unprintable(c: char) { c as int < 0x20 || 0x7f <= c as int < 0xa0 }

  predicate HasShortEscape(c: char) { c == '"' || c == '\\' || c == '\n' || c == '\r' || c == '\t' }

  predicate LowerHex(c: char) { '0' <= c <= '9' || 'a' <= c <= 'f' }

  /** One letter after the backslash where there is one, four hexadecimal digits for the other control
      characters, and the character itself everywhere else. */
  function SpelledLength(c: char): nat {
    if HasShortEscape(c) then 2 else if Unprintable(c) then 6 else 1
  }

  lemma HexIsLower(n: nat)
    requires n < 16
    ensures LowerHex(HexDigit(n))
  {
  }

  lemma CharIsSpelled(c: char)
    ensures var r := EscapeChar(c);
            && |r| == SpelledLength(c)
            && (|r| == 1 ==> r[0] == c)
            && (|r| > 1 ==> r[0] == '\\')
            && (|r| == 6 ==> r[1] == 'u' && forall i | 2 <= i < 6 :: LowerHex(r[i]))
            && forall i | 0 <= i < |r| :: !Unprintable(r[i])
  {
    var n := c as int;
    if 0 <= n < 0x10000 {
      var a := n / 16;
      var b := a / 16;
      HexIsLower(b / 16);
      HexIsLower(b % 16);
      HexIsLower(a % 16);
      HexIsLower(n % 16);
    }
  }

  function Length(s: string): nat { if s == "" then 0 else SpelledLength(s[0]) + Length(s[1..]) }

  /** The escaped text has exactly the length of the shortest spelling and no control characters. */
  lemma {:induction false} EscapedIsShortest(s: string)
    ensures |Escape(s)| == Length(s) && forall i | 0 <= i < |Escape(s)| :: !Unprintable(Escape(s)[i])
  {
    if s != "" {
      CharIsSpelled(s[0]);
      EscapedIsShortest(s[1..]);
    }
  }

  /** The key order: a proper beginning comes first, otherwise the first difference decides. */
  lemma {:induction false} LeqMeans(a: string, b: string)
    ensures Leq(a, b) <==> a <= b || exists i: nat :: FirstDifference(a, b, i) && a[i] < b[i]
  {
    if a != "" && b != "" {
      if a[0] == b[0] {
        LeqMeans(a[1..], b[1..]);
        assert a <= b <==> a[1..] <= b[1..] by {
          assert a == [a[0]] + a[1..] && b == [b[0]] + b[1..];
        }
        if i: nat :| FirstDifference(a, b, i) && a[i] < b[i] {
          assert a[..i][1..] == a[1..][..i - 1] && b[..i][1..] == b[1..][..i - 1];
          assert FirstDifference(a[1..], b[1..], i - 1);
        }
        if i: nat :| FirstDifference(a[1..], b[1..], i) && a[1..][i] < b[1..][i] {
          assert a[..i + 1] == [a[0]] + a[1..][..i] && b[..i + 1] == [b[0]] + b[1..][..i];
          assert FirstDifference(a, b, i + 1);
        }
      } else {
        if i: nat :| FirstDifference(a, b, i) {
          assert i > 0 ==> a[..i][0] == b[..i][0];
        }
        assert FirstDifference(a, b, 0);
      }
    }
  }

  predicate FirstDifference(a: string, b: string, i: nat) { i < |a| && i < |b| && a[..i] == b[..i] && a[i] != b[i] }

  function Joined(parts: seq<string>): string {
    if parts == [] then "" else if |parts| == 1 then parts[0] else parts[0] + "," + Joined(parts[1..])
  }

  function Entries(v: Value, keys: seq<string>): seq<string>
    requires v.Object? && forall k | k in keys :: k in v.members
  {
    seq(|keys|, i requires 0 <= i < |keys| => "\"" + Escape(keys[i]) + "\":" + Dumps(v.members[keys[i]]))
  }

  lemma {:induction false} MembersAreJoined(v: Value, keys: seq<string>)
    requires v.Object? && forall k | k in keys :: k in v.members
    ensures DumpMembers(v, keys) == Joined(Entries(v, keys))
    decreases keys
  {
    if |keys| > 1 {
      MembersAreJoined(v, keys[1..]);
      assert Entries(v, keys)[1..] == Entries(v, keys[1..]);
    }
  }

  /** The members are written in ascending order of their keys, each once, and nothing else is. */
  lemma MembersInOrder(v: Value) returns (keys: seq<string>)
    requires v.Object?
    ensures forall k :: k in keys <==> k in v.members
    ensures forall i, j | 0 <= i < j < |keys| :: keys[i] != keys[j] && (keys[i] <= keys[j] || exists d: nat :: FirstDifference(keys[i], keys[j], d) && keys[i][d] < keys[j][d])
    ensures Dumps(v) == "{" + Joined(Entries(v, keys)) + "}"
  {
    keys := SortedKeys(v.members.Keys);
    SortedKeysAreSorted(v.members.Keys);
    MembersAreJoined(v, keys);
    forall i, j | 0 <= i < j < |keys|
      ensures keys[i] != keys[j] && (keys[i] <= keys[j] || exists d: nat :: FirstDifference(keys[i], keys[j], d) && keys[i][d] < keys[j][d])
    {
      LeqMeans(keys[i], keys[j]);
    }
  }
}
