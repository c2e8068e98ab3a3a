/** The canonical JSON text that update signatures cover. `Decoder` reads it back. */
module Canonical {
  import opened Model
  import opened Ordering

  /** A JSON value; numbers are integers, and an object does not know the order its members came in. */
  datatype Value =
    | Null
    | Bool(b: bool)
    | Number(n: int)
    | String(s: string)
    | Array(items: seq<Value>)
    | Object(members: map<string, Value>)

  // ---------------------------------------------------------------- strings

  /** General category Cc. */
  predicate IsControl(c: char) { c as int <= 0x1f || 0x7f <= c as int <= 0x9f }

  function HexDigit(n: nat): char
    requires n < 16
  {
    if n < 10 then (n + '0' as int) as char else (n - 10 + 'a' as int) as char
  }

  function FourHex(n: nat): (r: string)
    requires n < 0x10000
    ensures |r| == 4
  {
    var a := n / 16;
    var b := a / 16;
    [HexDigit(b / 16), HexDigit(b % 16), HexDigit(a % 16), HexDigit(n % 16)]
  }

  function EscapeChar(c: char): string {
    if c == '"' then "\\\""
    else if c == '\\' then "\\\\"
    else if c == '\n' then "\\n"
    else if c == '\r' then "\\r"
    else if c == '\t' then "\\t"
    else if IsControl(c) then "\\u" + FourHex(c as int)
    else [c]
  }

  function Escape(s: string): string {
    if s == "" then "" else EscapeChar(s[0]) + Escape(s[1..])
  }

  lemma EscapeStep(out: string, rest: string)
    requires rest != ""
    ensures out + EscapeChar(rest[0]) + Escape(rest[1..]) == out + Escape(rest)
  {
    Regroup(out, EscapeChar(rest[0]), Escape(rest[1..]));
  }

  method EscapeJsonString(input: string) returns (out: string)
    ensures out == Escape(input)
  {
    out := "";
    var i := 0;
    while i < |input|
      invariant 0 <= i <= |input|
      invariant out + Escape(input[i..]) == Escape(input)
    {
      EscapeStep(out, input[i..]);
      assert input[i..][1..] == input[i + 1..];
      out := out + EscapeChar(input[i]);
      i := i + 1;
    }
  }

  // ---------------------------------------------------------------- key order

  /** By code point, shorter first. */
  predicate Leq(a: string, b: string) {
    a == "" || (b != "" && (a[0] < b[0] || (a[0] == b[0] && Leq(a[1..], b[1..]))))
  }

  lemma {:induction false} LeqTotal(a: string, b: string)
    ensures Leq(a, b) || Leq(b, a)
  {
    if a != "" && b != "" && a[0] == b[0] {
      LeqTotal(a[1..], b[1..]);
    }
  }

  lemma {:induction false} LeqAntisymmetric(a: string, b: string)
    requires Leq(a, b) && Leq(b, a)
    ensures a == b
  {
    if a != "" && b != "" {
      LeqAntisymmetric(a[1..], b[1..]);
      assert a == [a[0]] + a[1..] && b == [b[0]] + b[1..];
    }
  }

  lemma {:induction false} LeqTransitive(a: string, b: string, c: string)
    requires Leq(a, b) && Leq(b, c)
    ensures Leq(a, c)
  {
    if a != "" && b != "" && c != "" && a[0] == b[0] == c[0] {
      LeqTransitive(a[1..], b[1..], c[1..]);
    }
  }

  predicate IsLeast(k: string, keys: set<string>) { k in keys && forall x | x in keys :: Leq(k, x) }

  lemma {:induction false} LeastExists(keys: set<string>) returns (k: string)
    requires keys != {}
    ensures IsLeast(k, keys)
  {
    var x := Pick(keys);
    LeqTotal(x, x);
    if keys == {x} {
      k := x;
    } else {
      var m := LeastExists(keys - {x});
      LeqTotal(m, x);
      k := if Leq(m, x) then m else x;
      forall y | y in keys ensures Leq(k, y) {
        if y != x {
          assert y in keys - {x};
          if !Leq(m, x) {
            LeqTransitive(x, m, y);
          }
        }
      }
    }
  }

  lemma LeastIsUnique(keys: set<string>)
    requires keys != {}
    ensures exists k :: IsLeast(k, keys)
    ensures forall a, b :: IsLeast(a, keys) && IsLeast(b, keys) ==> a == b
  {
    var k := LeastExists(keys);
    forall a, b | IsLeast(a, keys) && IsLeast(b, keys) ensures a == b {
      LeqAntisymmetric(a, b);
    }
  }

  function SortedKeys(keys: set<string>): seq<string> {
    if keys == {} then []
    else
      LeastIsUnique(keys);
      var k :| IsLeast(k, keys);
      [k] + SortedKeys(keys - {k})
  }

  /** Every key once, in ascending order. */
  lemma {:induction false} SortedKeysAreSorted(keys: set<string>)
    ensures forall k :: k in SortedKeys(keys) <==> k in keys
    ensures forall i, j | 0 <= i < j < |SortedKeys(keys)| ::
              Leq(SortedKeys(keys)[i], SortedKeys(keys)[j]) && SortedKeys(keys)[i] != SortedKeys(keys)[j]
  {
    if keys != {} {
      LeastIsUnique(keys);
      var k :| IsLeast(k, keys);
      SortedKeysAreSorted(keys - {k});
      var rest := SortedKeys(keys - {k});
      assert SortedKeys(keys) == [k] + rest;
      forall i, j | 0 <= i < j < |rest| + 1
        ensures Leq(([k] + rest)[i], ([k] + rest)[j]) && ([k] + rest)[i] != ([k] + rest)[j]
      {
        if i == 0 {
          assert rest[j - 1] in rest;
        } else {
          assert Leq(rest[i - 1], rest[j - 1]);
        }
      }
    }
  }

  // ---------------------------------------------------------------- printing

  function Digits(n: nat): string {
    var d := (n % 10 + '0' as int) as char;
    if n < 10 then [d] else Digits(n / 10) + [d]
  }

  function Dumps(v: Value): string
    decreases v, 2
  {
    match v
    case Null => "null"
    case Bool(b) => if b then "true" else "false"
    case Number(n) => if n < 0 then "-" + Digits(-n) else Digits(n)
    case String(s) => "\"" + Escape(s) + "\""
    case Array(items) => "[" + DumpItems(items) + "]"
    case Object(members) => "{" + DumpMembers(v, SortedKeys(members.Keys)) + "}"
  }

  function DumpItems(items: seq<Value>): string
    decreases items
  {
    if items == [] then ""
    else if |items| == 1 then Dumps(items[0])
    else Dumps(items[0]) + "," + DumpItems(items[1..])
  }

  function DumpMembers(v: Value, keys: seq<string>): string
    requires v.Object?
    decreases v, 1, |keys|
  {
    if keys == [] || keys[0] !in v.members then ""
    else
      var first := "\"" + Escape(keys[0]) + "\":" + Dumps(v.members[keys[0]]);
      if |keys| == 1 then first else first + "," + DumpMembers(v, keys[1..])
  }
}
