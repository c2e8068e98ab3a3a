/** A reference decoder for the canonical text: strings as in section 7 of RFC 8259, no white space,
    integers only. It undoes the printer on every value. */
module Decoder {
  import opened Model
  import opened Canonical
  import opened Ordering

  // ---------------------------------------------------------------- strings

  function HexValue(c: char): (r: Option<nat>)
    ensures r.Some? ==> r.value < 16
  {
    if '0' <= c <= '9' then Some(c as int - '0' as int)
    else if 'a' <= c <= 'f' then Some(c as int - 'a' as int + 10)
    else if 'A' <= c <= 'F' then Some(c as int - 'A' as int + 10)
    else None
  }

  function ReadHex(s: string): (r: Option<(nat, string)>)
    ensures r.Some? ==> r.value.0 < 0x10000 && |r.value.1| < |s|
  {
    if |s| < 4 then None
    else
      var a, b, c, d := HexValue(s[0]), HexValue(s[1]), HexValue(s[2]), HexValue(s[3]);
      if a.Some? && b.Some? && c.Some? && d.Some?
      then Some((a.value * 0x1000 + b.value * 0x100 + c.value * 16 + d.value, s[4..]))
      else None
  }

  function SimpleEscape(c: char): Option<char> {
    if c == '"' || c == '\\' || c == '/' then Some(c)
    else if c == 'b' then Some(8 as char)
    else if c == 'f' then Some(12 as char)
    else if c == 'n' then Some('\n')
    else if c == 'r' then Some('\r')
    else if c == 't' then Some('\t')
    else None
  }

  function Prepend(c: char, r: Option<(string, string)>): Option<(string, string)> {
    if r.None? then None else Some(([c] + r.value.0, r.value.1))
  }

  /** One escape after the backslash: the character it stands for and the rest. */
  function ReadEscape(s: string): (r: Option<(char, string)>)
    ensures r.Some? ==> |r.value.1| < |s|
  {
    if s == "" then None
    else if s[0] != 'u' then
      var c := SimpleEscape(s[0]);
      if c.Some? then Some((c.value, s[1..])) else None
    else
      match ReadHex(s[1..])
      case None => None
      case Some((n, rest)) =>
        if n < 0xD800 || 0xE000 <= n then Some((n as char, rest))
        else if n < 0xDC00 && |rest| >= 2 && rest[0] == '\\' && rest[1] == 'u' then
          match ReadHex(rest[2..])
          case None => None
          case Some((m, rest')) =>
            if 0xDC00 <= m < 0xE000 then Some(((0x10000 + (n - 0xD800) * 0x400 + (m - 0xDC00)) as char, rest')) else None
        else None
  }

  /** The characters up to the closing quotation mark, and what follows it. */
  function ReadString(s: string): (r: Option<(string, string)>)
    ensures r.Some? ==> |r.value.1| < |s|
    decreases |s|
  {
    if s == "" then None
    else if s[0] == '"' then Some(("", s[1..]))
    else if s[0] == '\\' then
      match ReadEscape(s[1..])
      case None => None
      case Some((c, rest)) => Prepend(c, ReadString(rest))
    else if s[0] as int < 0x20 then None
    else Prepend(s[0], ReadString(s[1..]))
  }

  lemma HexRoundTrip(n: nat)
    requires n < 16
    ensures HexValue(HexDigit(n)) == Some(n)
  {
  }

  lemma ReadHexOf(s: string, a: nat, b: nat, c: nat, d: nat, tail: string)
    requires a < 16 && b < 16 && c < 16 && d < 16
    requires s == [HexDigit(a), HexDigit(b), HexDigit(c), HexDigit(d)] + tail
    ensures ReadHex(s) == Some((a * 0x1000 + b * 0x100 + c * 16 + d, tail))
  {
    HexRoundTrip(a);
    HexRoundTrip(b);
    HexRoundTrip(c);
    HexRoundTrip(d);
    assert s[4..] == tail;
  }

  lemma FourHexRoundTrip(n: nat, tail: string)
    requires n < 0x10000
    ensures ReadHex(FourHex(n) + tail) == Some((n, tail))
  {
    var a := n / 16;
    var b := a / 16;
    ReadHexOf(FourHex(n) + tail, b / 16, b % 16, a % 16, n % 16, tail);
  }

  lemma ReadOne(c: char, tail: string)
    ensures ReadString(EscapeChar(c) + tail) == Prepend(c, ReadString(tail))
  {
    var text := EscapeChar(c) + tail;
    if c == '"' || c == '\\' || c == '\n' || c == '\r' || c == '\t' {
      assert text[0] == '\\' && text[1..][1..] == tail;
    } else if IsControl(c) {
      assert text[0] == '\\' && text[1..][0] == 'u';
      assert text[1..][1..] == FourHex(c as int) + tail;
      FourHexRoundTrip(c as int, tail);
    } else {
      assert text[0] == c && text[1..] == tail;
    }
  }

  /** The decoder undoes the escaping of every string. */
  lemma {:induction false} EscapeRoundTrip(s: string, rest: string)
    ensures ReadString(Escape(s) + ("\"" + rest)) == Some((s, rest))
  {
    if s == "" {
      assert Escape(s) + ("\"" + rest) == "\"" + rest;
      assert ("\"" + rest)[1..] == rest;
    } else {
      var tail := Escape(s[1..]) + ("\"" + rest);
      Regroup(EscapeChar(s[0]), Escape(s[1..]), "\"" + rest);
      ReadOne(s[0], tail);
      EscapeRoundTrip(s[1..], rest);
      assert s == [s[0]] + s[1..];
    }
  }

  // ---------------------------------------------------------------- numbers

  predicate IsDigit(c: char) { '0' <= c <= '9' }

  function ReadDigits(s: string, acc: nat): (r: (nat, string))
    ensures |r.1| <= |s|
    decreases |s|
  {
    if s == "" || !IsDigit(s[0]) then (acc, s)
    else ReadDigits(s[1..], acc * 10 + (s[0] as int - '0' as int))
  }

  lemma {:induction false} DigitsRoundTrip(n: nat, rest: string)
    ensures ReadDigits(Digits(n) + rest, 0) == ReadDigits(rest, n)
    ensures |Digits(n)| > 0 && IsDigit(Digits(n)[0])
    decreases n
  {
    var d := (n % 10 + '0' as int) as char;
    if n < 10 {
      assert ([d] + rest)[1..] == rest;
    } else {
      DigitsRoundTrip(n / 10, [d] + rest);
      assert Digits(n) + rest == Digits(n / 10) + ([d] + rest);
      assert ([d] + rest)[1..] == rest;
    }
  }

  // ---------------------------------------------------------------- values

  function ReadValue(s: string): (r: Option<(Value, string)>)
    ensures r.Some? ==> |r.value.1| < |s|
    decreases |s|, 1
  {
    if s == "" then None
    else if s[0] == '"' then
      match ReadString(s[1..])
      case None => None
      case Some((text, rest)) => Some((String(text), rest))
    else if s[0] == '[' then ReadArray(s)
    else if s[0] == '{' then ReadObject(s)
    else if s[0] == '-' then
      if |s| > 1 && IsDigit(s[1]) then var (n, rest) := ReadDigits(s[1..], 0); Some((Number(0 - n), rest)) else None
    else if IsDigit(s[0]) then var (n, rest) := ReadDigits(s[1..], s[0] as int - '0' as int); Some((Number(n), rest))
    else ReadWord(s)
  }

  function ReadWord(s: string): (r: Option<(Value, string)>)
    ensures r.Some? ==> |r.value.1| < |s|
  {
    if "null" <= s then Some((Null, s[4..]))
    else if "true" <= s then Some((Bool(true), s[4..]))
    else if "false" <= s then Some((Bool(false), s[5..]))
    else None
  }

  function ReadArray(s: string): (r: Option<(Value, string)>)
    requires s != ""
    ensures r.Some? ==> |r.value.1| < |s|
    decreases |s|, 0
  {
    if |s| > 1 && s[1] == ']' then Some((Array([]), s[2..]))
    else
      match ReadItems(s[1..])
      case None => None
      case Some((items, rest)) => Some((Array(items), rest))
  }

  function ReadObject(s: string): (r: Option<(Value, string)>)
    requires s != ""
    ensures r.Some? ==> |r.value.1| < |s|
    decreases |s|, 0
  {
    if |s| > 1 && s[1] == '}' then Some((Object(map[]), s[2..]))
    else
      match ReadMembers(s[1..])
      case None => None
      case Some((members, rest)) => Some((Object(members), rest))
  }

  function ReadItems(s: string): (r: Option<(seq<Value>, string)>)
    ensures r.Some? ==> |r.value.1| < |s|
    decreases |s|, 2
  {
    match ReadValue(s)
    case None => None
    case Some((v, rest)) =>
      if rest == "" then None
      else if rest[0] == ']' then Some(([v], rest[1..]))
      else if rest[0] != ',' then None
      else
        match ReadItems(rest[1..])
        case None => None
        case Some((items, rest')) => Some(([v] + items, rest'))
  }

  function ReadMembers(s: string): (r: Option<(map<string, Value>, string)>)
    ensures r.Some? ==> |r.value.1| < |s|
    decreases |s|, 1
  {
    if s == "" || s[0] != '"' then None
    else
      match ReadString(s[1..])
      case None => None
      case Some((key, afterKey)) =>
        if afterKey == "" || afterKey[0] != ':' then None
        else
          match ReadValue(afterKey[1..])
          case None => None
          case Some((v, rest)) =>
            if rest == "" then None
            else if rest[0] == '}' then Some((map[key := v], rest[1..]))
            else if rest[0] != ',' then None
            else
              match ReadMembers(rest[1..])
              case None => None
              case Some((members, rest')) => if key in members then None else Some((members[key := v], rest'))
  }

  function Decode(s: string): Option<Value> {
    match ReadValue(s)
    case None => None
    case Some((v, rest)) => if rest == "" then Some(v) else None
  }

  // ---------------------------------------------------------------- round trip

  /** What may follow a printed value. */
  predicate Delimited(rest: string) { rest == "" || !IsDigit(rest[0]) }

  lemma {:induction false} ValueRoundTrip(v: Value, rest: string)
    requires Delimited(rest)
    ensures ReadValue(Dumps(v) + rest) == Some((v, rest))
    decreases v, 2
  {
    match v {
      case Null => WordRoundTrip("null", Null, rest);
      case Bool(b) => WordRoundTrip(if b then "true" else "false", v, rest);
      case Number(n) => NumberRoundTrip(n, rest);
      case String(s) => StringRoundTrip(s, rest);
      case Array(items) => ArrayRoundTrip(v, rest);
      case Object(members) => ObjectRoundTrip(v, rest);
    }
  }

  lemma WordRoundTrip(word: string, v: Value, rest: string)
    requires (word == "null" && v == Null) || (word == "true" && v == Bool(true)) || (word == "false" && v == Bool(false))
    ensures ReadValue(word + rest) == Some((v, rest))
  {
    var text := word + rest;
    assert text[0] == word[0] && text[|word|..] == rest && word <= text;
    assert ReadValue(text) == ReadWord(text);
  }

  lemma StringRoundTrip(s: string, rest: string)
    ensures ReadValue("\"" + Escape(s) + "\"" + rest) == Some((String(s), rest))
  {
    var text := "\"" + Escape(s) + "\"" + rest;
    assert text[0] == '"';
    assert text[1..] == Escape(s) + ("\"" + rest);
    EscapeRoundTrip(s, rest);
  }

  lemma NumberRoundTrip(n: int, rest: string)
    requires Delimited(rest)
    ensures ReadValue(Dumps(Number(n)) + rest) == Some((Number(n), rest))
  {
    var text := Dumps(Number(n)) + rest;
    if n < 0 {
      DigitsRoundTrip(-n, rest);
      assert text[0] == '-';
      assert text[1..] == Digits(-n) + rest;
      assert text[1] == Digits(-n)[0];
    } else {
      DigitsRoundTrip(n, rest);
      assert text[0] == Digits(n)[0];
      assert ReadDigits(text, 0) == ReadDigits(text[1..], text[0] as int - '0' as int);
    }
  }

  /** No printed value starts like the end of a list. */
  lemma FirstChar(v: Value)
    ensures Dumps(v) != "" && Dumps(v)[0] != ']' && Dumps(v)[0] != '}'
  {
    if v.Number? {
      if v.n >= 0 {
        DigitsRoundTrip(v.n, "");
      }
    }
  }

  lemma {:induction false} ArrayRoundTrip(v: Value, rest: string)
    requires v.Array?
    ensures ReadValue(Dumps(v) + rest) == Some((v, rest))
    decreases v, 1
  {
    var text := Dumps(v) + rest;
    assert text[0] == '[';
    if v.items == [] {
      assert Dumps(v) == "[" + "" + "]" == "[]";
      assert text[1] == ']' && text[2..] == rest;
    } else {
      assert text[1..] == DumpItems(v.items) + ("]" + rest);
      ItemsRoundTrip(v.items, rest);
      FirstChar(v.items[0]);
      assert text[1] == Dumps(v.items[0])[0];
    }
  }

  lemma {:induction false} ItemsRoundTrip(items: seq<Value>, rest: string)
    requires items != []
    ensures ReadItems(DumpItems(items) + ("]" + rest)) == Some((items, rest))
    decreases items
  {
    var v := items[0];
    if |items| == 1 {
      ValueRoundTrip(v, "]" + rest);
      assert ("]" + rest)[1..] == rest && items == [v];
    } else {
      var more := DumpItems(items[1..]) + ("]" + rest);
      assert DumpItems(items) + ("]" + rest) == Dumps(v) + ("," + more);
      ValueRoundTrip(v, "," + more);
      ItemsRoundTrip(items[1..], rest);
      assert ("," + more)[1..] == more && items == [v] + items[1..];
    }
  }

  function Restrict(members: map<string, Value>, keys: seq<string>): map<string, Value> {
    map k | k in keys && k in members :: members[k]
  }

  lemma ReadsObject(inside: string, rest: string, members: map<string, Value>)
    requires inside != "" && inside[0] == '"' && ReadMembers(inside + ("}" + rest)) == Some((members, rest))
    ensures ReadValue("{" + inside + "}" + rest) == Some((Object(members), rest))
  {
    var text := "{" + inside + "}" + rest;
    Wrapped(inside, rest);
    assert ReadValue(text) == ReadObject(text);
  }

  lemma Wrapped(inside: string, rest: string)
    requires inside != ""
    ensures var text := "{" + inside + "}" + rest;
            |text| > 1 && text[0] == '{' && text[1] == inside[0] && text[1..] == inside + ("}" + rest)
  {
  }

  lemma ReadEmptyObject(rest: string)
    ensures ReadValue("{}" + rest) == Some((Object(map[]), rest))
  {
    var text := "{}" + rest;
    assert text[0] == '{' && text[1] == '}' && text[2..] == rest;
  }

  lemma AllKeys(members: map<string, Value>)
    ensures SortedKeys(members.Keys) == [] ==> members == map[]
    ensures Restrict(members, SortedKeys(members.Keys)) == members
    ensures forall k | k in SortedKeys(members.Keys) :: k in members
  {
    SortedKeysAreSorted(members.Keys);
  }

  lemma {:induction false} ObjectRoundTrip(v: Value, rest: string)
    requires v.Object?
    ensures ReadValue(Dumps(v) + rest) == Some((v, rest))
    decreases v, 1
  {
    var keys := SortedKeys(v.members.Keys);
    AllKeys(v.members);
    if keys == [] {
      assert Dumps(v) == "{" + "" + "}" == "{}";
      ReadEmptyObject(rest);
    } else {
      SortedKeysAreSorted(v.members.Keys);
      MembersRoundTrip(v, keys, rest);
      ReadsObject(DumpMembers(v, keys), rest, v.members);
    }
  }

  /** The printed members, first key first; `after` is all that follows the first value. */
  function AfterFirst(v: Value, keys: seq<string>, rest: string): string
    requires v.Object? && keys != []
  {
    if |keys| == 1 then "}" + rest else "," + (DumpMembers(v, keys[1..]) + ("}" + rest))
  }

  lemma MembersText(v: Value, keys: seq<string>, rest: string)
    requires v.Object? && keys != [] && keys[0] in v.members
    ensures DumpMembers(v, keys) + ("}" + rest)
         == "\"" + (Escape(keys[0]) + ("\"" + (":" + (Dumps(v.members[keys[0]]) + AfterFirst(v, keys, rest)))))
    ensures DumpMembers(v, keys) != "" && DumpMembers(v, keys)[0] == '"'
  {
    var first := "\"" + Escape(keys[0]) + "\":" + Dumps(v.members[keys[0]]);
    FirstText(Escape(keys[0]), Dumps(v.members[keys[0]]), AfterFirst(v, keys, rest));
    if |keys| == 1 {
      assert DumpMembers(v, keys) == first;
    } else {
      MoreText(first, DumpMembers(v, keys[1..]), "}" + rest);
    }
  }

  lemma FirstText(key: string, value: string, after: string)
    ensures "\"" + key + "\":" + value + after == "\"" + (key + ("\"" + (":" + (value + after))))
  {
    assert "\":" == "\"" + ":";
  }

  lemma MoreText(first: string, more: string, tail: string)
    ensures first + "," + more + tail == first + ("," + (more + tail))
  {
  }

  /** The first member as the decoder meets it. */
  lemma ReadFirstMember(key: string, value: Value, after: string, s: string)
    requires s == "\"" + (Escape(key) + ("\"" + (":" + (Dumps(value) + after))))
    ensures s != "" && s[0] == '"'
    ensures ReadString(s[1..]) == Some((key, ":" + (Dumps(value) + after)))
    ensures (":" + (Dumps(value) + after))[0] == ':' && (":" + (Dumps(value) + after))[1..] == Dumps(value) + after
  {
    assert s[1..] == Escape(key) + ("\"" + (":" + (Dumps(value) + after)));
    EscapeRoundTrip(key, ":" + (Dumps(value) + after));
  }

  lemma ReadMembersStep(key: string, value: Value, after: string, s: string)
    requires s == "\"" + (Escape(key) + ("\"" + (":" + (Dumps(value) + after))))
    requires after != "" && ReadValue(Dumps(value) + after) == Some((value, after))
    ensures after[0] == '}' ==> ReadMembers(s) == Some((map[key := value], after[1..]))
    ensures var more := ReadMembers(after[1..]);
            after[0] == ',' && more.Some? && key !in more.value.0 ==>
              ReadMembers(s) == Some((more.value.0[key := value], more.value.1))
  {
    ReadFirstMember(key, value, after, s);
  }

  lemma {:induction false} MembersRoundTrip(v: Value, keys: seq<string>, rest: string)
    requires v.Object? && keys != []
    requires (forall k | k in keys :: k in v.members) && forall i, j | 0 <= i < j < |keys| :: keys[i] != keys[j]
    ensures ReadMembers(DumpMembers(v, keys) + ("}" + rest)) == Some((Restrict(v.members, keys), rest))
    ensures DumpMembers(v, keys) != "" && DumpMembers(v, keys)[0] == '"'
    decreases v, 0, |keys|
  {
    var k, value, after := keys[0], v.members[keys[0]], AfterFirst(v, keys, rest);
    MembersText(v, keys, rest);
    ValueRoundTrip(value, after);
    ReadMembersStep(k, value, after, DumpMembers(v, keys) + ("}" + rest));
    RestrictFirst(v.members, keys);
    if |keys| == 1 {
      assert after[1..] == rest;
    } else {
      assert after[1..] == DumpMembers(v, keys[1..]) + ("}" + rest);
      MembersRoundTrip(v, keys[1..], rest);
    }
  }

  lemma RestrictFirst(members: map<string, Value>, keys: seq<string>)
    requires keys != [] && keys[0] in members && forall i, j | 0 <= i < j < |keys| :: keys[i] != keys[j]
    ensures Restrict(members, keys) == Restrict(members, keys[1..])[keys[0] := members[keys[0]]]
    ensures |keys| == 1 ==> Restrict(members, keys) == map[keys[0] := members[keys[0]]]
    ensures keys[0] !in Restrict(members, keys[1..])
  {
  }

  /** Decoding the canonical text gives the value back, objects included, whatever order their members
      were inserted in; so two values with the same text are the same value. */
  lemma DecodeUndoesDumps(v: Value)
    ensures Decode(Dumps(v)) == Some(v)
  {
    ValueRoundTrip(v, "");
    assert Dumps(v) + "" == Dumps(v);
  }

  lemma DumpsIsInjective(v: Value, w: Value)
    requires Dumps(v) == Dumps(w)
    ensures v == w
  {
    DecodeUndoesDumps(v);
    DecodeUndoesDumps(w);
  }
}
