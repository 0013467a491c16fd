/** JSON values as the store keeps them. `labels` and `metadata` of an artifact, the
    `params` of a job and the `payload` of a change row are written with json.dumps and read
    back with json.loads (db.py:67, db.py:69, db.py:75, db.py:91-92, db.py:135). The model
    fixes one printer, `Encode`, in the shape json.dumps produces by default (", " between
    items, ": " after keys), and one parser, `Decode`; `DecodeEncode` proves that the parser
    inverts the printer, so the encoding is injective. */
module JsonText {
  import opened Wrappers
  import opened Seqs

  datatype Json =
    | JNull
    | JBool(b: bool)
    | JNum(n: int)
    | JStr(s: string)
    | JArr(items: seq<Json>)
    | JObj(members: seq<Member>)

  /** One `"key": value` pair of an object, in the order the object lists them. */
  datatype Member = Member(key: string, value: Json)

  /** Python truthiness of a decoded value: None, False, 0, "", [] and {} are falsy. */
  predicate Truthy(v: Json) {
    match v
    case JNull => false
    case JBool(b) => b
    case JNum(n) => n != 0
    case JStr(s) => s != []
    case JArr(items) => items != []
    case JObj(members) => members != []
  }

  // ---------------------------------------------------------------------------------------
  // Objects as Python dictionaries

  predicate HasKey(members: seq<Member>, key: string) {
    exists i :: 0 <= i < |members| && members[i].key == key
  }

  /** `d.get(key)`: json.loads keeps the value of the last of several equal keys. */
  function Lookup(members: seq<Member>, key: string): (r: Option<Json>)
    ensures r.Some? <==> HasKey(members, key)
    ensures r.Some? ==> exists i :: 0 <= i < |members| && members[i] == Member(key, r.value)
  {
    if members == [] then None
    else
      var last := members[|members| - 1];
      var r := if last.key == key then Some(last.value) else Lookup(members[..|members| - 1], key);
      assert HasKey(members[..|members| - 1], key) ==> HasKey(members, key);
      r
  }

  /** `d[key] = value`: a key already present keeps its place and takes the new value, a new
      key is added last. */
  function Assign(members: seq<Member>, key: string, value: Json): (r: seq<Member>)
    ensures Lookup(r, key) == Some(value)
    ensures forall k :: k != key ==> Lookup(r, k) == Lookup(members, k)
  {
    if HasKey(members, key) then Replace(members, key, value) else members + [Member(key, value)]
  }

  function Replace(members: seq<Member>, key: string, value: Json): (r: seq<Member>)
    ensures |r| == |members|
    ensures HasKey(members, key) ==> Lookup(r, key) == Some(value)
    ensures forall k :: k != key ==> Lookup(r, k) == Lookup(members, k)
  {
    if members == [] then []
    else
      var n := |members| - 1;
      var front := Replace(members[..n], key, value);
      var last := if members[n].key == key then Member(key, value) else members[n];
      var r := front + [last];
      assert r[..n] == front;
      assert HasKey(members, key) && members[n].key != key ==> HasKey(members[..n], key) by {
        if HasKey(members, key) && members[n].key != key {
          var i :| 0 <= i < |members| && members[i].key == key;
          assert members[..n][i].key == key;
        }
      }
      r
  }

  // ---------------------------------------------------------------------------------------
  // The printer

  function EscapeChar(c: char): string {
    if c == '"' then ['\\', '"']
    else if c == '\\' then ['\\', '\\']
    else if c == '\n' then ['\\', 'n']
    else [c]
  }

  function Escape(s: string): string {
    if s == [] then [] else EscapeChar(s[0]) + Escape(s[1..])
  }

  function Quote(s: string): string {
    ['"'] + Escape(s) + ['"']
  }

  predicate IsDigit(c: char) {
    '0' <= c <= '9'
  }

  function DigitChar(d: nat): (c: char)
    requires d < 10
  {
    ('0' as int + d) as char
  }

  function DigitValue(c: char): nat
    requires IsDigit(c)
  {
    c as int - '0' as int
  }

  /** Decimal digits of `n`, most significant first, without leading zeros. */
  function Digits(n: nat): string {
    if n < 10 then [DigitChar(n)] else Digits(n / 10) + [DigitChar(n % 10)]
  }

  function EncodeInt(n: int): string {
    if n < 0 then ['-'] + Digits(-n) else Digits(n)
  }

  function Encode(v: Json): string
    decreases v
  {
    match v
    case JNull => "null"
    case JBool(b) => if b then "true" else "false"
    case JNum(n) => EncodeInt(n)
    case JStr(s) => Quote(s)
    case JArr(items) => "[" + EncodeItems(items) + "]"
    case JObj(members) => "{" + EncodeMembers(members) + "}"
  }

  function EncodeItems(items: seq<Json>): string
    decreases items
  {
    if items == [] then ""
    else if |items| == 1 then Encode(items[0])
    else Encode(items[0]) + ", " + EncodeItems(items[1..])
  }

  function EncodeMember(m: Member): string
    decreases m
  {
    Quote(m.key) + ": " + Encode(m.value)
  }

  function EncodeMembers(members: seq<Member>): string
    decreases members
  {
    if members == [] then ""
    else if |members| == 1 then EncodeMember(members[0])
    else EncodeMember(members[0]) + ", " + EncodeMembers(members[1..])
  }

  // ---------------------------------------------------------------------------------------
  // The parser: each function returns what it read and the text after it

  predicate StartsWith(s: string, prefix: string) {
    |prefix| <= |s| && s[..|prefix|] == prefix
  }

  function LeadingDigits(s: string): (k: nat)
    ensures k <= |s|
    ensures forall i :: 0 <= i < k ==> IsDigit(s[i])
    ensures k < |s| ==> !IsDigit(s[k])
  {
    if s == [] || !IsDigit(s[0]) then 0 else 1 + LeadingDigits(s[1..])
  }

  function DigitsValue(d: string): nat
    requires forall i :: 0 <= i < |d| ==> IsDigit(d[i])
  {
    if d == [] then 0 else DigitsValue(d[..|d| - 1]) * 10 + DigitValue(d[|d| - 1])
  }

  function ParseNat(s: string): (r: Option<(nat, string)>)
    ensures r.Some? ==> |r.value.1| < |s|
  {
    var k := LeadingDigits(s);
    if k == 0 then None else Some((DigitsValue(s[..k]), s[k..]))
  }

  function Unescape(c: char): Option<char> {
    if c == '"' then Some('"')
    else if c == '\\' then Some('\\')
    else if c == 'n' then Some('\n')
    else None
  }

  /** Reads the body of a string literal whose opening quote is already consumed. */
  function ParseString(s: string): (r: Option<(string, string)>)
    ensures r.Some? ==> |r.value.1| < |s|
  {
    if s == [] then None
    else if s[0] == '"' then Some(([], s[1..]))
    else if s[0] == '\\' then
      if |s| < 2 || Unescape(s[1]).None? then None
      else match ParseString(s[2..])
        case None => None
        case Some((t, rest)) => Some(([Unescape(s[1]).value] + t, rest))
    else match ParseString(s[1..])
      case None => None
      case Some((t, rest)) => Some(([s[0]] + t, rest))
  }

  function ParseValue(s: string): (r: Option<(Json, string)>)
    ensures r.Some? ==> |r.value.1| < |s|
    decreases |s|, 0
  {
    if s == [] then None
    else if s[0] == 'n' then (if StartsWith(s, "null") then Some((JNull, s[4..])) else None)
    else if s[0] == 't' then (if StartsWith(s, "true") then Some((JBool(true), s[4..])) else None)
    else if s[0] == 'f' then (if StartsWith(s, "false") then Some((JBool(false), s[5..])) else None)
    else if s[0] == '"' then
      match ParseString(s[1..])
      case None => None
      case Some((t, rest)) => Some((JStr(t), rest))
    else if s[0] == '-' then
      match ParseNat(s[1..])
      case None => None
      case Some((n, rest)) => Some((JNum(0 - n as int), rest))
    else if IsDigit(s[0]) then
      match ParseNat(s)
      case None => None
      case Some((n, rest)) => Some((JNum(n), rest))
    else if s[0] == '[' then
      if StartsWith(s[1..], "]") then Some((JArr([]), s[2..]))
      else match ParseItems(s[1..])
        case None => None
        case Some((items, rest)) => Some((JArr(items), rest))
    else if s[0] == '{' then
      if StartsWith(s[1..], "}") then Some((JObj([]), s[2..]))
      else match ParseMembers(s[1..])
        case None => None
        case Some((members, rest)) => Some((JObj(members), rest))
    else None
  }

  /** Reads `v, v, ..., v]` after an opening bracket. */
  function ParseItems(s: string): (r: Option<(seq<Json>, string)>)
    ensures r.Some? ==> |r.value.1| < |s|
    decreases |s|, 1
  {
    match ParseValue(s)
    case None => None
    case Some((v, rest)) =>
      if StartsWith(rest, ", ") then
        match ParseItems(rest[2..])
        case None => None
        case Some((vs, rest')) => Some(([v] + vs, rest'))
      else if StartsWith(rest, "]") then Some(([v], rest[1..]))
      else None
  }

  /** Reads `"k": v, ..., "k": v}` after an opening brace. */
  function ParseMembers(s: string): (r: Option<(seq<Member>, string)>)
    ensures r.Some? ==> |r.value.1| < |s|
    decreases |s|, 1
  {
    if s == [] || s[0] != '"' then None
    else match ParseString(s[1..])
      case None => None
      case Some((key, afterKey)) =>
        if !StartsWith(afterKey, ": ") then None
        else match ParseValue(afterKey[2..])
          case None => None
          case Some((v, rest)) =>
            if StartsWith(rest, ", ") then
              match ParseMembers(rest[2..])
              case None => None
              case Some((ms, rest')) => Some(([Member(key, v)] + ms, rest'))
            else if StartsWith(rest, "}") then Some(([Member(key, v)], rest[1..]))
            else None
  }

  /** json.loads: the whole text must be one value. */
  function Decode(text: string): Option<Json> {
    match ParseValue(text)
    case Some((v, rest)) => if rest == [] then Some(v) else None
    case None => None
  }

  // ---------------------------------------------------------------------------------------
  // The parser inverts the printer

  /** What may follow a value inside a document: its end, or the punctuation after an item. */
  predicate Delimited(rest: string) {
    rest == [] || rest[0] == ',' || rest[0] == ']' || rest[0] == '}'
  }

  lemma {:induction false} DigitsAreDigits(n: nat)
    ensures Digits(n) != []
    ensures forall i :: 0 <= i < |Digits(n)| ==> IsDigit(Digits(n)[i])
    ensures DigitsValue(Digits(n)) == n
  {
    if n >= 10 {
      DigitsAreDigits(n / 10);
      var d := Digits(n);
      assert d[..|d| - 1] == Digits(n / 10);
    }
  }

  lemma {:induction false} LeadingDigitsOfAppend(d: string, rest: string)
    requires forall i :: 0 <= i < |d| ==> IsDigit(d[i])
    requires rest == [] || !IsDigit(rest[0])
    ensures LeadingDigits(d + rest) == |d|
  {
    if d != [] {
      assert (d + rest)[1..] == d[1..] + rest;
      LeadingDigitsOfAppend(d[1..], rest);
    } else {
      assert d + rest == rest;
    }
  }

  lemma ParseDigits(n: nat, rest: string)
    requires rest == [] || !IsDigit(rest[0])
    ensures ParseNat(Digits(n) + rest) == Some((n, rest))
  {
    var d := Digits(n);
    DigitsAreDigits(n);
    LeadingDigitsOfAppend(d, rest);
    assert (d + rest)[..|d|] == d;
    assert (d + rest)[|d|..] == rest;
  }

  lemma {:induction false} ParseEscaped(t: string, rest: string)
    ensures ParseString(Escape(t) + ['"'] + rest) == Some((t, rest))
  {
    var s := Escape(t) + ['"'] + rest;
    if t == [] {
      assert s == ['"'] + rest;
    } else {
      ParseEscaped(t[1..], rest);
      var tail := Escape(t[1..]) + ['"'] + rest;
      assert s == EscapeChar(t[0]) + tail;
      if t[0] == '"' || t[0] == '\\' || t[0] == '\n' {
        assert s[2..] == tail;
      } else {
        assert s[1..] == tail;
      }
      assert [t[0]] + t[1..] == t;
    }
  }

  lemma EncodeStart(v: Json)
    ensures Encode(v) != []
    ensures Encode(v)[0] != ']' && Encode(v)[0] != '}'
  {
    match v
    case JNum(n) =>
      DigitsAreDigits(if n < 0 then -n else n);
    case _ =>
  }

  lemma {:induction false} ParseEncoded(v: Json, rest: string)
    requires Delimited(rest)
    ensures ParseValue(Encode(v) + rest) == Some((v, rest))
    decreases v, 1
  {
    match v
    case JNull =>
      assert (Encode(v) + rest)[..4] == "null";
    case JBool(b) =>
      if b {
        assert (Encode(v) + rest)[..4] == "true";
      } else {
        assert (Encode(v) + rest)[..5] == "false";
      }
    case JNum(n) =>
      ParseEncodedNum(n, rest);
    case JStr(t) =>
      ParseEncodedStr(t, rest);
    case JArr(items) =>
      if items == [] {
        assert Encode(v) + rest == "[]" + rest;
      } else {
        ParseEncodedItems(items, rest);
        ParseEncodedArr(items, rest);
      }
    case JObj(members) =>
      if members == [] {
        assert Encode(v) + rest == "{}" + rest;
      } else {
        ParseEncodedMembers(members, rest);
        ParseEncodedObj(members, rest);
      }
  }

  lemma ParseEncodedNum(n: int, rest: string)
    requires Delimited(rest)
    ensures ParseValue(Encode(JNum(n)) + rest) == Some((JNum(n), rest))
  {
    var s := Encode(JNum(n)) + rest;
    if n < 0 {
      var t := Digits(-n) + rest;
      ParseDigits(-n, rest);
      assert s == ['-'] + t;
      DropFirst('-', t);
      ParseMinus(s, -n, rest);
    } else {
      var d := Digits(n);
      ParseDigits(n, rest);
      DigitsAreDigits(n);
      assert s == d + rest;
      FirstOf(d, rest);
      ParseUnsigned(s, n, rest);
    }
  }

  lemma ParseMinus(s: string, n: nat, rest: string)
    requires s != [] && s[0] == '-' && ParseNat(s[1..]) == Some((n, rest))
    ensures ParseValue(s) == Some((JNum(0 - n as int), rest))
  {
  }

  lemma ParseUnsigned(s: string, n: nat, rest: string)
    requires s != [] && IsDigit(s[0]) && ParseNat(s) == Some((n, rest))
    ensures ParseValue(s) == Some((JNum(n), rest))
  {
  }

  lemma ParseEncodedStr(t: string, rest: string)
    ensures ParseValue(Encode(JStr(t)) + rest) == Some((JStr(t), rest))
  {
    var s := Encode(JStr(t)) + rest;
    ParseEscaped(t, rest);
    assert s[0] == '"';
    assert s[1..] == Escape(t) + ['"'] + rest;
  }

  // The steps below are stated over abstract text, so that the solver never unfolds the
  // parser and the printer in one context.

  lemma ParseBracketed(s: string, t: string, items: seq<Json>, rest: string)
    requires s == "[" + t
    requires t != [] && t[0] != ']'
    requires ParseItems(t) == Some((items, rest))
    ensures ParseValue(s) == Some((JArr(items), rest))
  {
    assert s[0] == '[' && s[1..] == t;
    assert !StartsWith(s[1..], "]");
  }

  lemma ParseBraced(s: string, t: string, members: seq<Member>, rest: string)
    requires s == "{" + t
    requires t != [] && t[0] != '}'
    requires ParseMembers(t) == Some((members, rest))
    ensures ParseValue(s) == Some((JObj(members), rest))
  {
    assert s[0] == '{' && s[1..] == t;
    assert !StartsWith(s[1..], "}");
  }

  lemma ParseItemsStep(s: string, v: Json, after: string, vs: seq<Json>, rest: string)
    requires ParseValue(s) == Some((v, after))
    requires |after| >= 2 && after[..2] == ", "
    requires ParseItems(after[2..]) == Some((vs, rest))
    ensures ParseItems(s) == Some(([v] + vs, rest))
  {
  }

  lemma ParseItemsLast(s: string, v: Json, after: string, rest: string)
    requires ParseValue(s) == Some((v, after))
    requires after == "]" + rest
    ensures ParseItems(s) == Some(([v], rest))
  {
    assert after[0] == ']' && after[1..] == rest;
    assert !StartsWith(after, ", ");
  }

  lemma ParseMembersStep(s: string, key: string, afterKey: string, v: Json, after: string,
                         ms: seq<Member>, rest: string)
    requires s != [] && s[0] == '"'
    requires ParseString(s[1..]) == Some((key, afterKey))
    requires |afterKey| >= 2 && afterKey[..2] == ": "
    requires ParseValue(afterKey[2..]) == Some((v, after))
    requires |after| >= 2 && after[..2] == ", "
    requires ParseMembers(after[2..]) == Some((ms, rest))
    ensures ParseMembers(s) == Some(([Member(key, v)] + ms, rest))
  {
  }

  lemma ParseMembersLast(s: string, key: string, afterKey: string, v: Json, after: string,
                         rest: string)
    requires s != [] && s[0] == '"'
    requires ParseString(s[1..]) == Some((key, afterKey))
    requires |afterKey| >= 2 && afterKey[..2] == ": "
    requires ParseValue(afterKey[2..]) == Some((v, after))
    requires after == "}" + rest
    ensures ParseMembers(s) == Some(([Member(key, v)], rest))
  {
    assert StartsWith(afterKey, ": ");
    Closing(after, '}', rest);
  }

  /** Text opening with a closing bracket does not open with a separator. */
  lemma Closing(after: string, close: char, rest: string)
    requires close != ','
    requires after == [close] + rest
    ensures !StartsWith(after, ", ") && StartsWith(after, [close]) && after[1..] == rest
  {
    assert after[0] == close;
  }

  lemma ParseEncodedArr(items: seq<Json>, rest: string)
    requires items != []
    requires ParseItems(EncodeItems(items) + "]" + rest) == Some((items, rest))
    ensures ParseValue(Encode(JArr(items)) + rest) == Some((JArr(items), rest))
  {
    var t := EncodeItems(items) + "]" + rest;
    assert Encode(JArr(items)) + rest == "[" + t;
    EncodeItemsStart(items);
    ParseBracketed(Encode(JArr(items)) + rest, t, items, rest);
  }

  lemma ParseEncodedObj(members: seq<Member>, rest: string)
    requires members != []
    requires ParseMembers(EncodeMembers(members) + "}" + rest) == Some((members, rest))
    ensures ParseValue(Encode(JObj(members)) + rest) == Some((JObj(members), rest))
  {
    var t := EncodeMembers(members) + "}" + rest;
    assert Encode(JObj(members)) + rest == "{" + t;
    EncodeMembersStart(members);
    ParseBraced(Encode(JObj(members)) + rest, t, members, rest);
  }

  lemma EncodeMembersStart(members: seq<Member>)
    requires members != []
    ensures EncodeMembers(members) != [] && EncodeMembers(members)[0] == '"'
  {
    var m := members[0];
    var key := ['"'] + Escape(m.key);
    assert EncodeMember(m) == key + (['"'] + ": " + Encode(m.value));
    FirstOf(key, ['"'] + ": " + Encode(m.value));
    if |members| > 1 {
      assert EncodeMembers(members) == EncodeMember(m) + (", " + EncodeMembers(members[1..]));
      FirstOf(EncodeMember(m), ", " + EncodeMembers(members[1..]));
    }
  }

  lemma EncodeItemsStart(items: seq<Json>)
    requires items != []
    ensures EncodeItems(items) != [] && EncodeItems(items)[0] != ']'
  {
    var e := Encode(items[0]);
    EncodeStart(items[0]);
    if |items| > 1 {
      var tail := ", " + EncodeItems(items[1..]);
      assert EncodeItems(items) == e + tail;
      FirstOf(e, tail);
    }
  }

  lemma {:induction false} ParseEncodedItems(items: seq<Json>, rest: string)
    requires items != []
    ensures ParseItems(EncodeItems(items) + "]" + rest) == Some((items, rest))
    decreases items
  {
    if |items| == 1 {
      ParseEncoded(items[0], "]" + rest);
      ParseOneItem(items, rest);
    } else {
      ParseEncoded(items[0], ", " + (EncodeItems(items[1..]) + "]" + rest));
      ParseEncodedItems(items[1..], rest);
      ParseMoreItems(items, rest);
    }
  }

  lemma ParseOneItem(items: seq<Json>, rest: string)
    requires |items| == 1
    requires ParseValue(Encode(items[0]) + ("]" + rest)) == Some((items[0], "]" + rest))
    ensures ParseItems(EncodeItems(items) + "]" + rest) == Some((items, rest))
  {
    var s := EncodeItems(items) + "]" + rest;
    assert s == Encode(items[0]) + ("]" + rest);
    ParseItemsLast(s, items[0], "]" + rest, rest);
    assert [items[0]] == items;
  }

  lemma ParseMoreItems(items: seq<Json>, rest: string)
    requires |items| > 1
    requires ParseValue(Encode(items[0]) + (", " + (EncodeItems(items[1..]) + "]" + rest)))
          == Some((items[0], ", " + (EncodeItems(items[1..]) + "]" + rest)))
    requires ParseItems(EncodeItems(items[1..]) + "]" + rest) == Some((items[1..], rest))
    ensures ParseItems(EncodeItems(items) + "]" + rest) == Some((items, rest))
  {
    var tail := EncodeItems(items[1..]) + "]" + rest;
    ItemsText(items, rest);
    Separated(tail);
    ParseItemsStep(EncodeItems(items) + "]" + rest, items[0], ", " + tail, items[1..], rest);
    assert [items[0]] + items[1..] == items;
  }

  lemma ItemsText(items: seq<Json>, rest: string)
    requires |items| > 1
    ensures EncodeItems(items) + "]" + rest
         == Encode(items[0]) + (", " + (EncodeItems(items[1..]) + "]" + rest))
  {
    assert EncodeItems(items) == Encode(items[0]) + ", " + EncodeItems(items[1..]);
    Regroup5(Encode(items[0]), ", ", EncodeItems(items[1..]), "]", rest);
  }

  lemma Separated(tail: string)
    ensures (", " + tail)[..2] == ", " && (", " + tail)[2..] == tail
    ensures (": " + tail)[..2] == ": " && (": " + tail)[2..] == tail
  {
  }

  lemma {:induction false} ParseEncodedMember(m: Member, after: string)
    requires Delimited(after)
    ensures MemberParses(m, after)
    decreases m, 0
  {
    var q, e := Escape(m.key), Encode(m.value);
    var afterKey := ": " + e + after;
    assert EncodeMember(m) == ['"'] + q + ['"'] + ": " + e;
    Regroup6(['"'], q, ['"'], ": ", e, after);
    DropFirst('"', q + ['"'] + afterKey);
    ParseEscaped(m.key, afterKey);
    ParseEncoded(m.value, after);
  }

  lemma {:induction false} ParseEncodedMembers(members: seq<Member>, rest: string)
    requires members != []
    ensures ParseMembers(EncodeMembers(members) + "}" + rest) == Some((members, rest))
    decreases members
  {
    if |members| == 1 {
      ParseEncodedMember(members[0], "}" + rest);
      ParseOneMember(members, rest);
    } else {
      ParseEncodedMember(members[0], ", " + (EncodeMembers(members[1..]) + "}" + rest));
      ParseEncodedMembers(members[1..], rest);
      ParseMoreMembers(members, rest);
    }
  }

  /** What `ParseEncodedMember` establishes about the text of one member followed by `after`. */
  predicate MemberParses(m: Member, after: string) {
    var s := EncodeMember(m) + after;
    && s != [] && s[0] == '"'
    && ParseString(s[1..]) == Some((m.key, ": " + Encode(m.value) + after))
    && ParseValue(Encode(m.value) + after) == Some((m.value, after))
  }

  lemma ParseOneMember(members: seq<Member>, rest: string)
    requires |members| == 1
    requires MemberParses(members[0], "}" + rest)
    ensures ParseMembers(EncodeMembers(members) + "}" + rest) == Some((members, rest))
  {
    var m := members[0];
    var after := "}" + rest;
    var s := EncodeMembers(members) + "}" + rest;
    assert EncodeMembers(members) == EncodeMember(m);
    assert s == EncodeMember(m) + after;
    var afterKey := ": " + Encode(m.value) + after;
    Assoc(": ", Encode(m.value), after);
    Separated(Encode(m.value) + after);
    ParseMembersLast(s, m.key, afterKey, m.value, after, rest);
    assert [Member(m.key, m.value)] == members;
  }

  lemma ParseMoreMembers(members: seq<Member>, rest: string)
    requires |members| > 1
    requires MemberParses(members[0], ", " + (EncodeMembers(members[1..]) + "}" + rest))
    requires ParseMembers(EncodeMembers(members[1..]) + "}" + rest) == Some((members[1..], rest))
    ensures ParseMembers(EncodeMembers(members) + "}" + rest) == Some((members, rest))
  {
    var m := members[0];
    var tail := EncodeMembers(members[1..]) + "}" + rest;
    MembersText(members, rest);
    ParseMemberThen(EncodeMember(m) + (", " + tail), m.key, Encode(m.value), m.value,
                    ", " + tail, tail, members[1..], rest);
    assert [Member(m.key, m.value)] + members[1..] == members;
  }

  lemma ParseMemberThen(s: string, key: string, valueText: string, v: Json, after: string,
                        tail: string, ms: seq<Member>, rest: string)
    requires s != [] && s[0] == '"'
    requires ParseString(s[1..]) == Some((key, ": " + valueText + after))
    requires ParseValue(valueText + after) == Some((v, after))
    requires after == ", " + tail
    requires ParseMembers(tail) == Some((ms, rest))
    ensures ParseMembers(s) == Some(([Member(key, v)] + ms, rest))
  {
    var afterKey := ": " + valueText + after;
    Assoc(": ", valueText, after);
    Separated(valueText + after);
    Separated(tail);
    ParseMembersStep(s, key, afterKey, v, after, ms, rest);
  }

  lemma MembersText(members: seq<Member>, rest: string)
    requires |members| > 1
    ensures EncodeMembers(members) + "}" + rest
         == EncodeMember(members[0]) + (", " + (EncodeMembers(members[1..]) + "}" + rest))
  {
    assert EncodeMembers(members) == EncodeMember(members[0]) + ", " + EncodeMembers(members[1..]);
    Regroup5(EncodeMember(members[0]), ", ", EncodeMembers(members[1..]), "}", rest);
  }

  /** json.loads(json.dumps(v)) == v. */
  lemma DecodeEncode(v: Json)
    ensures Decode(Encode(v)) == Some(v)
  {
    ParseEncoded(v, []);
    assert Encode(v) + [] == Encode(v);
  }

  /** Distinct values have distinct encodings. */
  lemma EncodeInjective(a: Json, b: Json)
    requires Encode(a) == Encode(b)
    ensures a == b
  {
    DecodeEncode(a);
    DecodeEncode(b);
  }
}
