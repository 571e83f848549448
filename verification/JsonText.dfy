/** JSON text (RFC 8259).

    A reader that follows sections 2 to 7, a printer without white space, and their round trip. */
module JsonText {
  import opened Sequences
  import opened Decimal

  datatype Member = Member(key: string, value: Json)
  datatype Json =
    | JNull
    | JBool(b: bool)
    | JNum(lexeme: string)
    | JStr(s: string)
    | JArr(items: seq<Json>)
    | JObj(members: seq<Member>)

  datatype Read<+T> = Got(value: T, rest: string) | Bad

  predicate IsSpace(c: char) {
    c == ' ' || c == '\t' || c == '\n' || c == '\r'
  }

  /** Section 2: insignificant white space. */
  function SkipSpace(s: string): (r: string)
    ensures |r| <= |s|
    ensures r != "" ==> !IsSpace(r[0])
  {
    if s != "" && IsSpace(s[0]) then SkipSpace(s[1..]) else s
  }

  // ---------------------------------------------------------------------------------------------
  // Section 7: strings
  // ---------------------------------------------------------------------------------------------

  function HexValue(c: char): Option<nat> {
    if IsDigit(c) then Some(DigitValue(c))
    else if 'a' <= c <= 'f' then Some(c as int - 'a' as int + 10)
    else if 'A' <= c <= 'F' then Some(c as int - 'A' as int + 10)
    else None
  }

  /** Four hexadecimal digits. */
  function ReadHex(s: string): (r: Read<nat>)
    ensures r.Got? ==> |r.rest| < |s| && r.value < 0x10000
  {
    if |s| < 4 then Bad
    else
      var a, b, c, d := HexValue(s[0]), HexValue(s[1]), HexValue(s[2]), HexValue(s[3]);
      if a.Some? && b.Some? && c.Some? && d.Some?
      then Got(a.value * 0x1000 + b.value * 0x100 + c.value * 0x10 + d.value, s[4..])
      else Bad
  }

  function ShortEscape(c: char): Option<char> {
    match c
    case '"' => Some('"')
    case '\\' => Some('\\')
    case '/' => Some('/')
    case 'b' => Some('\U{8}')
    case 'f' => Some('\U{c}')
    case 'n' => Some('\n')
    case 'r' => Some('\r')
    case 't' => Some('\t')
    case _ => None
  }

  /** What follows `\u`: one code unit, or a surrogate pair for a character outside the basic plane. */
  function ReadUnicode(s: string): (r: Read<char>)
    ensures r.Got? ==> |r.rest| < |s|
  {
    var high := ReadHex(s);
    if high.Bad? then Bad
    else if high.value < 0xD800 || 0xE000 <= high.value then Got(high.value as char, high.rest)
    else if high.value >= 0xDC00 || |high.rest| < 2 || high.rest[0] != '\\' || high.rest[1] != 'u' then Bad
    else
      var low := ReadHex(high.rest[2..]);
      if low.Bad? || low.value < 0xDC00 || 0xE000 <= low.value then Bad
      else Got((0x10000 + (high.value - 0xD800) * 0x400 + (low.value - 0xDC00)) as char, low.rest)
  }

  /** The rest of a string after its opening quote. */
  function ReadString(s: string): (r: Read<string>)
    ensures r.Got? ==> |r.rest| < |s|
  {
    if s == "" then Bad
    else if s[0] == '"' then Got("", s[1..])
    else if s[0] == '\\' then
      if |s| < 2 then Bad
      else
        var first: Read<char> :=
          if s[1] == 'u' then ReadUnicode(s[2..])
          else match ShortEscape(s[1]) { case Some(c) => Got(c, s[2..]) case None => Bad };
        if first.Bad? then Bad else Prefix(first.value, ReadString(first.rest))
    else if s[0] < ' ' then Bad
    else Prefix(s[0], ReadString(s[1..]))
  }

  function Prefix(c: char, r: Read<string>): Read<string> {
    if r.Bad? then Bad else Got([c] + r.value, r.rest)
  }

  // ---------------------------------------------------------------------------------------------
  // Section 6: numbers
  // ---------------------------------------------------------------------------------------------

  predicate InNumber(c: char) {
    IsDigit(c) || c == '-' || c == '+' || c == '.' || c == 'e' || c == 'E'
  }

  function AfterDigits(s: string): (r: string)
    ensures |r| <= |s|
  {
    if s != "" && IsDigit(s[0]) then AfterDigits(s[1..]) else s
  }

  predicate StartsDigit(s: string) {
    s != "" && IsDigit(s[0])
  }

  predicate IsExponent(s: string) {
    s != "" && (s[0] == 'e' || s[0] == 'E') &&
    var t := s[1..];
    var u := if t != "" && (t[0] == '+' || t[0] == '-') then t[1..] else t;
    StartsDigit(u) && AfterDigits(u) == ""
  }

  /** An optional minus, an integer without leading zeros, an optional fraction, an optional exponent. */
  predicate IsNumber(s: string) {
    var t := if s != "" && s[0] == '-' then s[1..] else s;
    StartsDigit(t) &&
    var u := if t[0] == '0' then t[1..] else AfterDigits(t);
    var dotted := u != "" && u[0] == '.';
    (dotted ==> StartsDigit(u[1..])) &&
    var w := if dotted then AfterDigits(u[1..]) else u;
    w == "" || IsExponent(w)
  }

  function Munch(s: string): (n: nat)
    ensures n <= |s|
  {
    if s != "" && InNumber(s[0]) then 1 + Munch(s[1..]) else 0
  }

  function ReadNumber(s: string): (r: Read<Json>)
    ensures r.Got? ==> |r.rest| < |s|
  {
    var n := Munch(s);
    if n > 0 && IsNumber(s[..n]) then Got(JNum(s[..n]), s[n..]) else Bad
  }

  // ---------------------------------------------------------------------------------------------
  // Sections 3, 4 and 5: values, objects and arrays
  // ---------------------------------------------------------------------------------------------

  function ReadWord(s: string, word: string, value: Json): (r: Read<Json>)
    requires word != ""
    ensures r.Got? ==> |r.rest| < |s|
  {
    if word <= s then Got(value, s[|word|..]) else Bad
  }

  /** A member of that name replaced, or added at the end. */
  function Put(members: seq<Member>, key: string, value: Json): seq<Member> {
    if members == [] then [Member(key, value)]
    else if members[0].key == key then [Member(key, value)] + members[1..]
    else [members[0]] + Put(members[1..], key, value)
  }

  function ReadValue(s: string): (r: Read<Json>)
    ensures r.Got? ==> |r.rest| < |s|
    decreases |s|, 0
  {
    var t := SkipSpace(s);
    if t == "" then Bad
    else
      match t[0]
      case '"' =>
        var text := ReadString(t[1..]);
        if text.Bad? then Bad else Got(JStr(text.value), text.rest)
      case '[' =>
        var u := SkipSpace(t[1..]);
        if u != "" && u[0] == ']' then Got(JArr([]), u[1..]) else ReadItems(t[1..], [])
      case '{' =>
        var u := SkipSpace(t[1..]);
        if u != "" && u[0] == '}' then Got(JObj([]), u[1..]) else ReadMembers(t[1..], [])
      case 'n' => ReadWord(t, "null", JNull)
      case 't' => ReadWord(t, "true", JBool(true))
      case 'f' => ReadWord(t, "false", JBool(false))
      case _ => ReadNumber(t)
  }

  /** Values with commas between them, up to the closing bracket. */
  function ReadItems(s: string, sofar: seq<Json>): (r: Read<Json>)
    ensures r.Got? ==> |r.rest| < |s|
    decreases |s|, 1
  {
    var v := ReadValue(s);
    if v.Bad? then Bad
    else
      var t := SkipSpace(v.rest);
      if t == "" then Bad
      else if t[0] == ',' then ReadItems(t[1..], sofar + [v.value])
      else if t[0] == ']' then Got(JArr(sofar + [v.value]), t[1..])
      else Bad
  }

  /** Named values with commas between them, up to the closing brace. */
  function ReadMembers(s: string, sofar: seq<Member>): (r: Read<Json>)
    ensures r.Got? ==> |r.rest| < |s|
    decreases |s|, 1
  {
    var t := SkipSpace(s);
    if t == "" || t[0] != '"' then Bad
    else
      var key := ReadString(t[1..]);
      if key.Bad? then Bad
      else
        var colon := SkipSpace(key.rest);
        if colon == "" || colon[0] != ':' then Bad
        else
          var v := ReadValue(colon[1..]);
          if v.Bad? then Bad
          else
            var u := SkipSpace(v.rest);
            if u == "" then Bad
            else if u[0] == ',' then ReadMembers(u[1..], Put(sofar, key.value, v.value))
            else if u[0] == '}' then Got(JObj(Put(sofar, key.value, v.value)), u[1..])
            else Bad
  }

  /** A whole text: one value with white space around it. */
  function Parse(s: string): Option<Json> {
    var v := ReadValue(s);
    if v.Got? && SkipSpace(v.rest) == "" then Some(v.value) else None
  }

  // ---------------------------------------------------------------------------------------------
  // Printing
  // ---------------------------------------------------------------------------------------------

  function HexDigit(n: nat): char
    requires n < 16
  {
    if n < 10 then ('0' as int + n) as char else ('a' as int + n - 10) as char
  }

  function EscapeChar(c: char): (r: string)
    ensures r != "" && (r[0] != '"')
  {
    match c
    case '"' => ['\\', '"']
    case '\\' => ['\\', '\\']
    case '\n' => ['\\', 'n']
    case '\r' => ['\\', 'r']
    case '\t' => ['\\', 't']
    case '\U{8}' => ['\\', 'b']
    case '\U{c}' => ['\\', 'f']
    case _ =>
      if c < ' ' then ['\\', 'u', '0', '0', HexDigit(c as int / 16), HexDigit(c as int % 16)]
      else [c]
  }

  function EscapeAll(s: string): string {
    if s == "" then "" else EscapeChar(s[0]) + EscapeAll(s[1..])
  }

  function Quote(s: string): string {
    ['"'] + EscapeAll(s) + ['"']
  }

  function Print(j: Json): string
    decreases j, 0
  {
    match j
    case JNull => "null"
    case JBool(b) => if b then "true" else "false"
    case JNum(lexeme) => lexeme
    case JStr(s) => Quote(s)
    case JArr(items) => ['['] + Join(PrintAll(items), ',') + [']']
    case JObj(members) => ['{'] + Join(PrintMembers(members), ',') + ['}']
  }

  function PrintAll(items: seq<Json>): (r: seq<string>)
    ensures |r| == |items|
    decreases items
  {
    if items == [] then [] else [Print(items[0])] + PrintAll(items[1..])
  }

  function PrintMembers(members: seq<Member>): (r: seq<string>)
    ensures |r| == |members|
    decreases members
  {
    if members == [] then []
    else [Quote(members[0].key) + [':'] + Print(members[0].value)] + PrintMembers(members[1..])
  }

  // ---------------------------------------------------------------------------------------------
  // Round trip
  // ---------------------------------------------------------------------------------------------

  lemma ReadsEscape(c: char, rest: string)
    ensures ReadString(EscapeChar(c) + rest) == Prefix(c, ReadString(rest))
  {
    var e := EscapeChar(c);
    var s := e + rest;
    if |e| == 2 {
      assert s[2..] == rest;
    } else if |e| == 6 {
      assert s[2..][4..] == rest;
      assert s[2..][..4] == ['0', '0', HexDigit(c as int / 16), HexDigit(c as int % 16)];
      assert HexValue(HexDigit(c as int / 16)) == Some(c as int / 16);
      assert HexValue(HexDigit(c as int % 16)) == Some(c as int % 16);
      assert ReadHex(s[2..]) == Got(c as int, rest);
    } else {
      assert s[1..] == rest;
    }
  }

  /** Every string comes back from its literal. */
  lemma {:induction false} ReadsQuoted(s: string, rest: string)
    ensures ReadString(EscapeAll(s) + ['"'] + rest) == Got(s, rest)
  {
    if s == "" {
      assert EscapeAll(s) + ['"'] + rest == ['"'] + rest;
    } else {
      var more := EscapeAll(s[1..]) + ['"'] + rest;
      ReadsQuoted(s[1..], rest);
      ReadsEscape(s[0], more);
      assert EscapeAll(s) + ['"'] + rest == EscapeChar(s[0]) + more;
      assert [s[0]] + s[1..] == s;
    }
  }

  lemma {:induction false} DigitsEnd(digits: string, rest: string)
    requires forall c <- digits :: IsDigit(c)
    requires !StartsDigit(rest)
    ensures AfterDigits(digits + rest) == rest
  {
    if digits == "" {
      assert digits + rest == rest;
    } else {
      assert digits[0] in digits;
      assert (digits + rest)[1..] == digits[1..] + rest;
      DigitsEnd(digits[1..], rest);
    }
  }

  lemma {:induction false} NoLeadingZero(n: nat)
    ensures FormatNat(n)[0] == '0' <==> n == 0
  {
    if n >= 10 {
      NoLeadingZero(n / 10);
    }
  }

  lemma IntegersAreNumbers(n: int)
    ensures IsNumber(FormatInt(n))
  {
    var s := FormatInt(n);
    var digits := FormatNat(if n < 0 then -n else n);
    assert digits[0] in digits;
    NoLeadingZero(if n < 0 then -n else n);
    DigitsEnd(digits, "");
    assert digits + "" == digits;
    if n < 0 {
      assert s[1..] == digits;
    }
    if digits[0] == '0' {
      assert digits == ['0'];
    }
  }

  predicate AllInNumber(s: string) {
    forall i :: 0 <= i < |s| ==> InNumber(s[i])
  }

  lemma {:induction false} DigitsInNumber(s: string)
    requires AllInNumber(AfterDigits(s))
    ensures AllInNumber(s)
  {
    if s != "" && IsDigit(s[0]) {
      DigitsInNumber(s[1..]);
      assert forall i :: 0 < i < |s| ==> s[i] == s[1..][i - 1];
    }
  }

  lemma ExponentInNumber(s: string)
    requires IsExponent(s)
    ensures AllInNumber(s)
  {
    var t := s[1..];
    var u := if t != "" && (t[0] == '+' || t[0] == '-') then t[1..] else t;
    DigitsInNumber(u);
    assert forall i :: 0 < i < |t| && t != u ==> t[i] == u[i - 1];
    assert forall i :: 0 < i < |s| ==> s[i] == t[i - 1];
  }

  lemma NumberInNumber(s: string)
    requires IsNumber(s)
    ensures AllInNumber(s)
  {
    var t := if s[0] == '-' then s[1..] else s;
    var u := if t[0] == '0' then t[1..] else AfterDigits(t);
    var w := if u != "" && u[0] == '.' then AfterDigits(u[1..]) else u;
    if w != "" {
      ExponentInNumber(w);
    }
    if u != "" && u[0] == '.' {
      DigitsInNumber(u[1..]);
      assert forall i :: 0 < i < |u| ==> u[i] == u[1..][i - 1];
    }
    if t[0] == '0' {
      assert forall i :: 0 < i < |t| ==> t[i] == u[i - 1];
    } else {
      DigitsInNumber(t);
    }
    assert s != t ==> forall i :: 0 < i < |s| ==> s[i] == t[i - 1];
  }

  /** No number goes on here. */
  predicate Ends(rest: string) {
    rest == "" || !InNumber(rest[0])
  }

  lemma {:induction false} MunchesAll(s: string, rest: string)
    requires AllInNumber(s) && Ends(rest)
    ensures Munch(s + rest) == |s|
  {
    if s == "" {
      assert s + rest == rest;
    } else {
      assert (s + rest)[1..] == s[1..] + rest;
      MunchesAll(s[1..], rest);
    }
  }

  /** Numbers are well formed and names are distinct, at every depth. */
  predicate WellFormed(j: Json)
    decreases j
  {
    match j
    case JNum(lexeme) => IsNumber(lexeme)
    case JArr(items) => forall i :: 0 <= i < |items| ==> WellFormed(items[i])
    case JObj(members) => DistinctKeys(members) && forall i :: 0 <= i < |members| ==> WellFormed(members[i].value)
    case _ => true
  }

  predicate DistinctKeys(members: seq<Member>) {
    forall i, j :: 0 <= i < j < |members| ==> members[i].key != members[j].key
  }

  /** A printed value starts with none of white space, `]` and `}`. */
  lemma PrintStarts(j: Json)
    requires WellFormed(j)
    ensures Print(j) != "" && !IsSpace(Print(j)[0]) && Print(j)[0] != ']'
    ensures j.JNum? ==> InNumber(Print(j)[0])
  {
    if j.JNum? {
      NumberInNumber(j.lexeme);
    }
  }

  lemma ReadsNumber(lexeme: string, rest: string)
    requires IsNumber(lexeme) && Ends(rest)
    ensures ReadValue(lexeme + rest) == Got(JNum(lexeme), rest)
  {
    var s := lexeme + rest;
    NumberInNumber(lexeme);
    MunchesAll(lexeme, rest);
    assert s[..|lexeme|] == lexeme && s[|lexeme|..] == rest;
    assert lexeme[0] == '-' || IsDigit(lexeme[0]);
    assert SkipSpace(s) == s;
  }

  lemma ReadsLiteral(s: string, rest: string)
    ensures ReadValue(Quote(s) + rest) == Got(JStr(s), rest)
  {
    ReadsQuoted(s, rest);
    assert (Quote(s) + rest)[1..] == EscapeAll(s) + ['"'] + rest;
  }

  lemma ReadsWord(word: string, value: Json, rest: string)
    requires (word == "null" && value == JNull) || (word == "true" && value == JBool(true)) || (word == "false" && value == JBool(false))
    ensures ReadValue(word + rest) == Got(value, rest)
  {
    var s := word + rest;
    assert s[0] == word[0];
    assert SkipSpace(s) == s;
    assert word <= s && s[|word|..] == rest;
  }

  lemma {:induction false} PutNew(members: seq<Member>, key: string, value: Json)
    requires forall i :: 0 <= i < |members| ==> members[i].key != key
    ensures Put(members, key, value) == members + [Member(key, value)]
  {
    if members != [] {
      PutNew(members[1..], key, value);
    }
  }

  /** Reading what was printed gives the value back, whatever follows it as long as it does not prolong a number. */
  lemma {:induction false} ReadsPrinted(j: Json, rest: string)
    requires WellFormed(j) && Ends(rest)
    ensures ReadValue(Print(j) + rest) == Got(j, rest)
    decreases j, 0
  {
    match j {
      case JNull => ReadsWord("null", j, rest);
      case JBool(b) => ReadsWord(if b then "true" else "false", j, rest);
      case JNum(lexeme) => ReadsNumber(lexeme, rest);
      case JStr(s) => ReadsLiteral(s, rest);
      case JArr(items) => ReadsArray(items, rest);
      case JObj(members) => ReadsObject(members, rest);
    }
  }

  lemma {:induction false} ReadsArray(items: seq<Json>, rest: string)
    requires WellFormed(JArr(items)) && Ends(rest)
    ensures ReadValue(Print(JArr(items)) + rest) == Got(JArr(items), rest)
    decreases items, 1
  {
    var s := Print(JArr(items)) + rest;
    var body := Join(PrintAll(items), ',') + [']'] + rest;
    assert s[1..] == body;
    if items == [] {
      assert body == [']'] + rest;
    } else {
      PrintStarts(items[0]);
      assert body[0] == Print(items[0])[0];
      ReadsItems([], items, rest);
      assert [] + items == items;
    }
  }

  /** What follows the first of some joined parts. */
  function After(parts: seq<string>, close: char, rest: string): string
    requires parts != []
  {
    if |parts| == 1 then [close] + rest else [','] + (Join(parts[1..], ',') + [close] + rest)
  }

  lemma JoinedAfter(parts: seq<string>, close: char, rest: string)
    requires parts != [] && !InNumber(close)
    ensures Join(parts, ',') + [close] + rest == parts[0] + After(parts, close, rest)
    ensures Ends(After(parts, close, rest))
    ensures |parts| == 1 ==> After(parts, close, rest)[0] == close && After(parts, close, rest)[1..] == rest
    ensures |parts| > 1 ==> After(parts, close, rest)[0] == ',' && After(parts, close, rest)[1..] == Join(parts[1..], ',') + [close] + rest
  {
    if |parts| == 1 {
      Regroup(parts[0], [close], rest);
    } else {
      var more := Join(parts[1..], ',');
      Regroup4(parts[0] + [','], more, [close], rest);
      Regroup(parts[0], [','], more + [close] + rest);
      Regroup(more, [close], rest);
    }
  }

  lemma StepItem(s: string, v: Json, end: string, sofar: seq<Json>)
    requires ReadValue(s) == Got(v, end) && end != "" && (end[0] == ',' || end[0] == ']')
    ensures ReadItems(s, sofar) == if end[0] == ',' then ReadItems(end[1..], sofar + [v]) else Got(JArr(sofar + [v]), end[1..])
  {
    assert SkipSpace(end) == end;
  }

  lemma {:induction false} ReadsItems(sofar: seq<Json>, items: seq<Json>, rest: string)
    requires items != [] && WellFormed(JArr(items)) && Ends(rest)
    ensures ReadItems(Join(PrintAll(items), ',') + [']'] + rest, sofar) == Got(JArr(sofar + items), rest)
    decreases items, 0
  {
    var parts := PrintAll(items);
    var end := After(parts, ']', rest);
    JoinedAfter(parts, ']', rest);
    ReadsPrinted(items[0], end);
    StepItem(parts[0] + end, items[0], end, sofar);
    if |items| == 1 {
      assert items == [items[0]];
    } else {
      assert parts[1..] == PrintAll(items[1..]);
      forall i | 0 <= i < |items[1..]| ensures WellFormed(items[1..][i]) {
        assert items[1..][i] == items[i + 1];
      }
      ReadsItems(sofar + [items[0]], items[1..], rest);
      assert sofar + [items[0]] + items[1..] == sofar + items;
    }
  }

  lemma OpensObject(body: string)
    requires body != "" && !IsSpace(body[0])
    ensures ReadValue(['{'] + body) == if body[0] == '}' then Got(JObj([]), body[1..]) else ReadMembers(body, [])
  {
    assert (['{'] + body)[1..] == body;
    assert SkipSpace(body) == body && SkipSpace(['{'] + body) == ['{'] + body;
  }

  lemma {:induction false} ReadsObject(members: seq<Member>, rest: string)
    requires DistinctKeys(members) && Ends(rest)
    requires forall i :: 0 <= i < |members| ==> WellFormed(members[i].value)
    ensures ReadValue(Print(JObj(members)) + rest) == Got(JObj(members), rest)
    decreases members, 1
  {
    var body := Join(PrintMembers(members), ',') + ['}'] + rest;
    assert Print(JObj(members)) + rest == ['{'] + body;
    if members == [] {
      assert body == ['}'] + rest;
      OpensObject(body);
    } else {
      assert body[0] == '"';
      OpensObject(body);
      assert [] + members == members;
      ReadsMembers([], members, rest);
    }
  }

  lemma KeyAndColon(key: string, more: string)
    ensures var s := Quote(key) + [':'] + more;
      s[0] == '"' && SkipSpace(s) == s && ReadString(s[1..]) == Got(key, [':'] + more) && SkipSpace([':'] + more) == [':'] + more
  {
    var colon := [':'] + more;
    var s := Quote(key) + [':'] + more;
    ReadsQuoted(key, colon);
    assert s[1..] == EscapeAll(key) + ['"'] + colon by {
      Regroup(Quote(key), [':'], more);
      Regroup4(['"'], EscapeAll(key), ['"'], colon);
      Regroup(EscapeAll(key), ['"'], colon);
    }
  }

  lemma StepMember(key: string, v: Json, value: string, end: string, sofar: seq<Member>)
    requires ReadValue(value + end) == Got(v, end) && end != "" && (end[0] == ',' || end[0] == '}')
    ensures ReadMembers(Quote(key) + [':'] + (value + end), sofar) ==
      if end[0] == ',' then ReadMembers(end[1..], Put(sofar, key, v)) else Got(JObj(Put(sofar, key, v)), end[1..])
  {
    KeyAndColon(key, value + end);
    assert SkipSpace(end) == end;
    assert ([':'] + (value + end))[1..] == value + end;
  }

  lemma PutAtEnd(sofar: seq<Member>, members: seq<Member>)
    requires members != [] && DistinctKeys(sofar + members)
    ensures Put(sofar, members[0].key, members[0].value) == sofar + [members[0]]
  {
    forall i | 0 <= i < |sofar| ensures sofar[i].key != members[0].key {
      assert (sofar + members)[i] == sofar[i] && (sofar + members)[|sofar|] == members[0];
    }
    PutNew(sofar, members[0].key, members[0].value);
  }

  lemma FirstMember(sofar: seq<Member>, members: seq<Member>, end: string, rest: string)
    requires members != [] && DistinctKeys(sofar + members)
    requires end == After(PrintMembers(members), '}', rest)
    requires ReadValue(Print(members[0].value) + end) == Got(members[0].value, end)
    ensures ReadMembers(Join(PrintMembers(members), ',') + ['}'] + rest, sofar) ==
      if |members| == 1 then Got(JObj(sofar + [members[0]]), rest)
      else ReadMembers(Join(PrintMembers(members[1..]), ',') + ['}'] + rest, sofar + [members[0]])
  {
    var parts := PrintMembers(members);
    JoinedAfter(parts, '}', rest);
    PutAtEnd(sofar, members);
    StepMember(members[0].key, members[0].value, Print(members[0].value), end, sofar);
    Regroup(Quote(members[0].key) + [':'], Print(members[0].value), end);
    assert parts[1..] == PrintMembers(members[1..]);
  }

  lemma {:induction false} ReadsMembers(sofar: seq<Member>, members: seq<Member>, rest: string)
    requires members != [] && DistinctKeys(sofar + members) && Ends(rest)
    requires forall i :: 0 <= i < |members| ==> WellFormed(members[i].value)
    ensures ReadMembers(Join(PrintMembers(members), ',') + ['}'] + rest, sofar) == Got(JObj(sofar + members), rest)
    decreases members, 0
  {
    var end := After(PrintMembers(members), '}', rest);
    var m := members[0];
    assert Ends(end) by {
      JoinedAfter(PrintMembers(members), '}', rest);
    }
    ReadsPrinted(m.value, end);
    FirstMember(sofar, members, end, rest);
    if |members| == 1 {
      assert members == [m];
    } else {
      var more := members[1..];
      assert sofar + [m] + more == sofar + members;
      assert forall i :: 0 <= i < |more| ==> more[i] == members[i + 1];
      ReadsMembers(sofar + [m], more, rest);
    }
  }

  /** The text of a value parses as that value. */
  lemma ParsesPrinted(j: Json)
    requires WellFormed(j)
    ensures Parse(Print(j)) == Some(j)
  {
    ReadsPrinted(j, "");
    assert Print(j) + "" == Print(j);
  }
}
