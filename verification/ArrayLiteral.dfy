/** PostgreSQL array literals: what is written for a list and what is read back from it. */
module ArrayLiteral {
  import opened Sequences
  import J = JsonText

  // ---------------------------------------------------------------------------------------------
  // Writing
  // ---------------------------------------------------------------------------------------------

  /** An element of the list: null, a string, or something else by its own text. */
  datatype Item = Nil | Text(s: string) | Other(text: string)

  /** A backslash before every c. */
  function Slashed(s: string, c: char): string {
    if s == "" then "" else (if s[0] == c then ['\\', c] else [s[0]]) + Slashed(s[1..], c)
  }

  predicate NeedsQuotes(s: string) {
    ',' in s || '{' in s || '}' in s || '"' in s || ' ' in s
  }

  function ItemText(item: Item): string {
    match item
    case Nil => "NULL"
    case Text(s) =>
      var esc := Slashed(Slashed(s, '\\'), '"');
      if NeedsQuotes(s) then ['"'] + esc + ['"'] else esc
    case Other(text) => text
  }

  function ItemTexts(items: seq<Item>): (r: seq<string>)
    ensures |r| == |items|
  {
    if items == [] then [] else [ItemText(items[0])] + ItemTexts(items[1..])
  }

  /** `serializeArray`. */
  function SerializeArray(items: seq<Item>): string {
    ['{'] + Join(ItemTexts(items), ',') + ['}']
  }

  function BooleanText(b: Option<bool>): string {
    if b.None? then "NULL" else if b.value then "t" else "f"
  }

  function BooleanTexts(bs: seq<Option<bool>>): (r: seq<string>)
    ensures |r| == |bs|
  {
    if bs == [] then [] else [BooleanText(bs[0])] + BooleanTexts(bs[1..])
  }

  /** `serializeBooleanArray`. */
  function SerializeBooleanArray(bs: seq<Option<bool>>): string {
    ['{'] + Join(BooleanTexts(bs), ',') + ['}']
  }

  // ---------------------------------------------------------------------------------------------
  // Reading
  // ---------------------------------------------------------------------------------------------

  /** What `String.prototype.trim` removes. */
  predicate IsTrimmed(c: char) {
    '\U{9}' <= c <= '\U{d}' || c == ' ' || c == '\U{a0}' || c == '\U{1680}' || '\U{2000}' <= c <= '\U{200a}' ||
    c == '\U{2028}' || c == '\U{2029}' || c == '\U{202f}' || c == '\U{205f}' || c == '\U{3000}' || c == '\U{feff}'
  }

  function TrimStart(s: string): string {
    if s != "" && IsTrimmed(s[0]) then TrimStart(s[1..]) else s
  }

  function TrimEnd(s: string): string {
    if s != "" && IsTrimmed(s[|s| - 1]) then TrimEnd(s[..|s| - 1]) else s
  }

  function Trim(s: string): string {
    TrimEnd(TrimStart(s))
  }

  function Unbraced(literal: string): string {
    var content := Trim(literal);
    if |content| >= 2 && content[0] == '{' && content[|content| - 1] == '}' then content[1..|content| - 1] else content
  }

  /** The character loop, from a state of its four variables to the end. */
  function Scan(content: string, result: seq<string>, current: string, inQuotes: bool, escaped: bool): seq<string>
    decreases |content|
  {
    if content == "" then
      if current != "" || |result| > 0 then result + [current] else result
    else
      var c, rest := content[0], content[1..];
      if escaped then Scan(rest, result, current + [c], inQuotes, false)
      else if c == '\\' then Scan(rest, result, current, inQuotes, true)
      else if c == '"' then Scan(rest, result, current, !inQuotes, false)
      else if c == ',' && !inQuotes then Scan(rest, result + [current], "", inQuotes, false)
      else Scan(rest, result, current + [c], inQuotes, false)
  }

  function Parsed(literal: string): seq<string> {
    if literal == "" || literal == "{}" then []
    else
      var content := Unbraced(literal);
      if content == "" then [] else Scan(content, [], "", false, false)
  }

  /** `parsePostgresArray`. */
  method ParsePostgresArray(literal: string) returns (result: seq<string>)
    ensures result == Parsed(literal)
  {
    if literal == "" || literal == "{}" {
      return [];
    }
    var content := Trim(literal);
    if |content| >= 2 && content[0] == '{' && content[|content| - 1] == '}' {
      content := content[1..|content| - 1];
    }
    if content == "" {
      return [];
    }
    result := [];
    var current := "";
    var inQuotes, escaped := false, false;
    assert content[0..] == content;
    for i := 0 to |content|
      invariant Scan(content[i..], result, current, inQuotes, escaped) == Parsed(literal)
    {
      var c := content[i];
      assert content[i..][0] == c && content[i..][1..] == content[i + 1..];
      if escaped {
        current := current + [c];
        escaped := false;
        continue;
      }
      if c == '\\' {
        escaped := true;
        continue;
      }
      if c == '"' {
        inQuotes := !inQuotes;
        continue;
      }
      if c == ',' && !inQuotes {
        result := result + [current];
        current := "";
        continue;
      }
      current := current + [c];
    }
    if current != "" || |result| > 0 {
      result := result + [current];
    }
  }

  // ---------------------------------------------------------------------------------------------
  // Round trip of the literal
  // ---------------------------------------------------------------------------------------------

  /** Both replacements at once. */
  function Escaped(s: string): string {
    if s == "" then "" else (if s[0] == '\\' || s[0] == '"' then ['\\', s[0]] else [s[0]]) + Escaped(s[1..])
  }

  lemma {:induction false} SlashedAppend(a: string, b: string, c: char)
    ensures Slashed(a + b, c) == Slashed(a, c) + Slashed(b, c)
  {
    if a == "" {
      assert a + b == b;
    } else {
      assert (a + b)[1..] == a[1..] + b;
      SlashedAppend(a[1..], b, c);
    }
  }

  lemma {:induction false} SlashedTwice(s: string)
    ensures Slashed(Slashed(s, '\\'), '"') == Escaped(s)
  {
    if s != "" {
      SlashedTwice(s[1..]);
      var head: string := if s[0] == '\\' then ['\\', '\\'] else [s[0]];
      SlashedAppend(head, Slashed(s[1..], '\\'), '"');
      assert head[1..] == if s[0] == '\\' then ['\\'] else [];
      assert |head| == 2 ==> head[1..][1..] == [];
    }
  }

  lemma StepChar(c: char, rest: string, result: seq<string>, current: string, inQuotes: bool)
    requires inQuotes || c != ','
    ensures Scan((if c == '\\' || c == '"' then ['\\', c] else [c]) + rest, result, current, inQuotes, false) ==
      Scan(rest, result, current + [c], inQuotes, false)
  {
    if c == '\\' || c == '"' {
      var s := ['\\', c] + rest;
      assert s[1..] == [c] + rest && s[1..][1..] == rest;
    } else {
      assert ([c] + rest)[1..] == rest;
    }
  }

  lemma StepComma(rest: string, result: seq<string>, current: string)
    ensures Scan([','] + rest, result, current, false, false) == Scan(rest, result + [current], "", false, false)
  {
    assert ([','] + rest)[1..] == rest;
  }

  /** Escaped text is read back as it was, inside quotes or when it has no comma. */
  lemma {:induction false} ScanEscaped(s: string, rest: string, result: seq<string>, current: string, inQuotes: bool)
    requires inQuotes || ',' !in s
    ensures Scan(Escaped(s) + rest, result, current, inQuotes, false) == Scan(rest, result, current + s, inQuotes, false)
  {
    if s == "" {
      assert Escaped(s) + rest == rest && current + s == current;
    } else {
      var first := if s[0] == '\\' || s[0] == '"' then ['\\', s[0]] else [s[0]];
      assert ',' in s[1..] ==> ',' in s;
      Regroup(first, Escaped(s[1..]), rest);
      StepChar(s[0], Escaped(s[1..]) + rest, result, current, inQuotes);
      ScanEscaped(s[1..], rest, result, current + [s[0]], inQuotes);
      assert current + [s[0]] + s[1..] == current + s;
    }
  }

  lemma ScanItem(s: string, rest: string, result: seq<string>)
    ensures Scan(ItemText(Text(s)) + rest, result, "", false, false) == Scan(rest, result, s, false, false)
  {
    SlashedTwice(s);
    assert "" + s == s;
    if NeedsQuotes(s) {
      var inner := Escaped(s) + (['"'] + rest);
      assert ItemText(Text(s)) + rest == ['"'] + inner;
      assert (['"'] + inner)[1..] == inner;
      ScanEscaped(s, ['"'] + rest, result, "", true);
      assert (['"'] + rest)[1..] == rest;
    } else {
      ScanEscaped(s, rest, result, "", false);
    }
  }

  function Texts(xs: seq<string>): (r: seq<Item>)
    ensures |r| == |xs| && forall i :: 0 <= i < |r| ==> r[i] == Text(xs[i])
  {
    if xs == [] then [] else [Text(xs[0])] + Texts(xs[1..])
  }

  lemma ScanLast(s: string, result: seq<string>)
    requires s != "" || |result| > 0
    ensures Scan(ItemText(Text(s)), result, "", false, false) == result + [s]
  {
    assert ItemText(Text(s)) + "" == ItemText(Text(s));
    ScanItem(s, "", result);
  }

  lemma ScanNext(s: string, more: string, result: seq<string>)
    ensures Scan(ItemText(Text(s)) + [','] + more, result, "", false, false) == Scan(more, result + [s], "", false, false)
  {
    Regroup(ItemText(Text(s)), [','], more);
    ScanItem(s, [','] + more, result);
    StepComma(more, result, s);
  }

  /** The literal without its braces. */
  function Listed(xs: seq<string>): string {
    Join(ItemTexts(Texts(xs)), ',')
  }

  lemma ListedNext(xs: seq<string>)
    requires xs != []
    ensures Listed(xs) == if |xs| == 1 then ItemText(Text(xs[0])) else ItemText(Text(xs[0])) + [','] + Listed(xs[1..])
  {
    assert Texts(xs)[1..] == Texts(xs[1..]);
  }

  lemma {:induction false} ScanItems(xs: seq<string>, result: seq<string>)
    requires |xs| > 1 || (|xs| == 1 && (xs[0] != "" || |result| > 0))
    ensures Scan(Listed(xs), result, "", false, false) == result + xs
  {
    var first, later := xs[0], xs[1..];
    ListedNext(xs);
    if |xs| == 1 {
      assert xs == [first];
      ScanLast(first, result);
    } else {
      calc {
        Scan(Listed(xs), result, "", false, false);
        Scan(ItemText(Text(first)) + [','] + Listed(later), result, "", false, false);
        { ScanNext(first, Listed(later), result); }
        Scan(Listed(later), result + [first], "", false, false);
        { ScanItems(later, result + [first]); }
        result + [first] + later;
        { assert result + [first] + later == result + xs; }
        result + xs;
      }
    }
  }

  lemma Unbraces(content: string)
    ensures Unbraced(['{'] + content + ['}']) == content
  {
    var literal := ['{'] + content + ['}'];
    assert TrimStart(literal) == literal && TrimEnd(literal) == literal;
    assert literal[1..|literal| - 1] == content;
  }

  lemma ItemTextEmpty(s: string)
    ensures ItemText(Text(s)) == "" <==> s == ""
  {
    SlashedTwice(s);
  }

  lemma JoinEmpty(xs: seq<string>)
    requires xs != []
    ensures Listed(xs) == "" <==> xs == [""]
  {
    ItemTextEmpty(xs[0]);
    if |xs| == 1 {
      assert xs == [xs[0]];
    }
  }

  /** Reading undoes writing for every list of strings except the one that holds just an empty string. */
  lemma LiteralRoundTripIff(xs: seq<string>)
    ensures Parsed(SerializeArray(Texts(xs))) == xs <==> xs != [""]
  {
    var content := Listed(xs);
    Unbraces(content);
    if xs != [] {
      JoinEmpty(xs);
      if content != "" {
        assert |SerializeArray(Texts(xs))| > |"{}"|;
        ScanItems(xs, []);
        assert [] + xs == xs;
      }
    }
  }

  // ---------------------------------------------------------------------------------------------
  // Casts: JSON is tried first
  // ---------------------------------------------------------------------------------------------

  /** The elements of a JSON array, or what was read otherwise. */
  datatype Cast<+T> = FromJson(items: seq<J.Json>) | Read(values: seq<T>)

  /** `castToStringArray` of a text. */
  function CastToStringArray(val: string): Cast<string> {
    match J.Parse(val)
    case Some(json) => if json.JArr? then FromJson(json.items) else Read([])
    case None => Read(Parsed(val))
  }

  function LowerChar(c: char): char {
    if 'A' <= c <= 'Z' then (c as int + 32) as char else c
  }

  function Lower(s: string): string {
    if s == "" then "" else [LowerChar(s[0])] + Lower(s[1..])
  }

  /** `castToBoolean` of a text. */
  function CastToBoolean(val: string): Option<bool> {
    var lower := Lower(val);
    if lower == "true" || lower == "t" || lower == "1" then Some(true)
    else if lower == "false" || lower == "f" || lower == "0" then Some(false)
    else None
  }

  function CastAll(texts: seq<string>): (r: seq<Option<bool>>)
    ensures |r| == |texts|
  {
    if texts == [] then [] else [CastToBoolean(texts[0])] + CastAll(texts[1..])
  }

  /** `castToBooleanArray` of a text. */
  function CastToBooleanArray(val: string): Cast<Option<bool>> {
    match J.Parse(val)
    case Some(json) => if json.JArr? then FromJson(json.items) else Read([])
    case None => Read(CastAll(Parsed(val)))
  }

  /** Only tabs and line ends: white space to JSON, but nothing that gets quotes. */
  predicate OnlyBreaks(s: string) {
    forall i :: 0 <= i < |s| ==> s[i] == '\t' || s[i] == '\n' || s[i] == '\r'
  }

  /** A JSON reader that skips white space stops at the first other character of an unquoted element. */
  lemma {:induction false} SkipsUnquoted(s: string, rest: string)
    requires !NeedsQuotes(s) && rest != "" && !J.IsSpace(rest[0])
    ensures var u := J.SkipSpace(Escaped(s) + rest);
      u != "" && if OnlyBreaks(s) then u == rest else u[0] != '}' && u[0] != '"'
  {
    if s == "" {
      assert Escaped(s) + rest == rest;
    } else {
      assert s[0] in s;
      var all := Escaped(s) + rest;
      if J.IsSpace(s[0]) {
        assert NeedsQuotes(s[1..]) ==> NeedsQuotes(s);
        SkipsUnquoted(s[1..], rest);
        assert all[1..] == Escaped(s[1..]) + rest;
        assert OnlyBreaks(s) <==> OnlyBreaks(s[1..]) by {
          assert forall i :: 0 < i < |s| ==> s[i] == s[1..][i - 1];
        }
      }
    }
  }

  lemma ReadsEscapedChar(c: char, rest: string)
    ensures var r := J.ReadString((if c == '\\' || c == '"' then ['\\', c] else [c]) + rest);
      r == J.Bad || r == J.Prefix(c, J.ReadString(rest))
  {
    if c == '\\' || c == '"' {
      var s := ['\\', c] + rest;
      assert s[2..] == rest;
    } else {
      assert ([c] + rest)[1..] == rest;
    }
  }

  /** A JSON reader takes a quoted element for the same string, or for none. */
  lemma {:induction false} ReadsQuotedItem(s: string, rest: string)
    ensures var r := J.ReadString(Escaped(s) + (['"'] + rest)); r == J.Bad || r == J.Got(s, rest)
  {
    var end := ['"'] + rest;
    if s == "" {
      assert Escaped(s) + end == end;
    } else {
      var first := if s[0] == '\\' || s[0] == '"' then ['\\', s[0]] else [s[0]];
      ReadsQuotedItem(s[1..], rest);
      Regroup(first, Escaped(s[1..]), end);
      ReadsEscapedChar(s[0], Escaped(s[1..]) + end);
      assert [s[0]] + s[1..] == s;
    }
  }

  /** What follows the first element, up to the closing brace. */
  function AfterFirst(xs: seq<string>): (r: string)
    requires xs != []
    ensures r != "" && (r[0] == if |xs| == 1 then '}' else ',')
  {
    if |xs| == 1 then ['}'] else [','] + Listed(xs[1..]) + ['}']
  }

  lemma ListedStarts(xs: seq<string>)
    requires xs != []
    ensures Listed(xs) + ['}'] == ItemText(Text(xs[0])) + AfterFirst(xs)
  {
    ListedNext(xs);
    if |xs| > 1 {
      Regroup(ItemText(Text(xs[0])), [','], Listed(xs[1..]));
      Regroup(ItemText(Text(xs[0])), [','] + Listed(xs[1..]), ['}']);
    }
  }

  lemma OpensWith(body: string)
    ensures J.ReadValue(['{'] + body) ==
      var u := J.SkipSpace(body); if u != "" && u[0] == '}' then J.Got(J.JObj([]), u[1..]) else J.ReadMembers(body, [])
  {
    assert (['{'] + body)[1..] == body;
    assert J.SkipSpace(['{'] + body) == ['{'] + body;
  }

  lemma UnquotedAsJson(s: string, end: string)
    requires !NeedsQuotes(s) && (end == ['}'] || (end != "" && end[0] == ','))
    ensures J.Parse(['{'] + (Escaped(s) + end)) == if end == ['}'] && OnlyBreaks(s) then Some(J.JObj([])) else None
  {
    SkipsUnquoted(s, end);
    OpensWith(Escaped(s) + end);
    if end == ['}'] {
      assert end[1..] == "";
    }
  }

  lemma QuotedAsJson(s: string, end: string)
    requires end != "" && (end[0] == '}' || end[0] == ',')
    ensures J.Parse(['{'] + (['"'] + (Escaped(s) + (['"'] + end)))) == None
  {
    QuotedIsNotJson(s, end);
    OpensWith(['"'] + (Escaped(s) + (['"'] + end)));
  }

  lemma LiteralStarts(xs: seq<string>)
    requires xs != []
    ensures SerializeArray(Texts(xs)) == ['{'] + (ItemText(Text(xs[0])) + AfterFirst(xs))
  {
    Regroup(['{'], Listed(xs), ['}']);
    ListedStarts(xs);
  }

  lemma ItemAsJson(s: string, end: string)
    requires end == ['}'] || (end != "" && end[0] == ',')
    ensures J.Parse(['{'] + (ItemText(Text(s)) + end)) == if end == ['}'] && OnlyBreaks(s) then Some(J.JObj([])) else None
  {
    SlashedTwice(s);
    if NeedsQuotes(s) {
      QuotedAsJson(s, end);
      Regroup4(['"'], Escaped(s), ['"'], end);
      assert !OnlyBreaks(s);
    } else {
      UnquotedAsJson(s, end);
    }
  }

  lemma EmptyAsJson(end: string)
    requires end == ['}']
    ensures J.Parse(['{'] + end) == Some(J.JObj([]))
  {
    OpensWith(end);
    assert end[1..] == "";
  }

  /** An array literal is JSON only when nothing but tabs and line ends is between its braces. */
  lemma LiteralAsJson(xs: seq<string>)
    ensures J.Parse(SerializeArray(Texts(xs))) == if xs == [] || (|xs| == 1 && OnlyBreaks(xs[0])) then Some(J.JObj([])) else None
  {
    if xs == [] {
      var end := Listed(xs) + ['}'];
      Regroup(['{'], Listed(xs), ['}']);
      EmptyAsJson(end);
    } else {
      LiteralStarts(xs);
      ItemAsJson(xs[0], AfterFirst(xs));
    }
  }

  lemma QuotedIsNotJson(s: string, end: string)
    requires end != "" && (end[0] == '}' || end[0] == ',')
    ensures var body := ['"'] + (Escaped(s) + (['"'] + end));
      J.SkipSpace(body) == body && J.ReadMembers(body, []) == J.Bad
  {
    var inner := Escaped(s) + (['"'] + end);
    ReadsQuotedItem(s, end);
    assert (['"'] + inner)[1..] == inner;
    assert J.SkipSpace(end) == end;
  }

  /** Written and cast back: every list of strings returns, except exactly those of one string that is empty or has only
      tabs and line ends, because that literal is an empty JSON object. */
  lemma StringsRoundTripIff(xs: seq<string>)
    ensures CastToStringArray(SerializeArray(Texts(xs))) == Read(xs) <==> !(|xs| == 1 && OnlyBreaks(xs[0]))
  {
    LiteralAsJson(xs);
    LiteralRoundTripIff(xs);
    CastOfText(SerializeArray(Texts(xs)));
  }

  /** A literal that is a JSON object is no list, and one that is no JSON is read as a literal. */
  lemma CastOfText(text: string)
    ensures J.Parse(text) == None ==> CastToStringArray(text) == Read(Parsed(text))
    ensures J.Parse(text) == Some(J.JObj([])) ==> CastToStringArray(text) == Read([])
  {
  }

  lemma {:induction false} BooleansAsStrings(bs: seq<Option<bool>>)
    ensures BooleanTexts(bs) == ItemTexts(Texts(BooleanTexts(bs)))
    ensures CastAll(BooleanTexts(bs)) == bs
  {
    if bs != [] {
      BooleansAsStrings(bs[1..]);
      PlainBoolean(bs[0]);
      BooleanCastBack(bs[0]);
    }
  }

  lemma {:induction false} NothingEscaped(s: string)
    requires '\\' !in s && '"' !in s
    ensures Escaped(s) == s
  {
    if s != "" {
      assert s[0] in s;
      NothingEscaped(s[1..]);
    }
  }

  lemma PlainBoolean(b: Option<bool>)
    ensures ItemText(Text(BooleanText(b))) == BooleanText(b)
    ensures |BooleanText(b)| > 0 && BooleanText(b)[0] != '\t' && BooleanText(b)[0] != '\n' && BooleanText(b)[0] != '\r'
  {
    var t := BooleanText(b);
    SlashedTwice(t);
    NothingEscaped(t);
    assert !NeedsQuotes(t);
  }

  lemma BooleanCastBack(b: Option<bool>)
    ensures CastToBoolean(BooleanText(b)) == b
  {
    match b {
      case None => assert Lower("NULL") == "null";
      case Some(yes) =>
        if yes {
          assert Lower("t") == "t";
        } else {
          assert Lower("f") == "f";
        }
    }
  }

  /** Every list of true, false and null returns. */
  lemma BooleansRoundTrip(bs: seq<Option<bool>>)
    ensures CastToBooleanArray(SerializeBooleanArray(bs)) == Read(bs)
  {
    var texts := BooleanTexts(bs);
    BooleansAsStrings(bs);
    assert SerializeBooleanArray(bs) == SerializeArray(Texts(texts));
    LiteralAsJson(texts);
    LiteralRoundTripIff(texts);
    if bs != [] {
      PlainBoolean(bs[0]);
    }
  }

  /** The text is the word, in letters of either case. */
  predicate Says(text: string, word: string) {
    |text| == |word| && forall i :: 0 <= i < |text| ==> text[i] == word[i] || ('A' <= text[i] <= 'Z' && word[i] as int == text[i] as int + 32)
  }

  predicate NoCapitals(word: string) {
    forall i :: 0 <= i < |word| ==> !('A' <= word[i] <= 'Z')
  }

  lemma {:induction false} LowerSays(text: string, word: string)
    requires NoCapitals(word)
    ensures Lower(text) == word <==> Says(text, word)
  {
    if text != "" && word != "" {
      LowerSays(text[1..], word[1..]);
      assert word == [word[0]] + word[1..];
      assert Says(text, word) <==> Says(text[..1], word[..1]) && Says(text[1..], word[1..]);
    }
  }

  /** Which texts are booleans, in letters of either case; all others are none. */
  lemma BooleanIff(text: string)
    ensures CastToBoolean(text) == Some(true) <==> Says(text, "true") || Says(text, "t") || Says(text, "1")
    ensures CastToBoolean(text) == Some(false) <==> Says(text, "false") || Says(text, "f") || Says(text, "0")
  {
    LowerSays(text, "true");
    LowerSays(text, "t");
    LowerSays(text, "1");
    LowerSays(text, "false");
    LowerSays(text, "f");
    LowerSays(text, "0");
  }

  /** A JSON array is taken element by element, and any other JSON for nothing. */
  lemma JsonIsTaken(json: J.Json)
    requires J.WellFormed(json)
    ensures CastToBooleanArray(J.Print(json)) == if json.JArr? then FromJson(json.items) else Read([])
    ensures CastToStringArray(J.Print(json)) == if json.JArr? then FromJson(json.items) else Read([])
  {
    J.ParsesPrinted(json);
  }
}
