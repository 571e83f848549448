/** The value codec of the conformance corpus: values as JSON text and back, 64-bit integers as tagged strings. */
module ConformanceCodec {
  import opened Sequences
  import opened Decimal
  import opened JsonText
  import opened KeyIdentity

  // ---------------------------------------------------------------------------------------------
  // Values
  // ---------------------------------------------------------------------------------------------

  datatype Entry = Entry(key: string, value: Value)

  /** A float is whole, or it is a fraction known by its shortest text. */
  datatype Value =
    | VNull
    | VBool(b: bool)
    | VStr(s: string)
    | VInt(n: int)
    | VWhole(w: int)
    | VFraction(text: string)
    | VList(items: seq<Value>)
    | VObj(entries: seq<Entry>)

  datatype CodecError = TagNotString | TagNotInt64
  datatype Result<+T> = Ok(value: T) | Err(error: CodecError)

  const TAG: string := "$bigint"

  // ---------------------------------------------------------------------------------------------
  // Whole floats
  // ---------------------------------------------------------------------------------------------

  const FULL: nat := 0x20_0000_0000_0000

  /** How often n must be halved to fit 53 bits. */
  function Excess(n: nat): nat {
    if n < FULL then 0 else 1 + Excess(n / 2)
  }

  function RoundNat(n: nat): nat {
    RoundTo(n, Pow2(Excess(n)))
  }

  /** The nearest multiple. */
  function RoundTo(n: nat, p: nat): nat
    requires p > 0
  {
    var q, r := n / p, n % p;
    (if 2 * r > p || (2 * r == p && q % 2 == 1) then q + 1 else q) * p
  }

  /** The nearest float, halves to even. */
  function RoundFloat(n: int): int {
    var a: int := RoundNat(if n < 0 then -n else n);
    if n < 0 then -a else a
  }

  /** An integer that is a float: at most 53 bits, and zeros. */
  ghost predicate IsFloat(n: int) {
    var a := if n < 0 then -n else n; exists m: nat, k: nat :: m < FULL && IsScaled(a, m, k)
  }

  predicate IsScaled(n: nat, m: nat, k: nat) {
    n == m * Pow2(k)
  }

  lemma {:induction false} ExcessAtMost(n: nat, m: nat, k: nat)
    requires m < FULL && IsScaled(n, m, k)
    ensures Excess(n) <= k
  {
    if n >= FULL {
      assert k > 0;
      Regroup3(m, 2, Pow2(k - 1));
      assert n == 2 * (m * Pow2(k - 1));
      ExcessAtMost(n / 2, m, k - 1);
    }
  }

  /** Reading the integer that a whole float prints as gives that float. */
  lemma FloatsAreExact(n: int)
    requires IsFloat(n)
    ensures RoundFloat(n) == n
  {
    var a: nat := if n < 0 then -n else n;
    var m: nat, k: nat :| m < FULL && IsScaled(a, m, k);
    ExcessAtMost(a, m, k);
    var e := Excess(a);
    PowAdd(k - e, e);
    Regroup3(m, Pow2(k - e), Pow2(e));
    DivExact(m * Pow2(k - e), Pow2(e));
  }

  /** The part that fits: below 2^53, and at least half of that when something had to go. */
  lemma {:induction false} ExcessFits(n: nat)
    ensures n / Pow2(Excess(n)) < FULL
    ensures Excess(n) > 0 ==> n / Pow2(Excess(n)) >= FULL / 2
  {
    if n >= FULL {
      var e := Excess(n / 2);
      ExcessFits(n / 2);
      DivTwice(n, Pow2(e));
      if e == 0 {
        assert Pow2(0) == 1;
      }
    }
  }

  lemma DivTwice(n: nat, p: nat)
    requires p > 0
    ensures n / (2 * p) == (n / 2) / p
  {
    var q, r := (n / 2) / p, (n / 2) % p;
    assert n / 2 == q * p + r;
    var b := n % 2;
    assert n == 2 * (q * p + r) + b;
    assert n == q * (2 * p) + (2 * r + b) by {
      assert 2 * (q * p) == q * (2 * p);
    }
    DivUnique(n, 2 * p, q, 2 * r + b);
  }

  lemma DivUnique(n: nat, d: nat, q: nat, r: nat)
    requires d > 0 && r < d && n == q * d + r
    ensures n / d == q && n % d == r
  {
    var q', r' := n / d, n % d;
    assert n == q' * d + r';
    assert (q + 1) * d == q * d + d && (q' + 1) * d == q' * d + d;
    if q' > q {
      Grows(q', q + 1, d);
    } else if q' < q {
      Grows(q, q' + 1, d);
    }
  }

  /** A float with that spacing or a wider one. */
  lemma CoarseFloat(m: nat, k: nat, e: nat, q: nat)
    requires k >= e
    ensures m * Pow2(k) <= q * Pow2(e) || m * Pow2(k) >= q * Pow2(e) + Pow2(e)
  {
    PowAdd(k - e, e);
    MultipleOfTwo(m, Pow2(k - e), Pow2(e), Pow2(k), q);
  }

  lemma MultipleOfTwo(m: nat, a: nat, p: nat, x: nat, q: nat)
    requires x == a * p
    ensures m * x <= q * p || m * x >= q * p + p
  {
    Regroup3(m, a, p);
    OutsideOfTwo(q, m * a, p);
  }

  lemma HalfPower(e: nat, k: nat)
    requires k < e
    ensures Pow2(e) == 2 * Pow2(e - 1) && Pow2(k) <= Pow2(e - 1)
  {
    PowAdd(e - 1 - k, k);
    Grows(Pow2(e - 1 - k), 1, Pow2(k));
  }

  lemma HalfFull(m: nat, x: nat, half: nat, q: nat, p: nat)
    requires m < FULL && x <= half && p == 2 * half && q >= FULL / 2
    ensures m * x <= q * p
  {
    Grows(half, x, m);
    Grows(FULL, m, half);
    Grows(q, FULL / 2, p);
  }

  /** A float with a narrower one: it has too few bits to come near n. */
  lemma FineFloat(n: nat, m: nat, k: nat)
    requires k < Excess(n) && m < FULL
    ensures m * Pow2(k) <= (n / Pow2(Excess(n))) * Pow2(Excess(n))
  {
    var e := Excess(n);
    ExcessFits(n);
    HalfPower(e, k);
    HalfFull(m, Pow2(k), Pow2(e - 1), n / Pow2(e), Pow2(e));
  }

  lemma Grows(a: nat, b: nat, x: nat)
    requires a >= b
    ensures a * x >= b * x && x * a >= x * b
  {
  }

  function Distance(a: int, b: int): nat {
    if a < b then b - a else a - b
  }

  /** The nearest multiple is nearer than anything that does not lie between the multiples around the number. */
  lemma NearestMultiple(n: nat, p: nat, f: nat)
    requires p > 0 && (f <= (n / p) * p || f >= (n / p) * p + p)
    ensures Distance(n, RoundTo(n, p)) <= Distance(n, f)
  {
    var q, r := n / p, n % p;
    assert n == q * p + r;
    assert (q + 1) * p == q * p + p;
  }

  /** No float is nearer to a number than what it is rounded to. */
  lemma RoundsToNearest(n: nat, m: nat, k: nat)
    requires m < FULL
    ensures Distance(n, RoundNat(n)) <= Distance(n, m * Pow2(k))
  {
    var e := Excess(n);
    if k >= e {
      CoarseFloat(m, k, e, n / Pow2(e));
    } else {
      FineFloat(n, m, k);
    }
    NearestMultiple(n, Pow2(e), m * Pow2(k));
  }

  lemma OutsideOfTwo(q: nat, t: nat, p: nat)
    ensures t * p <= q * p || t * p >= q * p + p
  {
    if t <= q {
      Grows(q, t, p);
    } else {
      Grows(t, q + 1, p);
      assert (q + 1) * p == q * p + p;
    }
  }

  /** Half-way between two floats it is the even one. */
  lemma HalvesToEven(n: nat)
    requires 2 * (n % Pow2(Excess(n))) == Pow2(Excess(n))
    ensures exists t: nat :: RoundNat(n) == (2 * t) * Pow2(Excess(n))
  {
    var q := n / Pow2(Excess(n));
    var t := if q % 2 == 1 then (q + 1) / 2 else q / 2;
    assert RoundNat(n) == (2 * t) * Pow2(Excess(n));
  }

  lemma FitsFloat(q: nat, e: nat, r: nat)
    requires q <= FULL && r == q * Pow2(e)
    ensures IsFloat(r)
  {
    if q < FULL {
      assert IsScaled(r, q, e);
    } else {
      assert r == (FULL / 2) * Pow2(e + 1);
      assert IsScaled(r, FULL / 2, e + 1);
    }
  }

  /** And what it is read as is a float. */
  lemma RoundedIsFloat(n: nat)
    ensures IsFloat(RoundNat(n))
  {
    var e := Excess(n);
    var q := n / Pow2(e);
    ExcessFits(n);
    FitsFloat(if RoundNat(n) == q * Pow2(e) then q else q + 1, e, RoundNat(n));
  }

  // ---------------------------------------------------------------------------------------------
  // Encoding
  // ---------------------------------------------------------------------------------------------

  /** The JSON that stands for a value. */
  function JsonOf(v: Value): Json
    decreases v, 0
  {
    match v
    case VNull => JNull
    case VBool(b) => JBool(b)
    case VStr(s) => JStr(s)
    case VInt(n) => JObj([Member(TAG, JStr(FormatInt(n)))])
    case VWhole(w) => JNum(FormatInt(w))
    case VFraction(text) => JNum(text)
    case VList(items) => JArr(JsonOfAll(items))
    case VObj(entries) => JObj(JsonOfEntries(entries))
  }

  function JsonOfAll(items: seq<Value>): (r: seq<Json>)
    ensures |r| == |items| && forall i :: 0 <= i < |r| ==> r[i] == JsonOf(items[i])
    decreases items
  {
    if items == [] then [] else [JsonOf(items[0])] + JsonOfAll(items[1..])
  }

  function JsonOfEntries(entries: seq<Entry>): (r: seq<Member>)
    ensures |r| == |entries| && forall i :: 0 <= i < |r| ==> r[i] == Member(entries[i].key, JsonOf(entries[i].value))
    decreases entries
  {
    if entries == [] then [] else [Member(entries[0].key, JsonOf(entries[0].value))] + JsonOfEntries(entries[1..])
  }

  /** `strconv.FormatInt(n, 16)` of a control character. */
  function FormatHex(n: nat): string
    requires n < 0x100
  {
    if n < 16 then [HexDigit(n)] else [HexDigit(n / 16), HexDigit(n % 16)]
  }

  /** `jsonEscapeString`. */
  method EscapeString(s: string) returns (out: string)
    ensures out == Quote(s)
  {
    out := ['"'];
    for i := 0 to |s|
      invariant out + EscapeAll(s[i..]) == ['"'] + EscapeAll(s)
    {
      assert s[i..][1..] == s[i + 1..];
      ghost var was, rest := out, EscapeAll(s[i + 1..]);
      match s[i] {
        case '"' => out := out + ['\\', '"'];
        case '\\' => out := out + ['\\', '\\'];
        case '\n' => out := out + ['\\', 'n'];
        case '\r' => out := out + ['\\', 'r'];
        case '\t' => out := out + ['\\', 't'];
        case '\U{8}' => out := out + ['\\', 'b'];
        case '\U{c}' => out := out + ['\\', 'f'];
        case r =>
          if r < ' ' {
            var h := FormatHex(r as int);
            while |h| < 4
              invariant |h| <= 4
              invariant h == FormatHex(r as int) || h == ['0'] + FormatHex(r as int)
                || h == ['0', '0'] + FormatHex(r as int) || h == ['0', '0', '0'] + FormatHex(r as int)
              decreases 4 - |h|
            {
              h := ['0'] + h;
            }
            assert h == ['0', '0', HexDigit(r as int / 16), HexDigit(r as int % 16)];
            out := out + ['\\', 'u'];
            out := out + h;
            assert out == was + EscapeChar(r);
          } else {
            out := out + [r];
          }
      }
      assert out == was + EscapeChar(s[i]);
      Regroup(was, EscapeChar(s[i]), rest);
    }
    out := out + ['"'];
  }

  function EncodeFloat(v: Value): string
    requires v.VWhole? || v.VFraction?
  {
    if v.VWhole? then FormatInt(v.w) else v.text
  }

  /** `EncodeConformanceJSON`. */
  method Encode(v: Value) returns (s: string)
    ensures s == Print(JsonOf(v))
    decreases v
  {
    match v {
      case VNull => return "null";
      case VBool(b) =>
        if b {
          return "true";
        }
        return "false";
      case VStr(t) => s := EscapeString(t);
      case VInt(n) =>
        TaggedText(n);
        return ['{', '"'] + TAG + ['"', ':', '"'] + FormatInt(n) + ['"', '}'];
      case VWhole(_) => return EncodeFloat(v);
      case VFraction(_) => return EncodeFloat(v);
      case VList(items) =>
        var parts: seq<string> := [];
        for i := 0 to |items|
          invariant |parts| == i && forall k :: 0 <= k < i ==> parts[k] == Print(JsonOf(items[k]))
        {
          var part := Encode(items[i]);
          parts := parts + [part];
        }
        PrintedAll(JsonOfAll(items));
        assert parts == PrintAll(JsonOfAll(items));
        return ['['] + Join(parts, ',') + [']'];
      case VObj(entries) =>
        var parts: seq<string> := [];
        for i := 0 to |entries|
          invariant |parts| == i
          invariant forall k :: 0 <= k < i ==> parts[k] == Quote(entries[k].key) + [':'] + Print(JsonOf(entries[k].value))
        {
          var key := EscapeString(entries[i].key);
          var part := Encode(entries[i].value);
          parts := parts + [key + [':'] + part];
        }
        PrintedMembers(JsonOfEntries(entries));
        assert parts == PrintMembers(JsonOfEntries(entries));
        return ['{'] + Join(parts, ',') + ['}'];
    }
  }

  lemma {:induction false} PrintedAll(items: seq<Json>)
    ensures forall i :: 0 <= i < |items| ==> PrintAll(items)[i] == Print(items[i])
  {
    if items != [] {
      PrintedAll(items[1..]);
    }
  }

  lemma {:induction false} PrintedMembers(members: seq<Member>)
    ensures forall i :: 0 <= i < |members| ==> PrintMembers(members)[i] == Quote(members[i].key) + [':'] + Print(members[i].value)
  {
    if members != [] {
      PrintedMembers(members[1..]);
    }
  }

  lemma {:induction false} NothingToEscape(s: string)
    requires forall i :: 0 <= i < |s| ==> EscapeChar(s[i]) == [s[i]]
    ensures EscapeAll(s) == s
  {
    if s != "" {
      NothingToEscape(s[1..]);
    }
  }

  predicate Plain(s: string) {
    forall i :: 0 <= i < |s| ==> EscapeChar(s[i]) == [s[i]]
  }

  lemma QuotedPlain(s: string)
    requires Plain(s)
    ensures Quote(s) == ['"'] + s + ['"']
  {
    NothingToEscape(s);
  }

  lemma OneMemberPrinted(m: Member)
    ensures Print(JObj([m])) == ['{'] + (Quote(m.key) + [':'] + Print(m.value)) + ['}']
  {
    assert [m][1..] == [];
    assert PrintMembers([m]) == [Quote(m.key) + [':'] + Print(m.value)];
  }

  lemma Braces(key: string, text: string)
    ensures ['{'] + ((['"'] + key + ['"']) + [':'] + (['"'] + text + ['"'])) + ['}'] == ['{', '"'] + key + ['"', ':', '"'] + text + ['"', '}']
  {
  }

  lemma TaggedMember(key: string, text: string)
    requires Plain(key) && Plain(text)
    ensures Print(JObj([Member(key, JStr(text))])) == ['{', '"'] + key + ['"', ':', '"'] + text + ['"', '}']
  {
    QuotedPlain(key);
    QuotedPlain(text);
    OneMemberPrinted(Member(key, JStr(text)));
    Braces(key, text);
  }

  /** The tag, as it is written. */
  lemma TagIsWritten(n: int, text: string)
    requires text == "{\"$bigint\":\"" + FormatInt(n) + "\"}"
    ensures Print(JsonOf(VInt(n))) == text
  {
    TaggedText(n);
    TagPieces(TAG, FormatInt(n));
  }

  lemma TagPieces(tag: string, digits: string)
    requires tag == "$bigint"
    ensures ['{', '"'] + tag + ['"', ':', '"'] + digits + ['"', '}'] == "{\"$bigint\":\"" + digits + "\"}"
  {
    assert ['{', '"'] + tag + ['"', ':', '"'] == "{\"$bigint\":\"";
  }

  lemma TaggedText(n: int)
    ensures Print(JsonOf(VInt(n))) == ['{', '"'] + TAG + ['"', ':', '"'] + FormatInt(n) + ['"', '}']
  {
    var digits := FormatInt(n);
    forall i | 0 <= i < |digits| ensures EscapeChar(digits[i]) == [digits[i]] {
      assert digits[i] in digits;
    }
    TaggedMember(TAG, digits);
  }

  // ---------------------------------------------------------------------------------------------
  // What the text looks like
  // ---------------------------------------------------------------------------------------------

  /** The text of a value, kind by kind. */
  function TextOfValue(v: Value): string
    decreases v, 0
  {
    match v
    case VNull => "null"
    case VBool(b) => if b then "true" else "false"
    case VStr(s) => Quote(s)
    case VInt(n) => "{\"$bigint\":\"" + FormatInt(n) + "\"}"
    case VWhole(w) => FormatInt(w)
    case VFraction(text) => text
    case VList(items) => "[" + Join(TextsOfItems(items), ',') + "]"
    case VObj(entries) => "{" + Join(TextsOfEntries(entries), ',') + "}"
  }

  function TextsOfItems(items: seq<Value>): seq<string>
    decreases items
  {
    if items == [] then [] else [TextOfValue(items[0])] + TextsOfItems(items[1..])
  }

  function TextsOfEntries(entries: seq<Entry>): seq<string>
    decreases entries
  {
    if entries == [] then [] else [Quote(entries[0].key) + ":" + TextOfValue(entries[0].value)] + TextsOfEntries(entries[1..])
  }

  /** Values are written kind by kind, lists and objects in their order. */
  lemma {:induction false} EncodedIs(v: Value)
    ensures Print(JsonOf(v)) == TextOfValue(v)
    decreases v, 0
  {
    match v
    case VInt(n) => TagIsWritten(n, TextOfValue(v));
    case VList(items) => ItemsAreWritten(items);
    case VObj(entries) => EntriesAreWritten(entries);
    case _ =>
  }

  lemma {:induction false} ItemsAreWritten(items: seq<Value>)
    ensures PrintAll(JsonOfAll(items)) == TextsOfItems(items)
    decreases items
  {
    if items != [] {
      EncodedIs(items[0]);
      ItemsAreWritten(items[1..]);
      assert JsonOfAll(items)[1..] == JsonOfAll(items[1..]);
    }
  }

  lemma {:induction false} EntriesAreWritten(entries: seq<Entry>)
    ensures PrintMembers(JsonOfEntries(entries)) == TextsOfEntries(entries)
    decreases entries
  {
    if entries != [] {
      EncodedIs(entries[0].value);
      EntriesAreWritten(entries[1..]);
      assert JsonOfEntries(entries)[1..] == JsonOfEntries(entries[1..]);
    }
  }

  /** The short escapes, and the long one for another control character. */
  lemma EscapesAre(c: char)
    ensures EscapeChar(c) ==
      if c == '\"' then "\\\"" else if c == '\\' then "\\\\" else if c == '\n' then "\\n" else if c == '\r' then "\\r" else if c == '\t' then "\\t"
      else if c as int == 8 then "\\b" else if c as int == 12 then "\\f"
      else if c as int >= 32 then [c]
      else "\\u00" + [if c as int < 16 then '0' else '1', if c as int % 16 < 10 then ('0' as int + c as int % 16) as char else ('a' as int + c as int % 16 - 10) as char]
  {
  }

  // ---------------------------------------------------------------------------------------------
  // Decoding
  // ---------------------------------------------------------------------------------------------

  /** The integer a number spells, if it has neither fraction nor exponent. */
  function IntegerOf(lexeme: string): Option<int> {
    if lexeme == "" then None
    else
      var digits := if lexeme[0] == '-' then lexeme[1..] else lexeme;
      if !AllDigits(digits) then None
      else
        var n: int := NatValue(digits);
        Some(if lexeme[0] == '-' then -n else n)
  }

  function DecodeNumber(lexeme: string): Value {
    match IntegerOf(lexeme)
    case Some(n) => VWhole(RoundFloat(n))
    case None => VFraction(lexeme)
  }

  function SetEntry(entries: seq<Entry>, key: string, value: Value): seq<Entry> {
    if entries == [] then [Entry(key, value)]
    else if entries[0].key == key then [Entry(key, value)] + entries[1..]
    else [entries[0]] + SetEntry(entries[1..], key, value)
  }

  predicate IsTagged(members: seq<Member>) {
    |members| == 1 && members[0].key == TAG
  }

  function DecodeTagged(value: Json): Result<Value> {
    if !value.JStr? then Err(TagNotString)
    else match ParseInt64(value.s)
      case Some(n) => Ok(VInt(n))
      case None => Err(TagNotInt64)
  }

  /** The value that JSON stands for. */
  function Decoded(j: Json): Result<Value>
    decreases j, 0
  {
    match j
    case JNull => Ok(VNull)
    case JBool(b) => Ok(VBool(b))
    case JStr(s) => Ok(VStr(s))
    case JNum(lexeme) => Ok(DecodeNumber(lexeme))
    case JArr(items) =>
      (match DecodedItems(items, |items|) { case Ok(vs) => Ok(VList(vs)) case Err(e) => Err(e) })
    case JObj(members) =>
      if IsTagged(members) then DecodeTagged(members[0].value)
      else match DecodedEntries(members, |members|) { case Ok(es) => Ok(VObj(es)) case Err(e) => Err(e) }
  }

  /** The first n items; the first error stops. */
  function DecodedItems(items: seq<Json>, n: nat): (r: Result<seq<Value>>)
    requires n <= |items|
    ensures r.Ok? ==> |r.value| == n
    decreases items, n
  {
    if n == 0 then Ok([])
    else
      var before, last := DecodedItems(items, n - 1), Decoded(items[n - 1]);
      if before.Err? then before else if last.Err? then Err(last.error) else Ok(before.value + [last.value])
  }

  function DecodedEntries(members: seq<Member>, n: nat): Result<seq<Entry>>
    requires n <= |members|
    decreases members, n
  {
    if n == 0 then Ok([])
    else
      var before, last := DecodedEntries(members, n - 1), Decoded(members[n - 1].value);
      if before.Err? then before
      else if last.Err? then Err(last.error)
      else Ok(SetEntry(before.value, members[n - 1].key, last.value))
  }

  /** An error among the first items is an error for all of them. */
  lemma {:induction false} ItemsStop(items: seq<Json>, n: nat, m: nat)
    requires n <= m <= |items| && DecodedItems(items, n).Err?
    ensures DecodedItems(items, m) == DecodedItems(items, n)
  {
    if n < m {
      ItemsStop(items, n, m - 1);
    }
  }

  lemma {:induction false} EntriesStop(members: seq<Member>, n: nat, m: nat)
    requires n <= m <= |members| && DecodedEntries(members, n).Err?
    ensures DecodedEntries(members, m) == DecodedEntries(members, n)
  {
    if n < m {
      EntriesStop(members, n, m - 1);
    }
  }

  /** `DecodeConformanceValue`. */
  method Decode(j: Json) returns (r: Result<Value>)
    ensures r == Decoded(j)
    decreases j
  {
    match j {
      case JNull => return Ok(VNull);
      case JBool(b) => return Ok(VBool(b));
      case JStr(s) => return Ok(VStr(s));
      case JNum(lexeme) => return Ok(DecodeNumber(lexeme));
      case JArr(items) =>
        var out: seq<Value> := [];
        for i := 0 to |items|
          invariant DecodedItems(items, i) == Ok(out)
        {
          var dv := Decode(items[i]);
          if dv.Err? {
            ItemsStop(items, i + 1, |items|);
            return dv;
          }
          out := out + [dv.value];
        }
        return Ok(VList(out));
      case JObj(members) =>
        if |members| == 1 && members[0].key == TAG {
          if !members[0].value.JStr? {
            return Err(TagNotString);
          }
          var n := ParseInt64(members[0].value.s);
          if n.None? {
            return Err(TagNotInt64);
          }
          return Ok(VInt(n.value));
        }
        var out: seq<Entry> := [];
        for i := 0 to |members|
          invariant DecodedEntries(members, i) == Ok(out)
        {
          var dv := Decode(members[i].value);
          if dv.Err? {
            EntriesStop(members, i + 1, |members|);
            return dv;
          }
          out := SetEntry(out, members[i].key, dv.value);
        }
        return Ok(VObj(out));
    }
  }

  // ---------------------------------------------------------------------------------------------
  // Round trip
  // ---------------------------------------------------------------------------------------------

  predicate DistinctNames(entries: seq<Entry>) {
    forall i, j :: 0 <= i < j < |entries| ==> entries[i].key != entries[j].key
  }

  /** What the types promise, at every depth: 64-bit integers; floats that are whole within 64 bits, or fractions by their
      shortest text; distinct names. */
  ghost predicate Proper(v: Value)
    decreases v
  {
    match v
    case VInt(n) => IsInt64(n)
    case VWhole(w) => IsInt64(w) && IsFloat(w)
    case VFraction(text) => IsNumber(text) && IntegerOf(text).None?
    case VList(items) => forall i :: 0 <= i < |items| ==> Proper(items[i])
    case VObj(entries) => DistinctNames(entries) && forall i :: 0 <= i < |entries| ==> Proper(entries[i].value)
    case _ => true
  }

  /** No object, at any depth, has the tag as its only key. */
  predicate TagFree(v: Value)
    decreases v
  {
    match v
    case VList(items) => forall i :: 0 <= i < |items| ==> TagFree(items[i])
    case VObj(entries) => !(|entries| == 1 && entries[0].key == TAG) && forall i :: 0 <= i < |entries| ==> TagFree(entries[i].value)
    case _ => true
  }

  /** What is printed is well-formed JSON. */
  lemma {:induction false} EncodesWellFormed(v: Value)
    requires Proper(v)
    ensures WellFormed(JsonOf(v))
    decreases v
  {
    match v {
      case VWhole(w) => IntegersAreNumbers(w);
      case VList(items) =>
        forall i | 0 <= i < |items| ensures WellFormed(JsonOf(items[i])) {
          EncodesWellFormed(items[i]);
        }
      case VObj(entries) =>
        forall i | 0 <= i < |entries| ensures WellFormed(JsonOf(entries[i].value)) {
          EncodesWellFormed(entries[i].value);
        }
      case _ =>
    }
  }

  lemma SpellsItself(n: int)
    ensures IntegerOf(FormatInt(n)) == Some(n)
  {
    var s := FormatInt(n);
    if n < 0 {
      NatRoundTrip(-n);
      assert s[1..] == FormatNat(-n);
    } else {
      NatRoundTrip(n);
      assert s[0] in s;
    }
  }

  lemma {:induction false} SetNew(entries: seq<Entry>, key: string, value: Value)
    requires forall i :: 0 <= i < |entries| ==> entries[i].key != key
    ensures SetEntry(entries, key, value) == entries + [Entry(key, value)]
  {
    if entries != [] {
      SetNew(entries[1..], key, value);
    }
  }

  /** Decoding what stands for a value gives the value back exactly when no object in it looks like a tagged integer. */
  lemma {:induction false} DecodesIff(v: Value)
    requires Proper(v)
    ensures Decoded(JsonOf(v)) == Ok(v) <==> TagFree(v)
    decreases v, 1
  {
    match v {
      case VInt(n) => Int64RoundTrip(n);
      case VWhole(w) =>
        SpellsItself(w);
        FloatsAreExact(w);
      case VList(items) => ListDecodesIff(items);
      case VObj(entries) => ObjectDecodesIff(entries);
      case _ =>
    }
  }

  lemma {:induction false} ListDecodesIff(items: seq<Value>)
    requires Proper(VList(items))
    ensures Decoded(JsonOf(VList(items))) == Ok(VList(items)) <==> TagFree(VList(items))
    decreases items, 1
  {
    ItemsBackIff(items, |items|);
    AllTagFreeIs(items, |items|);
    assert items[..|items|] == items;
  }

  lemma {:induction false} EachDecodes(entries: seq<Entry>)
    requires forall i :: 0 <= i < |entries| ==> Proper(entries[i].value)
    ensures EachBack(entries, JsonOfEntries(entries))
    decreases entries, 0
  {
    var members := JsonOfEntries(entries);
    forall i | 0 <= i < |entries| ensures EntryBack(entries[i], members[i]) {
      DecodesIff(entries[i].value);
    }
  }

  lemma {:induction false} ObjectDecodesIff(entries: seq<Entry>)
    requires Proper(VObj(entries))
    ensures Decoded(JsonOf(VObj(entries))) == Ok(VObj(entries)) <==> TagFree(VObj(entries))
    decreases entries, 1
  {
    if !IsTagged(JsonOfEntries(entries)) {
      var members := JsonOfEntries(entries);
      EachDecodes(entries);
      EntriesBackIff(entries, members, |entries|);
      assert entries[..|entries|] == entries;
    }
  }

  lemma ItemsStep(js: seq<Json>, vs: seq<Value>, n: nat)
    requires 0 < n <= |js| == |vs|
    ensures DecodedItems(js, n) == Ok(vs[..n]) <==> DecodedItems(js, n - 1) == Ok(vs[..n - 1]) && Decoded(js[n - 1]) == Ok(vs[n - 1])
  {
    var before, last := DecodedItems(js, n - 1), Decoded(js[n - 1]);
    if before.Ok? && last.Ok? {
      LastOne(before.value, last.value, vs[..n]);
      assert vs[..n][..n - 1] == vs[..n - 1];
    }
  }

  lemma {:induction false} ItemsBackIff(items: seq<Value>, n: nat)
    requires n <= |items| && forall i :: 0 <= i < |items| ==> Proper(items[i])
    ensures DecodedItems(JsonOfAll(items), n) == Ok(items[..n]) <==> AllTagFree(items, n)
    decreases items, 0, n
  {
    if n > 0 {
      ItemsBackIff(items, n - 1);
      ItemsStep(JsonOfAll(items), items, n);
      DecodesIff(items[n - 1]);
    }
  }

  predicate AllTagFree(items: seq<Value>, n: nat)
    requires n <= |items|
  {
    n == 0 || (AllTagFree(items, n - 1) && TagFree(items[n - 1]))
  }

  lemma {:induction false} AllTagFreeIs(items: seq<Value>, n: nat)
    requires n <= |items|
    ensures AllTagFree(items, n) <==> forall i :: 0 <= i < n ==> TagFree(items[i])
  {
    if n > 0 {
      AllTagFreeIs(items, n - 1);
    }
  }

  lemma LastOne<T>(a: seq<T>, x: T, b: seq<T>)
    requires |b| == |a| + 1
    ensures a + [x] == b <==> a == b[..|a|] && x == b[|a|]
  {
    assert b == b[..|a|] + [b[|a|]];
    assert a + [x] == b ==> a == (a + [x])[..|a|];
  }

  /** The first n entries are decoded as they were. */
  predicate ComeBack(members: seq<Member>, entries: seq<Entry>, n: nat)
    requires n <= |members| == |entries|
  {
    DecodedEntries(members, n) == Ok(entries[..n])
  }

  predicate FirstTagFree(entries: seq<Entry>, n: nat)
    requires n <= |entries|
  {
    forall i :: 0 <= i < n ==> TagFree(entries[i].value)
  }

  lemma EntriesStep(members: seq<Member>, entries: seq<Entry>, n: nat)
    requires 0 < n <= |members| == |entries| && DistinctNames(entries)
    requires members[n - 1].key == entries[n - 1].key
    requires KeysKept(DecodedEntries(members, n - 1), entries, n - 1)
    ensures ComeBack(members, entries, n) <==> ComeBack(members, entries, n - 1) && Decoded(members[n - 1].value) == Ok(entries[n - 1].value)
  {
    var before, last := DecodedEntries(members, n - 1), Decoded(members[n - 1].value);
    if before.Ok? && last.Ok? {
      SetNew(before.value, entries[n - 1].key, last.value);
      LastOne(before.value, Entry(entries[n - 1].key, last.value), entries[..n]);
      assert entries[..n][..n - 1] == entries[..n - 1];
    }
  }

  predicate EachBack(entries: seq<Entry>, members: seq<Member>) {
    |members| == |entries| && forall i :: 0 <= i < |entries| ==> EntryBack(entries[i], members[i])
  }

  predicate EntryBack(entry: Entry, member: Member) {
    member.key == entry.key && (Decoded(member.value) == Ok(entry.value) <==> TagFree(entry.value))
  }

  lemma BackNext(entries: seq<Entry>, members: seq<Member>, n: nat)
    requires 0 < n <= |entries| && DistinctNames(entries) && EachBack(entries, members)
    requires KeysKept(DecodedEntries(members, n - 1), entries, n - 1) && (ComeBack(members, entries, n - 1) <==> FirstTagFree(entries, n - 1))
    ensures KeysKept(DecodedEntries(members, n), entries, n)
    ensures ComeBack(members, entries, n) <==> FirstTagFree(entries, n)
  {
    assert EntryBack(entries[n - 1], members[n - 1]);
    EntriesStep(members, entries, n);
    KeysNext(members, entries, n);
  }

  lemma {:induction false} EntriesBackIff(entries: seq<Entry>, members: seq<Member>, n: nat)
    requires n <= |entries| && DistinctNames(entries) && EachBack(entries, members)
    ensures KeysKept(DecodedEntries(members, n), entries, n)
    ensures ComeBack(members, entries, n) <==> FirstTagFree(entries, n)
    decreases n
  {
    if n > 0 {
      EntriesBackIff(entries, members, n - 1);
      BackNext(entries, members, n);
    }
  }

  /** The keys of the first n entries, as decoded. */
  predicate KeysKept(r: Result<seq<Entry>>, entries: seq<Entry>, n: nat)
    requires n <= |entries|
  {
    r.Ok? ==> |r.value| == n && forall i :: 0 <= i < n ==> r.value[i].key == entries[i].key
  }

  lemma KeysNext(members: seq<Member>, entries: seq<Entry>, n: nat)
    requires 0 < n <= |members| == |entries| && DistinctNames(entries) && members[n - 1].key == entries[n - 1].key
    requires KeysKept(DecodedEntries(members, n - 1), entries, n - 1)
    ensures KeysKept(DecodedEntries(members, n), entries, n)
  {
    var before, last := DecodedEntries(members, n - 1), Decoded(members[n - 1].value);
    if before.Ok? && last.Ok? {
      SetNew(before.value, members[n - 1].key, last.value);
    }
  }

  /** The whole way: the text of a value, parsed as JSON and decoded. */
  function Back(text: string): Option<Value> {
    var j := Parse(text);
    if j.None? then None
    else match Decoded(j.value)
      case Ok(v) => Some(v)
      case Err(_) => None
  }

  /** Text and back: every value returns, except exactly those with an object whose only key is the tag. */
  lemma RoundTripIff(v: Value)
    requires Proper(v)
    ensures Back(Print(JsonOf(v))) == Some(v) <==> TagFree(v)
  {
    EncodesWellFormed(v);
    ParsesPrinted(JsonOf(v));
    DecodesIff(v);
  }

  /** The collision: an object with a decimal text under the tag comes back as an integer. */
  lemma TagCollides(n: int)
    requires IsInt64(n)
    ensures Back(Print(JsonOf(VObj([Entry(TAG, VStr(FormatInt(n)))])))) == Some(VInt(n))
  {
    var v := VObj([Entry(TAG, VStr(FormatInt(n)))]);
    assert JsonOf(v) == JsonOf(VInt(n)) by {
      assert JsonOfEntries(v.entries) == [Member(TAG, JStr(FormatInt(n)))];
    }
    RoundTripIff(VInt(n));
  }
}
