/** How many placeholders of a compiled condition tree are left without a parameter, and what keys with placeholders become. */
module BoundPlaceholders {
  import opened Sequences
  import opened SqlText
  import opened Placeholders
  import opened ConditionCompiler
  import opened ConditionLists

  // ---------------------------------------------------------------------------------------------
  // Counting
  // ---------------------------------------------------------------------------------------------

  /** The `?` in text that is not a hole: nothing is bound to them. */
  function Loose(ts: seq<SqlText.Token>): nat {
    if ts == [] then 0 else (if ts[0].Hole? then 0 else Holes(Spell(ts[0]))) + Loose(ts[1..])
  }

  lemma {:induction false} LooseAppend(a: seq<SqlText.Token>, b: seq<SqlText.Token>)
    ensures Loose(a + b) == Loose(a) + Loose(b)
  {
    if a == [] {
      assert a + b == b;
    } else {
      assert (a + b)[1..] == a[1..] + b;
      LooseAppend(a[1..], b);
    }
  }

  lemma LooseOne(t: SqlText.Token)
    ensures Loose([t]) == if t.Hole? then 0 else Holes(Spell(t))
  {
    assert [t][1..] == [];
  }

  lemma LooseAround(before: seq<SqlText.Token>, inner: seq<SqlText.Token>, after: seq<SqlText.Token>)
    ensures Loose(before + inner + after) == Loose(before) + Loose(inner) + Loose(after)
  {
    LooseAppend(before, inner);
    LooseAppend(before + inner, after);
  }

  /** The placeholders of a text are its holes and its loose ones. */
  lemma {:induction false} SpelledHoles(ts: seq<SqlText.Token>)
    ensures Holes(SpellAll(ts)) == |HolesOf(ts)| + Loose(ts)
  {
    if ts != [] {
      SpelledHoles(ts[1..]);
      HolesOfJoined(Spell(ts[0]), SpellAll(ts[1..]));
    }
  }

  lemma {:induction false} NoneWhenFree(s: string)
    requires Free(s, '?')
    ensures Holes(s) == 0
  {
    if s != "" {
      assert s[0] in s;
      NoneWhenFree(s[1..]);
    }
  }

  /** The tokens that are written the same everywhere. */
  predicate IsFixed(t: SqlText.Token) {
    t.AndTok? || t.OrTok? || t.Open? || t.Close? || t.Comma? || t.IsNullTok? || t.InTok? || t.NeverTok? || t == Operator("=")
  }

  lemma FixedIsClean(t: SqlText.Token)
    requires IsFixed(t)
    ensures Holes(Spell(t)) == 0 && Loose([t]) == 0
  {
    NoneWhenFree(Spell(t));
    LooseOne(t);
  }

  lemma {:induction false} LooseSeparated(parts: seq<seq<SqlText.Token>>, sep: SqlText.Token)
    requires IsFixed(sep)
    ensures Loose(Separated(parts, sep)) == Loose(Concat(parts))
  {
    if |parts| == 1 {
      assert parts == [parts[0]];
      ConcatOne(parts[0]);
    } else if |parts| > 1 {
      LooseSeparated(parts[1..], sep);
      LooseAround(parts[0], [sep], Separated(parts[1..], sep));
      FixedIsClean(sep);
      LooseAppend(parts[0], Concat(parts[1..]));
    }
  }

  lemma PieceIsClean(text: string, i: nat)
    ensures Holes(Spell(Piece(text, i))) == 0
  {
    var p := PieceOf(text, i);
    assert i < |Split(text)| ==> p in Split(text);
    NoneWhenFree(p);
  }

  lemma {:induction false} HoleListIsClean(vs: seq<Value>)
    ensures Loose(HoleList(vs)) == 0
  {
    if |vs| == 1 {
      LooseOne(Hole(vs[0]));
    } else if |vs| > 1 {
      HoleListIsClean(vs[1..]);
      LooseAppend([Hole(vs[0]), Comma], HoleList(vs[1..]));
      assert [Hole(vs[0]), Comma][1..] == [Comma];
      FixedIsClean(Comma);
    }
  }

  lemma {:induction false} PiecesAreClean(text: string, args: seq<seq<Value>>, i: nat)
    requires i <= |args|
    ensures Loose(Pieces(text, args, i)) == 0
    decreases |args| - i
  {
    PieceIsClean(text, i);
    LooseOne(Piece(text, i));
    if i < |args| {
      HoleListIsClean(args[i]);
      PiecesAreClean(text, args, i + 1);
      LooseAround([Piece(text, i)], HoleList(args[i]), Pieces(text, args, i + 1));
    }
  }

  lemma TextCount(text: string, args: seq<seq<Value>>)
    ensures Loose(WriteText(text, args)) == if args == [] then Holes(text) else 0
  {
    if args == [] {
      LooseOne(Word(text));
    } else {
      PiecesAreClean(text, args, 0);
    }
  }

  // ---------------------------------------------------------------------------------------------
  // Keys with placeholders
  // ---------------------------------------------------------------------------------------------

  function QuestionMarks(n: nat): string {
    if n == 0 then "" else if n == 1 then "?" else "?, " + QuestionMarks(n - 1)
  }

  /** What `compileCustomOperator` returns for a list. */
  function CustomText(key: string, vs: seq<Value>): string {
    if Holes(key) == 1 && |vs| == 0 then ReplaceFirst(key, "NULL")
    else if Holes(key) == 1 && |vs| != 1 then ReplaceFirst(key, QuestionMarks(|vs|))
    else key
  }

  lemma {:induction false} SplitCount(text: string)
    ensures |Split(text)| == Holes(text) + 1
  {
    if text != "" {
      SplitCount(text[1..]);
    }
  }

  lemma {:induction false} SpellAppend(a: seq<SqlText.Token>, b: seq<SqlText.Token>)
    ensures SpellAll(a + b) == SpellAll(a) + SpellAll(b)
  {
    if a == [] {
      assert a + b == b;
    } else {
      assert (a + b)[1..] == a[1..] + b;
      SpellAppend(a[1..], b);
    }
  }

  lemma SpellOne(t: SqlText.Token)
    ensures SpellAll([t]) == Spell(t)
  {
    assert [t][1..] == [];
    assert Spell(t) + "" == Spell(t);
  }

  lemma SpellHoleComma(v: Value)
    ensures SpellAll([Hole(v), Comma]) == "?, "
  {
    assert [Hole(v), Comma] == [Hole(v)] + [Comma];
    SpellAppend([Hole(v)], [Comma]);
    SpellOne(Hole(v));
    SpellOne(Comma);
  }

  lemma {:induction false} SpellHoleList(vs: seq<Value>)
    ensures SpellAll(HoleList(vs)) == QuestionMarks(|vs|)
  {
    if |vs| == 1 {
      SpellOne(Hole(vs[0]));
    } else if |vs| > 1 {
      SpellHoleList(vs[1..]);
      SpellHoleComma(vs[0]);
      SpellAppend([Hole(vs[0]), Comma], HoleList(vs[1..]));
    }
  }

  /** Stretches with lists of question marks between them. */
  function Filled(pieces: seq<string>, args: seq<seq<Value>>): string
    requires |pieces| == |args| + 1
  {
    if args == [] then pieces[0] else pieces[0] + QuestionMarks(|args[0]|) + Filled(pieces[1..], args[1..])
  }

  lemma {:induction false} SpellPieces(text: string, args: seq<seq<Value>>, i: nat)
    requires |args| == Holes(text) && i <= |args|
    ensures |Split(text)| == |args| + 1 && SpellAll(Pieces(text, args, i)) == Filled(Split(text)[i..], args[i..])
    decreases |args| - i
  {
    SplitCount(text);
    SpellOne(Piece(text, i));
    if i < |args| {
      SpellPieces(text, args, i + 1);
      SpellHoleList(args[i]);
      SpellAppend([Piece(text, i)], HoleList(args[i]));
      SpellAppend([Piece(text, i)] + HoleList(args[i]), Pieces(text, args, i + 1));
      assert Split(text)[i..][1..] == Split(text)[i + 1..] && args[i..][1..] == args[i + 1..];
    }
  }

  lemma {:induction false} FilledOnes(pieces: seq<string>, args: seq<seq<Value>>)
    requires |pieces| == |args| + 1 && forall i :: 0 <= i < |args| ==> |args[i]| == 1
    ensures Filled(pieces, args) == Join(pieces, '?')
  {
    if args != [] {
      FilledOnes(pieces[1..], args[1..]);
    } else {
      assert pieces == [pieces[0]];
    }
  }

  lemma {:induction false} ReplacedIsFilled(key: string, text: string)
    requires Holes(key) == 1
    ensures |Split(key)| == 2 && ReplaceFirst(key, text) == Split(key)[0] + text + Split(key)[1]
  {
    SplitCount(key);
    if key[0] == '?' {
      SplitCount(key[1..]);
      NumberedInOrder(key[1..], 0);
      assert Split(key[1..]) == [key[1..]];
      assert "" + text == text;
    } else {
      ReplacedIsFilled(key[1..], text);
      var more := Split(key[1..]);
      assert Split(key)[0] == [key[0]] + more[0] && Split(key)[1] == more[1];
      Regroup4([key[0]], more[0], text, more[1]);
      Regroup(more[0], text, more[1]);
    }
  }

  /** The text of a fragment with one value for each placeholder is the fragment as it was written. */
  lemma FragmentIsSpelled(text: string, vs: seq<Value>)
    requires Holes(text) == |vs|
    ensures SpellAll(WriteText(text, Singletons(vs))) == text
  {
    SingletonsGood(vs);
    NumberedInOrder(text, 0);
    SplitCount(text);
    if vs == [] {
      SpellOne(Word(text));
    } else {
      SpellPieces(text, Singletons(vs), 0);
      FilledOnes(Split(text), Singletons(vs));
      assert Split(text)[0..] == Split(text) && Singletons(vs)[0..] == Singletons(vs);
    }
  }

  /** For a list, a key with one placeholder has it expanded to one for each value, or to NULL, and any other key stays as
      it is. */
  lemma CustomIsSpelled(key: string, vs: seq<Value>)
    requires HasHole(key) && (Holes(key) == 1 || Holes(key) == |vs|)
    ensures SpellAll(WritePrim(CustomPrim(key, vs))) == CustomText(key, vs)
  {
    if Holes(key) != 1 {
      FragmentIsSpelled(key, vs);
    } else if vs == [] {
      SpellOne(Word(ReplaceFirst(key, "NULL")));
    } else if |vs| == 1 {
      assert vs == [vs[0]];
      assert Singletons(vs) == [vs];
      FragmentIsSpelled(key, vs);
    } else {
      SpellPieces(key, [vs], 0);
      ReplacedIsFilled(key, QuestionMarks(|vs|));
      assert Split(key)[0..] == Split(key) && [vs][0..] == [vs] && [vs][1..] == [];
      assert Split(key)[1..] == [Split(key)[1]];
    }
  }

  // ---------------------------------------------------------------------------------------------
  // What stays unbound in a tree
  // ---------------------------------------------------------------------------------------------

  /** In the text of the token itself, without the key. */
  function TokenLoose(t: DbToken, casts: bool): nat {
    Loose(WritePrim(TokenPrim("", t, casts)))
  }

  function RawLoose(vs: seq<Value>): nat {
    if vs == [] then 0 else (if vs[0].Text? then Holes(vs[0].s) else 0) + RawLoose(vs[1..])
  }

  /** The placeholders that an entry leaves without a parameter: those of a key whose value is null, a boolean or a token, and
      those of raw text. */
  function EntryLoose(e: Entry, casts: bool): nat
    decreases e
  {
    var key, value := e.key, e.value;
    if key == OR_KEY && value.Groups? then GroupsLoose(value.groups, casts)
    else if key == RAW_KEY then
      match value
      case Scalar(Text(s)) => Holes(s)
      case List(vs) => RawLoose(vs)
      case _ => 0
    else if value.TokenValue? then (if UsesKey(value.t) then Holes(key) else 0) + TokenLoose(value.t, casts)
    else if value.Inner? then ConditionsLoose(value.c, casts)
    else if IsReserved(key) then 0
    else if value.Nul? || value.Boolean? then Holes(key)
    else 0
  }

  function EntriesLoose(entries: seq<Entry>, casts: bool): nat
    decreases entries
  {
    if entries == [] then 0 else EntryLoose(entries[0], casts) + EntriesLoose(entries[1..], casts)
  }

  function GroupsLoose(groups: seq<Record>, casts: bool): nat
    decreases groups
  {
    if groups == [] then 0 else EntriesLoose(groups[0].entries, casts) + GroupsLoose(groups[1..], casts)
  }

  function NestedLoose(nested: seq<Nested>, casts: bool): nat
    decreases nested
  {
    if nested == [] then 0 else NestedOneLoose(nested[0], casts) + NestedLoose(nested[1..], casts)
  }

  function NestedOneLoose(n: Nested, casts: bool): nat
    decreases n
  {
    ConditionsLoose(n.conditions, casts)
  }

  function ConditionsLoose(c: Conditions, casts: bool): nat
    decreases c
  {
    EntriesLoose(c.entries, casts) + NestedLoose(c.nested, casts)
  }

  predicate IsOnKey(p: Prim) {
    p.Compare? || p.IsNull? || p.IsNotNull? || p.InList?
  }

  lemma KeyThenRest(p: Prim)
    requires IsOnKey(p)
    ensures WritePrim(p) == [Word(p.left)] + AfterKey(p)
  {
    match p {
      case Compare(key, op, right) => Regroup([Word(key)], [Operator(op)], WriteOperand(right));
      case InList(key, items) => ListAfterKey(key, WriteOperands(items));
      case _ =>
    }
  }

  lemma ListAfterKey(key: string, items: seq<SqlText.Token>)
    ensures [Word(key), InTok(false), Open] + items + [Close] == [Word(key)] + ([InTok(false), Open] + items + [Close])
  {
    assert [Word(key), InTok(false), Open] == [Word(key)] + [InTok(false), Open];
    Regroup4([Word(key)], [InTok(false), Open], items, [Close]);
    Regroup([InTok(false), Open], items, [Close]);
  }

  lemma KeyComesFirst(key: string, t: DbToken, casts: bool)
    requires UsesKey(t)
    ensures WritePrim(TokenPrim(key, t, casts)) == [Word(key)] + AfterKey(TokenPrim("", t, casts))
    ensures WritePrim(TokenPrim("", t, casts)) == [Word("")] + AfterKey(TokenPrim("", t, casts))
  {
    KeyThenRest(TokenPrim(key, t, casts));
    KeyThenRest(TokenPrim("", t, casts));
  }

  /** The text of a condition on a key, after the key. */
  function AfterKey(p: Prim): seq<SqlText.Token> {
    match p
    case Compare(_, op, right) => [Operator(op)] + WriteOperand(right)
    case IsNull(_) => [IsNullTok]
    case IsNotNull(_) => [IsNotNullTok]
    case InList(_, items) => [InTok(false), Open] + WriteOperands(items) + [Close]
    case _ => []
  }

  lemma TokenCount(key: string, t: DbToken, casts: bool)
    ensures Loose(WritePrim(TokenPrim(key, t, casts))) == (if UsesKey(t) then Holes(key) else 0) + TokenLoose(t, casts)
  {
    if UsesKey(t) {
      KeyComesFirst(key, t, casts);
      var after := AfterKey(TokenPrim("", t, casts));
      LooseOne(Word(key));
      LooseOne(Word(""));
      LooseAppend([Word(key)], after);
      LooseAppend([Word("")], after);
    } else {
      assert TokenPrim(key, t, casts) == TokenPrim("", t, casts);
    }
  }

  lemma BoolTextIsClean(b: bool)
    ensures Holes(BoolText(b)) == 0
  {
    BoolTextIsName(b);
  }

  lemma EqualsCount(key: string, right: Operand)
    ensures Loose(WritePrim(Compare(key, "=", right))) == Holes(key) + Loose(WriteOperand(right))
  {
    LooseAround([Word(key)], [Operator("=")], WriteOperand(right));
    LooseOne(Word(key));
    FixedIsClean(Operator("="));
    assert [Word(key)] + [Operator("=")] == [Word(key), Operator("=")];
  }

  lemma {:induction false} BoundsAreClean(vs: seq<Value>)
    ensures Loose(WriteOperands(Bounds(vs, None))) == 0
  {
    if vs != [] {
      LooseOne(Hole(vs[0]));
      BoundsGood(vs, None);
      BoundsGood(vs[1..], None);
      assert Bounds(vs, None)[1..] == Bounds(vs[1..], None);
      BoundsAreClean(vs[1..]);
      FixedIsClean(Comma);
      LooseAround([Hole(vs[0])], [Comma], WriteOperands(Bounds(vs[1..], None)));
    }
  }

  lemma InListCount(key: string, vs: seq<Value>)
    ensures Loose(WritePrim(InList(key, Bounds(vs, None)))) == Holes(key)
  {
    BoundsAreClean(vs);
    ItemsCount(key, Bounds(vs, None));
  }

  lemma Bracketed<T>(left: T, sep: T, open: T, items: seq<T>, close: T)
    ensures [left, sep, open] + items + [close] == [left] + [sep] + ([open] + items + [close])
  {
  }

  lemma ItemsCount(key: string, items: seq<Operand>)
    ensures Loose(WritePrim(InList(key, items))) == Holes(key) + Loose(WriteOperands(items))
  {
    var ts := WriteOperands(items);
    LooseOne(Word(key));
    MembershipCount([Word(key)], ts);
    Bracketed(Word(key), InTok(false), Open, ts, Close);
  }

  lemma MembershipCount(left: seq<SqlText.Token>, items: seq<SqlText.Token>)
    ensures Loose(left + [InTok(false)] + ([Open] + items + [Close])) == Loose(left) + Loose(items)
  {
    FixedIsClean(InTok(false));
    InParentheses(items);
    LooseAround(left, [InTok(false)], [Open] + items + [Close]);
  }

  lemma CustomCount(key: string, vs: seq<Value>)
    requires HasHole(key)
    requires Holes(key) == 1 || Holes(key) == |vs|
    ensures Loose(WritePrim(CustomPrim(key, vs))) == 0
  {
    HolesAreThere(key);
    SingletonsGood(vs);
    if Holes(key) == 1 && vs == [] {
      TextCount(ReplaceFirst(key, "NULL"), []);
      ReplaceFirstHoles(key, "NULL");
      assert Holes("NULL") == 0;
    } else {
      TextCount(key, CustomArgs(key, vs));
    }
  }

  lemma LiteralCount(key: string, b: bool)
    ensures Loose(WritePrim(Compare(key, "=", Expr(BoolText(b), [])))) == Holes(key)
  {
    EqualsCount(key, Expr(BoolText(b), []));
    TextCount(BoolText(b), []);
    BoolTextIsClean(b);
  }

  lemma EqualityCount(key: string, v: Value)
    ensures Loose(WritePrim(Compare(key, "=", Bound(v, None)))) == Holes(key)
  {
    EqualsCount(key, Bound(v, None));
    LooseOne(Hole(v));
  }

  lemma IsNullCount(key: string)
    ensures Loose(WritePrim(IsNull(key))) == Holes(key)
  {
    assert WritePrim(IsNull(key)) == [Word(key)] + [IsNullTok];
    LooseAppend([Word(key)], [IsNullTok]);
    LooseOne(Word(key));
    FixedIsClean(IsNullTok);
  }

  /** An ordinary key with an ordinary value. */
  lemma ValueCount(key: string, value: Cond, casts: bool)
    requires !IsReserved(key) && IsData(value) && FitsEntry(Entry(key, value))
    ensures Loose(WriteConj(EntryConj(key, value, casts))) == EntryLoose(Entry(key, value), casts)
  {
    assert key != OR_KEY && key != RAW_KEY;
    HolesAreThere(key);
    match value {
      case Nul => IsNullCount(key);
      case Boolean(b) =>
        if b && HasSpace(key) {
          TextCount(key, []);
        } else {
          LiteralCount(key, b);
        }
      case List(vs) =>
        if HasHole(key) {
          CustomCount(key, vs);
        } else if vs == [] {
          NeverIsClean();
        } else {
          InListCount(key, vs);
        }
      case Scalar(v) =>
        if HasHole(key) {
          TextCount(key, [[v]]);
        } else {
          EqualityCount(key, v);
        }
    }
  }

  lemma {:induction false} RawCount(vs: seq<Value>)
    ensures Loose(Concat(PrimTexts(RawParts(vs)))) == RawLoose(vs)
  {
    if vs != [] {
      RawCount(vs[1..]);
      if vs[0].Text? {
        TextCount(vs[0].s, []);
        LooseAppend(WritePrim(Fragment(vs[0].s, [])), Concat(PrimTexts(RawParts(vs[1..]))));
        assert RawParts(vs)[1..] == RawParts(vs[1..]);
        assert PrimTexts(RawParts(vs))[1..] == PrimTexts(RawParts(vs[1..]));
      }
    }
  }

  lemma RawEntryCount(value: Cond, casts: bool)
    requires FitsEntry(Entry(RAW_KEY, value))
    ensures Loose(WriteConj(EntryConj(RAW_KEY, value, casts))) == EntryLoose(Entry(RAW_KEY, value), casts)
  {
    match value {
      case Scalar(Text(s)) => TextCount(s, []);
      case RawPair(sql, params) =>
        TextCount(sql, Singletons(params));
        SingletonsGood(params);
      case List(vs) =>
        RawCount(vs);
        PrimTextsAreConj(RawParts(vs));
        LooseSeparated(PrimTexts(RawParts(vs)), AndTok);
      case _ =>
    }
  }

  lemma InParentheses(inner: seq<SqlText.Token>)
    ensures Loose([Open] + inner + [Close]) == Loose(inner)
  {
    LooseAround([Open], inner, [Close]);
    FixedIsClean(Open);
    FixedIsClean(Close);
  }

  lemma {:induction false} EntryCount(e: Entry, casts: bool)
    requires FitsEntry(e)
    ensures Loose(WriteConj(EntryConj(e.key, e.value, casts))) == EntryLoose(e, casts)
    decreases e, 2
  {
    var key, value := e.key, e.value;
    if key == OR_KEY && value.Groups? {
      GroupsCount(value.groups, casts);
      GroupsText(value.groups, casts);
      var parts := GroupTexts(value.groups, casts);
      LooseSeparated(parts, OrTok);
      InParentheses(Separated(parts, OrTok));
    } else if key == RAW_KEY {
      RawEntryCount(value, casts);
    } else if value.TokenValue? {
      TokenCount(key, value.t, casts);
      OneText(TokenPrim(key, value.t, casts));
    } else if value.Inner? {
      TreeCount(value.c, casts);
      InParentheses(ConditionsText(value.c, casts));
    } else if !IsReserved(key) {
      ValueCount(key, value, casts);
    }
  }

  lemma {:induction false} EntriesCount(entries: seq<Entry>, casts: bool)
    requires forall e <- entries :: FitsEntry(e)
    ensures Loose(Concat(Texts(EntriesParts(entries, casts)))) == EntriesLoose(entries, casts)
    decreases entries, 3
  {
    if entries != [] {
      assert entries[0] in entries;
      EntryCount(entries[0], casts);
      EntriesCount(entries[1..], casts);
      var first, rest := EntryConj(entries[0].key, entries[0].value, casts), EntriesParts(entries[1..], casts);
      if first != [] {
        assert EntriesParts(entries, casts)[1..] == rest;
        assert Texts(EntriesParts(entries, casts))[1..] == Texts(rest);
        LooseAppend(WriteConj(first), Concat(Texts(rest)));
      }
    }
  }

  lemma {:induction false} GroupsCount(groups: seq<Record>, casts: bool)
    requires forall g <- groups :: forall f <- g.entries :: FitsEntry(f)
    ensures Loose(Concat(GroupTexts(groups, casts))) == GroupsLoose(groups, casts)
    decreases groups, 3
  {
    if groups != [] {
      var text, rest := GroupText(groups[0], casts), GroupTexts(groups[1..], casts);
      assert groups[0] in groups;
      GroupsCount(groups[1..], casts);
      EntriesCount(groups[0].entries, casts);
      GroupCount(groups[0], casts);
      if text != [] {
        assert GroupTexts(groups, casts) == [text] + rest;
        LooseAppend(text, Concat(rest));
      }
    }
  }

  lemma GroupCount(group: Record, casts: bool)
    requires Loose(Concat(Texts(EntriesParts(group.entries, casts)))) == EntriesLoose(group.entries, casts)
    ensures Loose(GroupText(group, casts)) == EntriesLoose(group.entries, casts)
  {
    var parts := EntriesParts(group.entries, casts);
    PartsNotEmpty(group.entries, casts);
    TextsByAnd(parts);
    LooseSeparated(Texts(parts), AndTok);
    InParentheses(WriteConj(Concat(parts)));
  }

  lemma {:induction false} NestedCount(nested: seq<Nested>, casts: bool)
    requires forall n <- nested :: FitsConditions(n.conditions)
    ensures Loose(Concat(Texts(NestedParts(nested, casts)))) == NestedLoose(nested, casts)
    decreases nested, 3
  {
    if nested != [] {
      assert nested[0] in nested;
      NestedOneCount(nested[0], casts);
      NestedCount(nested[1..], casts);
      var first, rest := NestedConj(nested[0], casts), NestedParts(nested[1..], casts);
      if first != [] {
        assert NestedParts(nested, casts)[1..] == rest;
        assert Texts(NestedParts(nested, casts))[1..] == Texts(rest);
        LooseAppend(WriteConj(first), Concat(Texts(rest)));
      }
    }
  }

  lemma {:induction false} NestedOneCount(n: Nested, casts: bool)
    requires FitsConditions(n.conditions)
    ensures Loose(WriteConj(NestedConj(n, casts))) == NestedOneLoose(n, casts)
    decreases n, 2
  {
    TreeCount(n.conditions, casts);
    InParentheses(ConditionsText(n.conditions, casts));
  }

  lemma {:induction false} TreeCount(c: Conditions, casts: bool)
    requires FitsConditions(c)
    ensures Loose(ConditionsText(c, casts)) == ConditionsLoose(c, casts)
    decreases c, 4
  {
    EntriesCount(c.entries, casts);
    NestedCount(c.nested, casts);
    PartsGiveText(c, casts);
    var entries, nested := Texts(EntriesParts(c.entries, casts)), Texts(NestedParts(c.nested, casts));
    ConcatAppend(entries, nested);
    LooseAppend(Concat(entries), Concat(nested));
    LooseSeparated(entries + nested, AndTok);
    LooseSeparated(entries + nested, OrTok);
  }

  /** The text of any tree has exactly so many placeholders more than parameters. */
  lemma UnboundPlaceholders(c: Conditions, casts: bool)
    requires FitsConditions(c)
    ensures Holes(SpellAll(ConditionsText(c, casts))) == |HolesOf(ConditionsText(c, casts))| + ConditionsLoose(c, casts)
  {
    TreeCount(c, casts);
    SpelledHoles(ConditionsText(c, casts));
  }

  // ---------------------------------------------------------------------------------------------
  // Condition lists
  // ---------------------------------------------------------------------------------------------

  /** What an element of a list leaves unbound. */
  function ElementLoose(e: Element): nat
    decreases e, 0
  {
    match e
    case Either(groups) => AlternativesLoose(groups)
    case Sql(text, params) => if |params| == 1 && (params[0].Null? || params[0].Flag?) then 1 else 0
    case OnText(text, value) => if value.Some? && (value.value.Nul? || value.value.Boolean?) then Holes(text) else 0
    case _ => 0
  }

  function AlternativesLoose(groups: seq<Group>): nat
    decreases groups, 0
  {
    if groups == [] then 0 else GroupLoose(groups[0]) + AlternativesLoose(groups[1..])
  }

  function GroupLoose(group: Group): nat
    decreases group, 0
  {
    ListLoose(group.elements)
  }

  /** How many fragments of the list, at any depth, have a null or a boolean where a parameter should be bound. */
  function ListLoose(elements: seq<Element>): nat
    decreases elements, 0
  {
    if elements == [] then 0 else ListLoose(elements[..|elements| - 1]) + ElementLoose(elements[|elements| - 1])
  }

  /** An element whose other texts have no placeholder: its columns, types and wrapped values; and a text with placeholders
      has a value that fits. */
  predicate IsPlain(e: Element, casts: bool)
    decreases e, 0
  {
    match e
    case Either(groups) => ArePlainGroups(groups, casts)
    case OnText(text, value) => value.Some? ==> IsData(value.value) && FitsEntry(Entry(text, value.value))
    case OnColumn(_, sqlCast, value) => value.Some? ==> IsData(value.value) && (sqlCast.Some? ==> Holes(sqlCast.value) == 0)
    case OnColumns(columns, tuples) => AreNames(columns)
    case _ => true
  }

  predicate ArePlainGroups(groups: seq<Group>, casts: bool)
    decreases groups, 0
  {
    groups == [] || (IsPlainGroup(groups[0], casts) && ArePlainGroups(groups[1..], casts))
  }

  /** No element of a group is lost: its keys are distinct. */
  predicate IsPlainGroup(group: Group, casts: bool)
    decreases group, 0
  {
    ArePlain(group.elements, casts) && Distinct(Keys(Kept(group.elements)))
  }

  predicate ArePlain(elements: seq<Element>, casts: bool)
    decreases elements, 0
  {
    elements == [] || (ArePlain(elements[..|elements| - 1], casts) && IsPlain(elements[|elements| - 1], casts))
  }

  function EntryOptLoose(e: Option<Entry>, casts: bool): nat {
    match e case None => 0 case Some(entry) => EntryLoose(entry, casts)
  }

  lemma {:induction false} EntriesLooseSnoc(entries: seq<Entry>, e: Entry, casts: bool)
    ensures EntriesLoose(entries + [e], casts) == EntriesLoose(entries, casts) + EntryLoose(e, casts)
  {
    if entries == [] {
      assert entries + [e] == [e] && [e][1..] == [];
    } else {
      assert (entries + [e])[1..] == entries[1..] + [e];
      EntriesLooseSnoc(entries[1..], e, casts);
    }
  }

  /** A comparison with a cast leaves nothing unbound. */
  lemma CastIsClean(v: Value, sqlType: string, casts: bool)
    requires Holes(sqlType) == 0
    ensures TokenLoose(Cast(v, sqlType, "="), casts) == 0
  {
    EqualsCount("", Bound(v, CastOf(sqlType, casts)));
    LooseOne(Hole(v));
    CastToIsClean(sqlType);
    LooseAppend([Hole(v)], [CastTo(sqlType)]);
    assert [Hole(v)] + [CastTo(sqlType)] == [Hole(v), CastTo(sqlType)];
  }

  lemma CastToIsClean(sqlType: string)
    requires Holes(sqlType) == 0
    ensures Loose([CastTo(sqlType)]) == 0
  {
    LooseOne(CastTo(sqlType));
    HolesOfJoined("::", sqlType);
    NoneWhenFree("::");
  }

  lemma {:induction false} CastBoundsAreClean(vs: seq<Value>, cast: Option<string>)
    requires cast.Some? ==> Holes(cast.value) == 0
    ensures Loose(WriteOperands(Bounds(vs, cast))) == 0
  {
    if vs != [] {
      CastBoundsAreClean(vs[1..], cast);
      BoundsGood(vs, cast);
      BoundsGood(vs[1..], cast);
      assert Bounds(vs, cast)[1..] == Bounds(vs[1..], cast);
      OperandIsClean(vs[0], cast);
      FixedIsClean(Comma);
      LooseAround(WriteOperand(Bound(vs[0], cast)), [Comma], WriteOperands(Bounds(vs[1..], cast)));
    }
  }

  lemma OperandIsClean(v: Value, cast: Option<string>)
    requires cast.Some? ==> Holes(cast.value) == 0
    ensures Loose(WriteOperand(Bound(v, cast))) == 0
  {
    LooseOne(Hole(v));
    if cast.Some? {
      CastToIsClean(cast.value);
      LooseAppend([Hole(v)], [CastTo(cast.value)]);
      assert [Hole(v)] + [CastTo(cast.value)] == [Hole(v), CastTo(cast.value)];
    }
  }

  lemma NeverIsClean()
    ensures Loose(WritePrim(Never)) == 0
  {
    FixedIsClean(NeverTok);
  }

  lemma CastListIsClean(vs: seq<Value>, sqlType: string, casts: bool)
    requires Holes(sqlType) == 0
    ensures TokenLoose(CastArray(vs, sqlType), casts) == 0
  {
    var cast := CastOf(sqlType, casts);
    var p := TokenPrim("", CastArray(vs, sqlType), casts);
    if vs == [] {
      assert p == Never;
      NeverIsClean();
    } else {
      assert p == InList("", Bounds(vs, cast));
      CastItemsAreClean("", vs, cast);
    }
  }

  lemma CastItemsAreClean(key: string, vs: seq<Value>, cast: Option<string>)
    requires cast.Some? ==> Holes(cast.value) == 0
    ensures Loose(WritePrim(InList(key, Bounds(vs, cast)))) == Holes(key)
  {
    ItemsCount(key, Bounds(vs, cast));
    CastBoundsAreClean(vs, cast);
  }

  lemma {:induction false} NamesAreClean(names: seq<string>)
    requires forall i :: 0 <= i < |names| ==> IsName(names[i])
    ensures Loose(WriteNames(names)) == 0
  {
    if names != [] {
      NamesAreClean(names[1..]);
      LooseOne(Word(names[0]));
      FixedIsClean(Comma);
      LooseAround([Word(names[0])], [Comma], WriteNames(names[1..]));
      assert [Word(names[0])] + [Comma] == [Word(names[0]), Comma];
    }
  }

  lemma {:induction false} TuplesAreClean(tuples: seq<seq<Value>>)
    ensures Loose(WriteTuples(tuples)) == 0
  {
    if tuples != [] {
      TuplesAreClean(tuples[1..]);
      HoleListIsClean(tuples[0]);
      InParentheses(HoleList(tuples[0]));
      FixedIsClean(Comma);
      LooseAround([Open] + HoleList(tuples[0]) + [Close], [Comma], WriteTuples(tuples[1..]));
      assert [Open] + HoleList(tuples[0]) + [Close] + [Comma] == [Open] + HoleList(tuples[0]) + [Close, Comma];
    }
  }

  lemma BothBracketed<T>(open: T, left: seq<T>, sep: T, right: seq<T>, close: T)
    ensures [open] + left + [close, sep, open] + right + [close] == ([open] + left + [close]) + [sep] + ([open] + right + [close])
  {
    assert [close, sep, open] == [close] + [sep] + [open];
  }

  lemma TuplesCount(columns: seq<string>, tuples: seq<seq<Value>>)
    ensures Loose(WritePrim(InTuples(columns, tuples))) == Loose(WriteNames(columns)) + Loose(WriteTuples(tuples))
  {
    var names, rows := WriteNames(columns), WriteTuples(tuples);
    InParentheses(names);
    MembershipCount([Open] + names + [Close], rows);
    BothBracketed(Open, names, InTok(false), rows, Close);
  }

  lemma TupleInIsClean(columns: seq<string>, tuples: seq<seq<Value>>, casts: bool)
    requires AreNames(columns)
    ensures TokenLoose(TupleIn(columns, tuples), casts) == 0
  {
    var p := TokenPrim("", TupleIn(columns, tuples), casts);
    if tuples == [] {
      assert p == Never;
      NeverIsClean();
    } else {
      assert p == InTuples(columns, tuples);
      TuplesOfNames(columns, tuples);
    }
  }

  lemma TuplesOfNames(columns: seq<string>, tuples: seq<seq<Value>>)
    requires AreNames(columns)
    ensures Loose(WritePrim(InTuples(columns, tuples))) == 0
  {
    NamesAreClean(columns);
    TuplesAreClean(tuples);
    TuplesCount(columns, tuples);
  }

  lemma ColumnCount(column: string, sqlCast: Option<string>, value: Cond, casts: bool)
    requires IsElement(OnColumn(column, sqlCast, Some(value))) && IsPlain(OnColumn(column, sqlCast, Some(value)), casts)
    ensures EntryLoose(Entry(column, WithCast(sqlCast, value)), casts) == 0
    ensures FitsEntry(Entry(column, WithCast(sqlCast, value)))
  {
    assert column != OR_KEY && column != RAW_KEY;
    HolesAreThere(column);
    if sqlCast.Some? {
      match value {
        case Scalar(v) => CastIsClean(v, sqlCast.value, casts);
        case Nul => CastIsClean(Null, sqlCast.value, casts);
        case Boolean(b) => CastIsClean(Flag(b), sqlCast.value, casts);
        case List(vs) => CastListIsClean(vs, sqlCast.value, casts);
      }
    }
  }

  lemma FragmentCount(text: string, params: seq<Value>, casts: bool)
    requires !IsReserved(text) && Holes(text) == |params|
    ensures var e := EntryOf(Sql(text, params)).value; EntryLoose(e, casts) == ElementLoose(Sql(text, params)) && FitsEntry(e)
  {
    assert text != OR_KEY && text != RAW_KEY;
    HolesAreThere(text);
  }

  lemma {:induction false} ElementCount(e: Element, casts: bool)
    requires IsElement(e) && IsPlain(e, casts)
    ensures EntryOptLoose(EntryOf(e), casts) == ElementLoose(e)
    ensures EntryOf(e).Some? ==> FitsEntry(EntryOf(e).value)
    decreases e, 1
  {
    match e {
      case Either(groups) => AlternativesCount(groups, casts);
      case Sql(text, params) => FragmentCount(text, params, casts);
      case NoValue(text) =>
        HolesAreThere(text);
        FragmentCount(text, [], casts);
      case OnText(text, value) => assert text != OR_KEY && text != RAW_KEY;
      case OnColumn(column, sqlCast, value) =>
        if value.Some? {
          ColumnCount(column, sqlCast, value.value, casts);
        }
      case OnColumns(columns, tuples) => TupleInIsClean(columns, tuples, casts);
      case _ =>
    }
  }

  lemma {:induction false} AlternativesCount(groups: seq<Group>, casts: bool)
    requires AreGroups(groups) && ArePlainGroups(groups, casts)
    ensures GroupsLoose(Records(groups), casts) == AlternativesLoose(groups)
    ensures forall g <- Records(groups) :: forall f <- g.entries :: FitsEntry(f)
    decreases groups, 1
  {
    if groups != [] {
      GroupRecordCount(groups[0], casts);
      AlternativesCount(groups[1..], casts);
      assert Records(groups) == [RecordOf(groups[0])] + Records(groups[1..]);
    }
  }

  lemma {:induction false} GroupRecordCount(group: Group, casts: bool)
    requires IsGroup(group) && IsPlainGroup(group, casts)
    ensures EntriesLoose(RecordOf(group).entries, casts) == GroupLoose(group)
    ensures forall f <- RecordOf(group).entries :: FitsEntry(f)
    decreases group, 1
  {
    RecordKeepsAllIffDistinct(group.elements);
    KeptCount(group.elements, casts);
  }

  lemma {:induction false} KeptCount(elements: seq<Element>, casts: bool)
    requires AreElements(elements) && ArePlain(elements, casts)
    ensures EntriesLoose(Kept(elements), casts) == ListLoose(elements)
    ensures forall f <- Kept(elements) :: FitsEntry(f)
    decreases elements, 1
  {
    if elements != [] {
      var init, e := elements[..|elements| - 1], elements[|elements| - 1];
      KeptCount(init, casts);
      ElementCount(e, casts);
      if EntryOf(e).Some? {
        EntriesLooseSnoc(Kept(init), EntryOf(e).value, casts);
      }
    }
  }

  function ListText(elements: seq<Element>, casts: bool): seq<SqlText.Token> {
    ConditionsText(Conditions(ToRecord(elements), And, []), casts)
  }

  /** The statement of a condition list has exactly one placeholder too many for each fragment, at any depth, whose only
      parameter is null or a boolean, and for each placeholder of a text that is paired with one; so it has one parameter for
      each placeholder exactly when there is none. */
  lemma OneParameterEachIff(elements: seq<Element>, casts: bool)
    requires AreElements(elements) && ArePlain(elements, casts) && Distinct(Keys(Kept(elements)))
    ensures Holes(SpellAll(ListText(elements, casts))) == |HolesOf(ListText(elements, casts))| + ListLoose(elements)
    ensures Holes(SpellAll(ListText(elements, casts))) == |HolesOf(ListText(elements, casts))| <==> BindsAll(elements)
  {
    RecordKeepsAllIffDistinct(elements);
    KeptCount(elements, casts);
    UnboundPlaceholders(Conditions(ToRecord(elements), And, []), casts);
    NoneLooseIff(elements);
  }

  /** No fragment has null or a boolean for its only parameter, and no text with a placeholder is paired with one. */
  predicate Binds(e: Element)
    decreases e, 0
  {
    match e
    case Either(groups) => forall i :: 0 <= i < |groups| ==> BindsGroup(groups[i])
    case Sql(text, params) => !(|params| == 1 && (params[0].Null? || params[0].Flag?))
    case OnText(text, value) => value.Some? && HasHole(text) ==> !value.value.Nul? && !value.value.Boolean?
    case _ => true
  }

  predicate BindsGroup(group: Group)
    decreases group, 0
  {
    BindsAll(group.elements)
  }

  predicate BindsAll(elements: seq<Element>)
    decreases elements, 0
  {
    forall i :: 0 <= i < |elements| ==> Binds(elements[i])
  }

  lemma {:induction false} NoneLooseIff(elements: seq<Element>)
    ensures ListLoose(elements) == 0 <==> BindsAll(elements)
    decreases elements, 2
  {
    if elements != [] {
      var init, e := elements[..|elements| - 1], elements[|elements| - 1];
      NoneLooseIff(init);
      ElementLooseIff(e);
      assert forall i :: 0 <= i < |init| ==> init[i] == elements[i];
    }
  }

  lemma {:induction false} ElementLooseIff(e: Element)
    ensures ElementLoose(e) == 0 <==> Binds(e)
    decreases e, 1
  {
    match e {
      case Either(groups) => AlternativesLooseIff(groups);
      case OnText(text, _) => HolesAreThere(text);
      case _ =>
    }
  }

  lemma {:induction false} AlternativesLooseIff(groups: seq<Group>)
    ensures AlternativesLoose(groups) == 0 <==> forall i :: 0 <= i < |groups| ==> BindsGroup(groups[i])
    decreases groups, 1
  {
    if groups != [] {
      GroupLooseIff(groups[0]);
      AlternativesLooseIff(groups[1..]);
      assert forall i :: 0 < i < |groups| ==> groups[i] == groups[1..][i - 1];
    }
  }

  lemma {:induction false} GroupLooseIff(group: Group)
    ensures GroupLoose(group) == 0 <==> BindsGroup(group)
    decreases group, 1
  {
    NoneLooseIff(group.elements);
  }

  function FragmentText(text: string, params: seq<Value>, casts: bool): seq<SqlText.Token> {
    var e := EntryOf(Sql(text, params)).value;
    WriteConj(EntryConj(e.key, e.value, casts))
  }

  /** The condition that a fragment becomes. */
  function FragmentPrim(text: string, params: seq<Value>): Prim {
    if params == [] then if HasSpace(text) then Fragment(text, []) else Compare(text, "=", Expr("TRUE", []))
    else if |params| > 1 then Fragment(text, Singletons(params))
    else
      match params[0]
      case Null => IsNull(text)
      case Flag(b) => if b && HasSpace(text) then Fragment(text, []) else Compare(text, "=", Expr(BoolText(b), []))
      case Array(vs) => CustomPrim(text, vs)
      case _ => Fragment(text, [[params[0]]])
  }

  lemma FragmentIs(text: string, params: seq<Value>, casts: bool)
    requires IsElement(Sql(text, params))
    ensures FragmentText(text, params, casts) == WritePrim(FragmentPrim(text, params))
  {
    assert text != OR_KEY && text != RAW_KEY;
    HolesAreThere(text);
    OneText(FragmentPrim(text, params));
  }

  /** A fragment reaches the statement as it was written, with its own parameters for its own placeholders, exactly when its
      only parameter is not null, a boolean or an array; and, without parameters, when it has a space. */
  lemma FragmentKeptIff(text: string, params: seq<Value>, casts: bool)
    requires IsElement(Sql(text, params))
    ensures
      var ts := FragmentText(text, params, casts);
      SpellAll(ts) == text && HolesOf(ts) == params <==> Translates(Sql(text, params))
  {
    FragmentIs(text, params, casts);
    if params == [] {
      FreeFragment(text);
    } else if |params| == 1 {
      assert params == [params[0]];
      OneParameter(text, params[0]);
    } else {
      SeveralParameters(text, params);
    }
  }

  lemma SeveralParameters(text: string, params: seq<Value>)
    requires Holes(text) == |params| > 1
    ensures
      var ts := WritePrim(FragmentPrim(text, params));
      SpellAll(ts) == text && HolesOf(ts) == params
  {
    SingletonsGood(params);
    TextHoles(text, Singletons(params));
    FragmentIsSpelled(text, params);
  }

  lemma FreeFragment(text: string)
    requires Holes(text) == 0
    ensures
      var ts := WritePrim(FragmentPrim(text, []));
      (SpellAll(ts) == text <==> HasSpace(text)) && HolesOf(ts) == []
  {
    if HasSpace(text) {
      SpellOne(Word(text));
      NoHolesOf([Word(text)]);
    } else {
      IsTrueText(text, "TRUE");
    }
  }

  lemma IsTrueText(text: string, literal: string)
    ensures
      var ts := WritePrim(Compare(text, "=", Expr(literal, [])));
      |SpellAll(ts)| > |text| && HolesOf(ts) == []
  {
    var after := [Operator("="), Word(literal)];
    var ts := [Word(text)] + after;
    assert WritePrim(Compare(text, "=", Expr(literal, []))) == ts;
    NoHolesOf(ts);
    SpellAppend([Word(text)], after);
    SpellOne(Word(text));
    assert |SpellAll(after)| >= |Spell(Operator("="))| > 0;
  }

  lemma OneParameter(text: string, v: Value)
    requires Holes(text) == 1
    ensures
      var ts := WritePrim(FragmentPrim(text, [v]));
      SpellAll(ts) == text && HolesOf(ts) == [v] <==> IsAtom(v)
    ensures v.Null? || v.Flag? ==> HolesOf(WritePrim(FragmentPrim(text, [v]))) == []
    ensures IsAtom(v) ==> HolesOf(WritePrim(FragmentPrim(text, [v]))) == [v]
  {
    match v {
      case Null => NoHolesOf([Word(text), IsNullTok]);
      case Flag(b) =>
        if b && HasSpace(text) {
          NoHolesOf([Word(text)]);
        } else {
          IsTrueText(text, BoolText(b));
        }
      case Array(vs) =>
        ListHoles(text, vs);
        NotItsOwnArray(vs);
      case _ =>
        assert Singletons([v]) == [[v]];
        ConcatOne([v]);
        TextHoles(text, [[v]]);
        FragmentIsSpelled(text, [v]);
    }
  }

  lemma ListHoles(key: string, vs: seq<Value>)
    requires Holes(key) == 1
    ensures HolesOf(WritePrim(CustomPrim(key, vs))) == vs
  {
    if vs == [] {
      NoHolesOf([Word(ReplaceFirst(key, "NULL"))]);
    } else {
      ConcatOne(vs);
      TextHoles(key, [vs]);
    }
  }

  /** The parameters of what follows move up: after a fragment with a boolean, the next fragment's parameter is the first in
      the list, where the boolean's placeholder is the first in the text. */
  lemma BooleanShiftsParameters(text: string, b: bool, next: string, v: Atom, casts: bool)
    requires IsElement(Sql(text, [Flag(b)])) && IsElement(Sql(next, [v])) && text != next
    ensures
      var ts := ListText([Sql(text, [Flag(b)]), Sql(next, [v])], casts);
      Holes(SpellAll(ts)) == 2 && HolesOf(ts) == [v]
  {
    var e, f := Sql(text, [Flag(b)]), Sql(next, [v]);
    TwoElements(e, f, Entry(text, Boolean(b)), Entry(next, Scalar(v)), casts);
    OneParameterEachIff([e, f], casts);
    FragmentIs(text, [Flag(b)], casts);
    FragmentIs(next, [v], casts);
    OneParameter(text, Flag(b));
    OneParameter(next, v);
    PrimTextNotEmpty(FragmentPrim(text, [Flag(b)]));
    PrimTextNotEmpty(FragmentPrim(next, [v]));
    TwoEntries(Entry(text, Boolean(b)), Entry(next, Scalar(v)), casts);
  }

  lemma TwoElements(e: Element, f: Element, first: Entry, second: Entry, casts: bool)
    requires EntryOf(e) == Some(first) && EntryOf(f) == Some(second) && first.key != second.key
    requires IsElement(e) && IsElement(f) && IsPlain(e, casts) && IsPlain(f, casts)
    ensures AreElements([e, f]) && ArePlain([e, f], casts) && Distinct(Keys(Kept([e, f])))
    ensures ToRecord([e, f]) == [first, second] && ListLoose([e, f]) == ElementLoose(e) + ElementLoose(f)
  {
    var both := [e, f];
    assert both[..1] == [e] && [e][..0] == [];
    assert Kept([e]) == [first] && Kept(both) == [first, second];
    KeysAt([first, second]);
    assert ListLoose([e]) == ElementLoose(e);
    assert AreElements([e]) && ArePlain([e], casts);
    RecordKeepsAllIffDistinct(both);
  }

  lemma TwoEntries(first: Entry, second: Entry, casts: bool)
    requires EntryConj(first.key, first.value, casts) != [] && EntryConj(second.key, second.value, casts) != []
    ensures HolesOf(ConditionsText(Conditions([first, second], And, []), casts)) ==
      HolesOf(WriteConj(EntryConj(first.key, first.value, casts))) + HolesOf(WriteConj(EntryConj(second.key, second.value, casts)))
  {
    var c := Conditions([first, second], And, []);
    var a, b := EntryConj(first.key, first.value, casts), EntryConj(second.key, second.value, casts);
    PartsGiveText(c, casts);
    OnePart(second, casts);
    EntriesPartsAppend([first], [second], casts);
    OnePart(first, casts);
    assert [first] + [second] == [first, second] && [a] + [b] == [a, b];
    assert NestedParts([], casts) == [];
    TwoTexts(a, b);
  }

  lemma OnePart(e: Entry, casts: bool)
    requires EntryConj(e.key, e.value, casts) != []
    ensures EntriesParts([e], casts) == [EntryConj(e.key, e.value, casts)]
  {
    assert [e][1..] == [];
  }

  lemma TwoTexts(a: seq<Prim>, b: seq<Prim>)
    ensures HolesOf(Separated(Texts([a, b]) + Texts([]), AndTok)) == HolesOf(WriteConj(a)) + HolesOf(WriteConj(b))
  {
    var texts := [WriteConj(a), WriteConj(b)];
    assert [a, b][1..] == [b] && [b][1..] == [];
    assert Texts([b]) == [WriteConj(b)];
    assert Texts([a, b]) + Texts([]) == texts;
    SeparatedHoles(texts, AndTok);
    assert texts[1..] == [WriteConj(b)];
    ConcatOne(WriteConj(b));
    HolesAppend(WriteConj(a), WriteConj(b));
  }
}
