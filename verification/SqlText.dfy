/** Conditions as SQL text with `?` holes.

    - Tokens: the text is a sequence of words, operators and holes; a hole carries the value it is meant for.
    - Writing: conditions, conjunctions and alternatives are written as tokens.
    - Reading: a reader that knows only SQL's precedence takes the tokens apart again and binds a separate list of
      parameters to the holes in order.
    - Truth: three-valued evaluation on a row of a database. */
module SqlText {
  import opened Sequences

  datatype Value = Null | Flag(b: bool) | Int(n: int) | Text(s: string) | Array(vs: seq<Value>)

  // ---------------------------------------------------------------------------------------------
  // Tokens
  // ---------------------------------------------------------------------------------------------

  /** `Word`: text without holes (a column, a literal, a whole fragment).  `Piece(t, i)`: the stretch before the
      i-th hole of a text with holes.  `Hole(meant)`: a `?`; the value that it was written for is not part of
      the text, and the reader does not look at it. */
  datatype Token =
    | Word(text: string)
    | Piece(text: string, i: nat)
    | Hole(meant: Value)
    | CastTo(sqlType: string)
    | Operator(op: string)
    | AndTok | OrTok | Open | Close | Comma
    | IsNullTok | IsNotNullTok | InTok(negated: bool) | NeverTok
    | ExistsTok(negated: bool) | SelectOne | Select | From(table: string) | Where

  /** The holes of a text, by what each was written for. */
  function HolesOf(ts: seq<Token>): seq<Value> {
    if ts == [] then []
    else if ts[0].Hole? then [ts[0].meant] + HolesOf(ts[1..])
    else HolesOf(ts[1..])
  }

  lemma {:induction false} HolesAppend(a: seq<Token>, b: seq<Token>)
    ensures HolesOf(a + b) == HolesOf(a) + HolesOf(b)
  {
    if a == [] {
      assert a + b == b;
    } else {
      assert (a + b)[1..] == a[1..] + b;
      HolesAppend(a[1..], b);
    }
  }

  function Separated(parts: seq<seq<Token>>, sep: Token): seq<Token> {
    if parts == [] then []
    else if |parts| == 1 then parts[0]
    else parts[0] + [sep] + Separated(parts[1..], sep)
  }

  // ---------------------------------------------------------------------------------------------
  // What text can say
  // ---------------------------------------------------------------------------------------------

  /** A bound value, perhaps cast, or an expression whose holes each hold one or more values. */
  datatype Operand = Bound(v: Value, cast: Option<string>) | Expr(text: string, args: seq<seq<Value>>)

  /** A condition that AND and OR cannot split; `Group` is a parenthesised alternative of conjunctions. */
  datatype Prim =
    | Group(alternatives: seq<Conj>)
    | Compare(left: string, op: string, right: Operand)
    | IsNull(left: string)
    | IsNotNull(left: string)
    | InList(left: string, items: seq<Operand>)
    | InTuples(columns: seq<string>, tuples: seq<seq<Value>>)
    | Never
    | Fragment(text: string, args: seq<seq<Value>>)
    | InSelect(columns: seq<string>, negated: bool, selected: seq<string>, table: string, where: seq<Prim>)
    | Exists(negated: bool, table: string, where: seq<Prim>)

  datatype Conj = Conj(prims: seq<Prim>)

  /** Placeholders in a text. */
  function Holes(text: string): nat {
    if text == "" then 0 else (if text[0] == '?' then 1 else 0) + Holes(text[1..])
  }

  predicate IsName(text: string) {
    Holes(text) == 0
  }

  predicate AreNames(texts: seq<string>) {
    texts != [] && forall i :: 0 <= i < |texts| ==> IsName(texts[i])
  }

  predicate GoodArgs(text: string, args: seq<seq<Value>>) {
    |args| == Holes(text) && forall i :: 0 <= i < |args| ==> args[i] != []
  }

  predicate GoodOperand(o: Operand) {
    o.Expr? ==> GoodArgs(o.text, o.args)
  }

  /** Names hold no placeholder, a text is given as many lists of values as it has placeholders, and no list is
      empty. */
  predicate GoodPrim(p: Prim) {
    match p
    case Group(ds) => ds != [] && forall c <- ds :: c.prims != [] && forall q <- c.prims :: GoodPrim(q)
    case Compare(l, _, r) => IsName(l) && GoodOperand(r)
    case IsNull(l) => IsName(l)
    case IsNotNull(l) => IsName(l)
    case InList(l, items) => IsName(l) && items != [] && forall o <- items :: GoodOperand(o)
    case InTuples(cs, ts) => AreNames(cs) && ts != [] && forall i :: 0 <= i < |ts| ==> ts[i] != []
    case Never => true
    case Fragment(text, args) => GoodArgs(text, args)
    case InSelect(cs, _, ss, table, where) => AreNames(cs) && AreNames(ss) && IsName(table) && forall q <- where :: GoodPrim(q)
    case Exists(_, table, where) => IsName(table) && forall q <- where :: GoodPrim(q)
  }

  predicate GoodConj(c: seq<Prim>) {
    c != [] && forall p <- c :: GoodPrim(p)
  }

  predicate GoodDisj(d: seq<Conj>) {
    d != [] && forall c <- d :: GoodConj(c.prims)
  }

  // ---------------------------------------------------------------------------------------------
  // Writing
  // ---------------------------------------------------------------------------------------------

  function HoleList(vs: seq<Value>): seq<Token> {
    if vs == [] then []
    else if |vs| == 1 then [Hole(vs[0])]
    else [Hole(vs[0]), Comma] + HoleList(vs[1..])
  }

  function Pieces(text: string, args: seq<seq<Value>>, i: nat): seq<Token>
    requires i <= |args|
    decreases |args| - i
  {
    if i == |args| then [Piece(text, i)] else [Piece(text, i)] + HoleList(args[i]) + Pieces(text, args, i + 1)
  }

  function WriteText(text: string, args: seq<seq<Value>>): seq<Token> {
    if args == [] then [Word(text)] else Pieces(text, args, 0)
  }

  function WriteOperand(o: Operand): seq<Token> {
    match o
    case Bound(v, None) => [Hole(v)]
    case Bound(v, Some(t)) => [Hole(v), CastTo(t)]
    case Expr(text, args) => WriteText(text, args)
  }

  function WriteOperands(os: seq<Operand>): seq<Token> {
    if os == [] then []
    else if |os| == 1 then WriteOperand(os[0])
    else WriteOperand(os[0]) + [Comma] + WriteOperands(os[1..])
  }

  function WriteNames(names: seq<string>): seq<Token> {
    if names == [] then []
    else if |names| == 1 then [Word(names[0])]
    else [Word(names[0]), Comma] + WriteNames(names[1..])
  }

  function WriteTuples(ts: seq<seq<Value>>): seq<Token> {
    if ts == [] then []
    else if |ts| == 1 then [Open] + HoleList(ts[0]) + [Close]
    else [Open] + HoleList(ts[0]) + [Close, Comma] + WriteTuples(ts[1..])
  }

  function WriteWhere(where: seq<Prim>): seq<Token>
    decreases where, 1
  {
    if where == [] then [] else [Where] + WriteConj(where)
  }

  function WritePrim(p: Prim): seq<Token>
    decreases p, 0
  {
    match p
    case Group(ds) => [Open] + WriteDisj(ds) + [Close]
    case Compare(l, op, r) => [Word(l), Operator(op)] + WriteOperand(r)
    case IsNull(l) => [Word(l), IsNullTok]
    case IsNotNull(l) => [Word(l), IsNotNullTok]
    case InList(l, items) => [Word(l), InTok(false), Open] + WriteOperands(items) + [Close]
    case InTuples(cs, ts) => [Open] + WriteNames(cs) + [Close, InTok(false), Open] + WriteTuples(ts) + [Close]
    case Never => [NeverTok]
    case Fragment(text, args) => WriteText(text, args)
    case InSelect(cs, negated, ss, table, where) =>
      (if |cs| == 1 then [Word(cs[0])] else [Open] + WriteNames(cs) + [Close])
      + [InTok(negated), Open, Select] + WriteNames(ss) + [From(table)] + WriteWhere(where) + [Close]
    case Exists(negated, table, where) => [ExistsTok(negated), Open, SelectOne, From(table)] + WriteWhere(where) + [Close]
  }

  function WriteConj(c: seq<Prim>): seq<Token>
    decreases c, 0
  {
    if c == [] then []
    else if |c| == 1 then WritePrim(c[0])
    else WritePrim(c[0]) + [AndTok] + WriteConj(c[1..])
  }

  function WriteDisj(d: seq<Conj>): seq<Token>
    decreases d, 0
  {
    if d == [] then []
    else if |d| == 1 then WriteConj(d[0].prims)
    else WriteConj(d[0].prims) + [OrTok] + WriteDisj(d[1..])
  }

  // ---------------------------------------------------------------------------------------------
  // Reading: OR binds weaker than AND, AND weaker than anything else; the k-th hole takes the k-th parameter
  // ---------------------------------------------------------------------------------------------

  /** What was read, and the tokens and parameters that are left. */
  datatype Read<+T> = Failed | Got(got: T, ts: seq<Token>, ps: seq<Value>)

  predicate Starts(ts: seq<Token>, t: Token) {
    ts != [] && ts[0] == t
  }

  function ReadHoles(ts: seq<Token>, ps: seq<Value>): (r: Read<seq<Value>>)
    ensures r.Got? ==> |r.ts| < |ts|
    decreases |ts|
  {
    if ts == [] || !ts[0].Hole? || ps == [] then Failed
    else if !Starts(ts[1..], Comma) then Got([ps[0]], ts[1..], ps[1..])
    else
      var rest := ReadHoles(ts[2..], ps[1..]);
      if rest.Failed? then Failed else Got([ps[0]] + rest.got, rest.ts, rest.ps)
  }

  /** The rest of a text with holes, from its i-th piece on. */
  function ReadPieces(text: string, i: nat, ts: seq<Token>, ps: seq<Value>): (r: Read<seq<seq<Value>>>)
    ensures r.Got? ==> |r.ts| < |ts|
    decreases |ts|
  {
    if !Starts(ts, Piece(text, i)) then Failed
    else if i == Holes(text) then Got([], ts[1..], ps)
    else
      var first := ReadHoles(ts[1..], ps);
      if first.Failed? then Failed
      else
        var rest := ReadPieces(text, i + 1, first.ts, first.ps);
        if rest.Failed? then Failed else Got([first.got] + rest.got, rest.ts, rest.ps)
  }

  function ReadOperand(ts: seq<Token>, ps: seq<Value>): (r: Read<Operand>)
    ensures r.Got? ==> |r.ts| < |ts|
  {
    if ts == [] then Failed
    else match ts[0]
      case Word(text) => Got(Expr(text, []), ts[1..], ps)
      case Piece(text, _) =>
        var args := ReadPieces(text, 0, ts, ps);
        if args.Failed? then Failed else Got(Expr(text, args.got), args.ts, args.ps)
      case Hole(_) =>
        if ps == [] then Failed
        else if |ts| > 1 && ts[1].CastTo? then Got(Bound(ps[0], Some(ts[1].sqlType)), ts[2..], ps[1..])
        else Got(Bound(ps[0], None), ts[1..], ps[1..])
      case _ => Failed
  }

  function ReadOperands(ts: seq<Token>, ps: seq<Value>): (r: Read<seq<Operand>>)
    ensures r.Got? ==> |r.ts| < |ts|
    decreases |ts|
  {
    var first := ReadOperand(ts, ps);
    if first.Failed? then Failed
    else if !Starts(first.ts, Comma) then Got([first.got], first.ts, first.ps)
    else
      var rest := ReadOperands(first.ts[1..], first.ps);
      if rest.Failed? then Failed else Got([first.got] + rest.got, rest.ts, rest.ps)
  }

  function ReadNames(ts: seq<Token>): (r: Read<seq<string>>)
    ensures r.Got? ==> |r.ts| < |ts|
    decreases |ts|
  {
    if ts == [] || !ts[0].Word? then Failed
    else if !Starts(ts[1..], Comma) then Got([ts[0].text], ts[1..], [])
    else
      var rest := ReadNames(ts[2..]);
      if rest.Failed? then Failed else Got([ts[0].text] + rest.got, rest.ts, [])
  }

  function ReadTuples(ts: seq<Token>, ps: seq<Value>): (r: Read<seq<seq<Value>>>)
    ensures r.Got? ==> |r.ts| < |ts|
    decreases |ts|
  {
    if !Starts(ts, Open) then Failed
    else
      var first := ReadHoles(ts[1..], ps);
      if first.Failed? || !Starts(first.ts, Close) then Failed
      else if !Starts(first.ts[1..], Comma) then Got([first.got], first.ts[1..], first.ps)
      else
        var rest := ReadTuples(first.ts[2..], first.ps);
        if rest.Failed? then Failed else Got([first.got] + rest.got, rest.ts, rest.ps)
  }

  /** An opening parenthesis before a list of columns rather than before a condition. */
  predicate OpensColumns(ts: seq<Token>) {
    && |ts| > 2 && ts[0] == Open && ts[1].Word?
    && (ts[2] == Comma || (ts[2] == Close && |ts| > 3 && ts[3].InTok?))
  }

  function ReadWhere(ts: seq<Token>, ps: seq<Value>): (r: Read<seq<Prim>>)
    ensures r.Got? ==> |r.ts| <= |ts|
    decreases |ts|, 1
  {
    if Starts(ts, Where) then ReadConj(ts[1..], ps) else Got([], ts, ps)
  }

  /** What follows `columns IN (`. */
  function ReadMembership(columns: seq<string>, parenthesised: bool, negated: bool, ts: seq<Token>, ps: seq<Value>): (r: Read<Prim>)
    requires columns != []
    ensures r.Got? ==> |r.ts| < |ts|
    decreases |ts|, 2
  {
    if Starts(ts, Select) then
      var selected := ReadNames(ts[1..]);
      if selected.Failed? || selected.ts == [] || !selected.ts[0].From? then Failed
      else
        var where := ReadWhere(selected.ts[1..], ps);
        if where.Failed? || !Starts(where.ts, Close) then Failed
        else Got(InSelect(columns, negated, selected.got, selected.ts[0].table, where.got), where.ts[1..], where.ps)
    else if negated then Failed
    else if parenthesised then
      var tuples := ReadTuples(ts, ps);
      if tuples.Failed? || !Starts(tuples.ts, Close) then Failed
      else Got(InTuples(columns, tuples.got), tuples.ts[1..], tuples.ps)
    else
      var items := ReadOperands(ts, ps);
      if items.Failed? || !Starts(items.ts, Close) then Failed
      else Got(InList(columns[0], items.got), items.ts[1..], items.ps)
  }

  function ReadPrim(ts: seq<Token>, ps: seq<Value>): (r: Read<Prim>)
    ensures r.Got? ==> |r.ts| < |ts|
    decreases |ts|, 3
  {
    if ts == [] then Failed
    else match ts[0]
      case NeverTok => Got(Never, ts[1..], ps)
      case ExistsTok(negated) =>
        if |ts| < 4 || ts[1] != Open || ts[2] != SelectOne || !ts[3].From? then Failed
        else
          var where := ReadWhere(ts[4..], ps);
          if where.Failed? || !Starts(where.ts, Close) then Failed
          else Got(Exists(negated, ts[3].table, where.got), where.ts[1..], where.ps)
      case Piece(text, _) =>
        var args := ReadPieces(text, 0, ts, ps);
        if args.Failed? then Failed else Got(Fragment(text, args.got), args.ts, args.ps)
      case Word(text) =>
        if |ts| == 1 then Got(Fragment(text, []), ts[1..], ps)
        else (match ts[1]
          case IsNullTok => Got(IsNull(text), ts[2..], ps)
          case IsNotNullTok => Got(IsNotNull(text), ts[2..], ps)
          case Operator(op) =>
            var right := ReadOperand(ts[2..], ps);
            if right.Failed? then Failed else Got(Compare(text, op, right.got), right.ts, right.ps)
          case InTok(negated) =>
            if !Starts(ts[2..], Open) then Failed else ReadMembership([text], false, negated, ts[3..], ps)
          case _ => Got(Fragment(text, []), ts[1..], ps))
      case Open =>
        if OpensColumns(ts) then
          var names := ReadNames(ts[1..]);
          if names.Failed? || names.got == [] || |names.ts| < 3 || names.ts[0] != Close || !names.ts[1].InTok? || names.ts[2] != Open then Failed
          else ReadMembership(names.got, true, names.ts[1].negated, names.ts[3..], ps)
        else
          var inner := ReadDisj(ts[1..], ps);
          if inner.Failed? || !Starts(inner.ts, Close) then Failed else Got(Group(inner.got), inner.ts[1..], inner.ps)
      case _ => Failed
  }

  function ReadConj(ts: seq<Token>, ps: seq<Value>): (r: Read<seq<Prim>>)
    ensures r.Got? ==> |r.ts| < |ts|
    decreases |ts|, 4
  {
    var first := ReadPrim(ts, ps);
    if first.Failed? then Failed
    else if !Starts(first.ts, AndTok) then Got([first.got], first.ts, first.ps)
    else
      var rest := ReadConj(first.ts[1..], first.ps);
      if rest.Failed? then Failed else Got([first.got] + rest.got, rest.ts, rest.ps)
  }

  function ReadDisj(ts: seq<Token>, ps: seq<Value>): (r: Read<seq<Conj>>)
    ensures r.Got? ==> |r.ts| < |ts|
    decreases |ts|, 5
  {
    var first := ReadConj(ts, ps);
    if first.Failed? then Failed
    else if !Starts(first.ts, OrTok) then Got([Conj(first.got)], first.ts, first.ps)
    else
      var rest := ReadDisj(first.ts[1..], first.ps);
      if rest.Failed? then Failed else Got([Conj(first.got)] + rest.got, rest.ts, rest.ps)
  }

  // ---------------------------------------------------------------------------------------------
  // Reading undoes writing
  // ---------------------------------------------------------------------------------------------

  lemma HolesOne(t: Token)
    ensures HolesOf([t]) == if t.Hole? then [t.meant] else []
  {
    assert [t][1..] == [];
  }

  lemma HolesTwo(t: Token, u: Token)
    ensures HolesOf([t, u]) == HolesOf([t]) + HolesOf([u])
  {
    assert [t, u] == [t] + [u];
    HolesAppend([t], [u]);
  }

  lemma {:induction false} HoleListHoles(vs: seq<Value>)
    ensures HolesOf(HoleList(vs)) == vs
  {
    if |vs| == 1 {
      assert [Hole(vs[0])][1..] == [];
    } else if |vs| > 1 {
      HoleListHoles(vs[1..]);
      assert HoleList(vs)[1..][1..] == HoleList(vs[1..]);
    }
  }

  lemma ReadHolesStep(v: Value, tail: seq<Token>, ps: seq<Value>)
    requires ReadHoles(tail, ps).Got?
    ensures
      var rest := ReadHoles(tail, ps);
      ReadHoles([Hole(v), Comma] + tail, [v] + ps) == Got([v] + rest.got, rest.ts, rest.ps)
  {
    var ts := [Hole(v), Comma] + tail;
    assert ts[2..] == tail && ts[1..][0] == Comma && ([v] + ps)[1..] == ps;
  }

  lemma OneHoleRead(v: Value, rest: seq<Token>, more: seq<Value>)
    requires !Starts(rest, Comma)
    ensures ReadHoles([Hole(v)] + rest, [v] + more) == Got([v], rest, more)
  {
    assert ([Hole(v)] + rest)[1..] == rest && ([v] + more)[1..] == more;
  }

  lemma {:induction false} HolesRead(vs: seq<Value>, rest: seq<Token>, more: seq<Value>)
    requires vs != [] && !Starts(rest, Comma)
    ensures ReadHoles(HoleList(vs) + rest, vs + more) == Got(vs, rest, more)
  {
    if |vs| == 1 {
      OneHoleRead(vs[0], rest, more);
      assert vs == [vs[0]];
    } else {
      HolesRead(vs[1..], rest, more);
      ReadHolesStep(vs[0], HoleList(vs[1..]) + rest, vs[1..] + more);
      Regroup([Hole(vs[0]), Comma], HoleList(vs[1..]), rest);
      assert [vs[0]] + vs[1..] == vs;
      Regroup([vs[0]], vs[1..], more);
    }
  }

  lemma {:induction false} PiecesHoles(text: string, args: seq<seq<Value>>, i: nat)
    requires i <= |args|
    ensures HolesOf(Pieces(text, args, i)) == Concat(args[i..])
    decreases |args| - i
  {
    if i == |args| {
      assert [Piece(text, i)][1..] == [];
    } else {
      PiecesHoles(text, args, i + 1);
      HoleListHoles(args[i]);
      HolesAppend([Piece(text, i)], HoleList(args[i]));
      HolesAppend([Piece(text, i)] + HoleList(args[i]), Pieces(text, args, i + 1));
      assert args[i..][1..] == args[i + 1..];
      assert HolesOf([Piece(text, i)]) == [] by { assert [Piece(text, i)][1..] == []; }
    }
  }

  lemma {:induction false} PiecesRead(text: string, args: seq<seq<Value>>, i: nat, rest: seq<Token>, more: seq<Value>)
    requires i <= |args| && GoodArgs(text, args)
    ensures ReadPieces(text, i, Pieces(text, args, i) + rest, Concat(args[i..]) + more) == Got(args[i..], rest, more)
    decreases |args| - i
  {
    var ts := Pieces(text, args, i) + rest;
    if i == |args| {
      assert ts[1..] == rest && args[i..] == [];
    } else {
      var tail := Pieces(text, args, i + 1) + rest;
      assert ts[1..] == HoleList(args[i]) + tail;
      assert Pieces(text, args, i + 1)[0].Piece?;
      assert args[i] in args;
      assert args[i..][1..] == args[i + 1..];
      Regroup(args[i], Concat(args[i + 1..]), more);
      HolesRead(args[i], tail, Concat(args[i + 1..]) + more);
      PiecesRead(text, args, i + 1, rest, more);
      assert [args[i]] + args[i + 1..] == args[i..];
    }
  }

  lemma TextHoles(text: string, args: seq<seq<Value>>)
    ensures HolesOf(WriteText(text, args)) == Concat(args)
  {
    if args == [] {
      assert [Word(text)][1..] == [];
    } else {
      PiecesHoles(text, args, 0);
      assert args[0..] == args;
    }
  }

  lemma OperandRead(o: Operand, rest: seq<Token>, more: seq<Value>)
    requires GoodOperand(o) && (rest == [] || !rest[0].CastTo?)
    ensures ReadOperand(WriteOperand(o) + rest, HolesOf(WriteOperand(o)) + more) == Got(o, rest, more)
  {
    var ts := WriteOperand(o) + rest;
    var ps := HolesOf(WriteOperand(o)) + more;
    match o
    case Bound(v, None) =>
      HolesOne(Hole(v));
      assert ts[1..] == rest;
      assert ps[1..] == more;
    case Bound(v, Some(t)) =>
      HolesOne(Hole(v));
      HolesOne(CastTo(t));
      HolesTwo(Hole(v), CastTo(t));
      assert ts[2..] == rest;
      assert ps[1..] == more;
    case Expr(text, args) =>
      TextHoles(text, args);
      if args == [] {
        assert ts[1..] == rest && ps == more;
      } else {
        assert args[0..] == args;
        PiecesRead(text, args, 0, rest, more);
      }
  }

  lemma {:induction false} OperandsHoles(os: seq<Operand>)
    requires |os| > 1
    ensures HolesOf(WriteOperands(os)) == HolesOf(WriteOperand(os[0])) + HolesOf(WriteOperands(os[1..]))
  {
    var first := WriteOperand(os[0]);
    HolesOne(Comma);
    HolesAppend(first, [Comma]);
    HolesAppend(first + [Comma], WriteOperands(os[1..]));
  }

  lemma ReadOperandsStep(ts: seq<Token>, ps: seq<Value>, o: Operand, tail: seq<Token>, qs: seq<Value>)
    requires ReadOperand(ts, ps) == Got(o, [Comma] + tail, qs) && ReadOperands(tail, qs).Got?
    ensures
      var rest := ReadOperands(tail, qs);
      ReadOperands(ts, ps) == Got([o] + rest.got, rest.ts, rest.ps)
  {
    assert ([Comma] + tail)[1..] == tail;
  }

  lemma OperandsSplit(os: seq<Operand>, rest: seq<Token>, more: seq<Value>)
    requires |os| > 1
    ensures WriteOperands(os) + rest == WriteOperand(os[0]) + ([Comma] + (WriteOperands(os[1..]) + rest))
    ensures HolesOf(WriteOperands(os)) + more == HolesOf(WriteOperand(os[0])) + (HolesOf(WriteOperands(os[1..])) + more)
  {
    OperandsHoles(os);
    Regroup4(WriteOperand(os[0]), [Comma], WriteOperands(os[1..]), rest);
    Regroup(HolesOf(WriteOperand(os[0])), HolesOf(WriteOperands(os[1..])), more);
  }

  lemma {:induction false} OperandsRead(os: seq<Operand>, ts: seq<Token>, ps: seq<Value>, rest: seq<Token>, more: seq<Value>)
    requires os != [] && (forall o <- os :: GoodOperand(o)) && Starts(rest, Close)
    requires ts == WriteOperands(os) + rest && ps == HolesOf(WriteOperands(os)) + more
    ensures ReadOperands(ts, ps) == Got(os, rest, more)
    decreases |os|
  {
    if |os| == 1 {
      OperandRead(os[0], rest, more);
      assert os == [os[0]];
    } else {
      var tail, params := WriteOperands(os[1..]) + rest, HolesOf(WriteOperands(os[1..])) + more;
      OperandsSplit(os, rest, more);
      OperandRead(os[0], [Comma] + tail, params);
      OperandsRead(os[1..], tail, params, rest, more);
      ReadOperandsStep(ts, ps, os[0], tail, params);
      assert [os[0]] + os[1..] == os;
    }
  }

  lemma ReadNamesStep(name: string, tail: seq<Token>)
    requires ReadNames(tail).Got?
    ensures
      var rest := ReadNames(tail);
      ReadNames([Word(name), Comma] + tail) == Got([name] + rest.got, rest.ts, rest.ps)
  {
    var ts := [Word(name), Comma] + tail;
    assert ts[2..] == tail && ts[1..][0] == Comma;
  }

  lemma OneNameRead(name: string, rest: seq<Token>)
    requires !Starts(rest, Comma)
    ensures ReadNames([Word(name)] + rest) == Got([name], rest, [])
  {
    assert ([Word(name)] + rest)[1..] == rest;
  }

  lemma {:induction false} NamesRead(names: seq<string>, rest: seq<Token>)
    requires names != [] && !Starts(rest, Comma)
    ensures ReadNames(WriteNames(names) + rest) == Got(names, rest, [])
  {
    if |names| == 1 {
      OneNameRead(names[0], rest);
      assert names == [names[0]];
    } else {
      NamesRead(names[1..], rest);
      ReadNamesStep(names[0], WriteNames(names[1..]) + rest);
      Regroup([Word(names[0]), Comma], WriteNames(names[1..]), rest);
      assert [names[0]] + names[1..] == names;
    }
  }

  lemma {:induction false} TuplesHoles(tuples: seq<seq<Value>>)
    ensures HolesOf(WriteTuples(tuples)) == Concat(tuples)
  {
    if tuples != [] {
      var t := tuples[0];
      HoleListHoles(t);
      HolesOne(Open);
      HolesOne(Close);
      HolesOne(Comma);
      HolesTwo(Close, Comma);
      HolesAppend([Open], HoleList(t));
      if |tuples| == 1 {
        HolesAppend([Open] + HoleList(t), [Close]);
        assert tuples[1..] == [];
      } else {
        HolesAppend([Open] + HoleList(t), [Close, Comma]);
        HolesAppend([Open] + HoleList(t) + [Close, Comma], WriteTuples(tuples[1..]));
        TuplesHoles(tuples[1..]);
      }
    }
  }

  lemma ReadTuplesStep(ts: seq<Token>, ps: seq<Value>, t: seq<Value>, tail: seq<Token>, qs: seq<Value>)
    requires Starts(ts, Open) && ReadHoles(ts[1..], ps) == Got(t, [Close, Comma] + tail, qs) && ReadTuples(tail, qs).Got?
    ensures
      var rest := ReadTuples(tail, qs);
      ReadTuples(ts, ps) == Got([t] + rest.got, rest.ts, rest.ps)
  {
    assert ([Close, Comma] + tail)[2..] == tail && ([Close, Comma] + tail)[1..][0] == Comma;
  }

  lemma TuplesSplit(tuples: seq<seq<Value>>, rest: seq<Token>, more: seq<Value>)
    requires |tuples| > 1
    ensures WriteTuples(tuples) + rest == [Open] + (HoleList(tuples[0]) + ([Close, Comma] + (WriteTuples(tuples[1..]) + rest)))
    ensures Concat(tuples) + more == tuples[0] + (Concat(tuples[1..]) + more)
  {
    Regroup4([Open] + HoleList(tuples[0]), [Close, Comma], WriteTuples(tuples[1..]), rest);
    Regroup([Open], HoleList(tuples[0]), [Close, Comma] + (WriteTuples(tuples[1..]) + rest));
    Regroup(tuples[0], Concat(tuples[1..]), more);
  }

  lemma OneTupleRead(tuples: seq<seq<Value>>, ts: seq<Token>, ps: seq<Value>, rest: seq<Token>, more: seq<Value>)
    requires |tuples| == 1 && tuples[0] != [] && Starts(rest, Close)
    requires ts == WriteTuples(tuples) + rest && ps == Concat(tuples) + more
    ensures ReadTuples(ts, ps) == Got(tuples, rest, more)
  {
    var t := tuples[0];
    assert tuples == [t];
    ConcatOne(t);
    assert ts[1..] == HoleList(t) + ([Close] + rest);
    HolesRead(t, [Close] + rest, more);
    assert ([Close] + rest)[1..] == rest;
  }

  lemma ManyTuplesRead(tuples: seq<seq<Value>>, ts: seq<Token>, ps: seq<Value>, tail: seq<Token>, params: seq<Value>, rest: seq<Token>, more: seq<Value>)
    requires |tuples| > 1 && tuples[0] != [] && ReadTuples(tail, params) == Got(tuples[1..], rest, more)
    requires ts == [Open] + (HoleList(tuples[0]) + ([Close, Comma] + tail)) && ps == tuples[0] + params
    ensures ReadTuples(ts, ps) == Got(tuples, rest, more)
  {
    assert ts[1..] == HoleList(tuples[0]) + ([Close, Comma] + tail);
    HolesRead(tuples[0], [Close, Comma] + tail, params);
    ReadTuplesStep(ts, ps, tuples[0], tail, params);
    assert [tuples[0]] + tuples[1..] == tuples;
  }

  lemma {:induction false} TuplesRead(tuples: seq<seq<Value>>, ts: seq<Token>, ps: seq<Value>, rest: seq<Token>, more: seq<Value>)
    requires tuples != [] && (forall i :: 0 <= i < |tuples| ==> tuples[i] != []) && Starts(rest, Close)
    requires ts == WriteTuples(tuples) + rest && ps == Concat(tuples) + more
    ensures ReadTuples(ts, ps) == Got(tuples, rest, more)
    decreases |tuples|
  {
    if |tuples| == 1 {
      OneTupleRead(tuples, ts, ps, rest, more);
    } else {
      var later := tuples[1..];
      var tail, params := WriteTuples(later) + rest, Concat(later) + more;
      assert forall i :: 0 <= i < |later| ==> later[i] == tuples[i + 1];
      TuplesRead(later, tail, params, rest, more);
      TuplesSplit(tuples, rest, more);
      ManyTuplesRead(tuples, ts, ps, tail, params, rest, more);
    }
  }

  predicate NoHoles(ts: seq<Token>) {
    forall t <- ts :: !t.Hole?
  }

  lemma {:induction false} NoHolesOf(ts: seq<Token>)
    requires NoHoles(ts)
    ensures HolesOf(ts) == []
  {
    if ts != [] {
      NoHolesOf(ts[1..]);
    }
  }

  lemma HolesAround(a: seq<Token>, b: seq<Token>, c: seq<Token>)
    requires NoHoles(a) && NoHoles(c)
    ensures HolesOf(a + b + c) == HolesOf(b)
    ensures HolesOf(a + b) == HolesOf(b)
  {
    NoHolesOf(a);
    NoHolesOf(c);
    HolesAppend(a, b);
    HolesAppend(a + b, c);
  }

  lemma {:induction false} NamesHaveNoHoles(names: seq<string>)
    ensures NoHoles(WriteNames(names))
  {
    if |names| > 1 {
      NamesHaveNoHoles(names[1..]);
    }
  }

  /** What can follow a condition. */
  predicate EndsPrim(rest: seq<Token>) {
    rest == [] || rest[0] == AndTok || rest[0] == OrTok || rest[0] == Close
  }

  lemma TextRead(text: string, args: seq<seq<Value>>, ts: seq<Token>, ps: seq<Value>, rest: seq<Token>, more: seq<Value>)
    requires GoodArgs(text, args) && EndsPrim(rest)
    requires ts == WriteText(text, args) + rest && ps == HolesOf(WriteText(text, args)) + more
    ensures ReadPrim(ts, ps) == Got(Fragment(text, args), rest, more)
  {
    TextHoles(text, args);
    if args == [] {
      assert ts[0] == Word(text) && ts[1..] == rest && ps == more;
      assert |ts| > 1 ==> ts[1] == rest[0];
    } else {
      assert args[0..] == args;
      PiecesRead(text, args, 0, rest, more);
      assert ts[0] == Piece(text, 0);
    }
  }

  lemma CompareRead(p: Prim, ts: seq<Token>, ps: seq<Value>, rest: seq<Token>, more: seq<Value>)
    requires p.Compare? && GoodPrim(p) && EndsPrim(rest)
    requires ts == WritePrim(p) + rest && ps == HolesOf(WritePrim(p)) + more
    ensures ReadPrim(ts, ps) == Got(p, rest, more)
  {
    HolesAround([Word(p.left), Operator(p.op)], WriteOperand(p.right), []);
    assert ts[2..] == WriteOperand(p.right) + rest;
    OperandRead(p.right, rest, more);
    assert ts[0] == Word(p.left) && ts[1] == Operator(p.op);
  }

  lemma PlainRead(p: Prim, ts: seq<Token>, ps: seq<Value>, rest: seq<Token>, more: seq<Value>)
    requires p.IsNull? || p.IsNotNull? || p.Never?
    requires ts == WritePrim(p) + rest && ps == HolesOf(WritePrim(p)) + more
    ensures ReadPrim(ts, ps) == Got(p, rest, more)
  {
    NoHolesOf(WritePrim(p));
    if p.Never? {
      assert ts[1..] == rest;
    } else {
      assert ts[0] == Word(p.left) && ts[2..] == rest;
    }
  }

  /** A column, IN and an opening parenthesis. */
  lemma ReadPrimIn(ts: seq<Token>, ps: seq<Value>)
    requires |ts| > 2 && ts[0].Word? && ts[1].InTok? && ts[2] == Open
    ensures ReadPrim(ts, ps) == ReadMembership([ts[0].text], false, ts[1].negated, ts[3..], ps)
  {
    assert ts[2..][0] == Open;
  }

  /** Columns in parentheses, IN and an opening parenthesis. */
  lemma ReadPrimColumns(ts: seq<Token>, ps: seq<Value>, columns: seq<string>, negated: bool, tail: seq<Token>)
    requires columns != [] && ts == [Open] + (WriteNames(columns) + ([Close, InTok(negated), Open] + tail))
    ensures ReadPrim(ts, ps) == ReadMembership(columns, true, negated, tail, ps)
  {
    var after := [Close, InTok(negated), Open] + tail;
    NamesRead(columns, after);
    OpensColumnsOf(columns, after);
    assert ts[1..] == WriteNames(columns) + after;
    ReadPrimMembership(ts, ps, columns, negated, after, tail);
  }

  lemma ReadPrimMembership(ts: seq<Token>, ps: seq<Value>, columns: seq<string>, negated: bool, after: seq<Token>, tail: seq<Token>)
    requires columns != [] && Starts(ts, Open) && OpensColumns(ts)
    requires ReadNames(ts[1..]) == Got(columns, after, []) && after == [Close, InTok(negated), Open] + tail
    ensures ReadPrim(ts, ps) == ReadMembership(columns, true, negated, tail, ps)
  {
    assert after[0] == Close && after[1] == InTok(negated) && after[2] == Open && after[3..] == tail;
  }

  lemma MembershipOfItems(columns: seq<string>, items: seq<Operand>, ts: seq<Token>, ps: seq<Value>, rest: seq<Token>, more: seq<Value>)
    requires columns != [] && items != [] && (forall o <- items :: GoodOperand(o))
    requires ts == WriteOperands(items) + ([Close] + rest) && ps == HolesOf(WriteOperands(items)) + more
    ensures ReadMembership(columns, false, false, ts, ps) == Got(InList(columns[0], items), rest, more)
  {
    OperandsRead(items, ts, ps, [Close] + rest, more);
    assert ([Close] + rest)[1..] == rest;
    assert !Starts(ts, Select);
  }

  lemma MembershipOfTuples(columns: seq<string>, tuples: seq<seq<Value>>, ts: seq<Token>, ps: seq<Value>, rest: seq<Token>, more: seq<Value>)
    requires columns != [] && tuples != [] && (forall i :: 0 <= i < |tuples| ==> tuples[i] != [])
    requires ts == WriteTuples(tuples) + ([Close] + rest) && ps == Concat(tuples) + more
    ensures ReadMembership(columns, true, false, ts, ps) == Got(InTuples(columns, tuples), rest, more)
  {
    TuplesRead(tuples, ts, ps, [Close] + rest, more);
    assert ([Close] + rest)[1..] == rest;
    assert ts[0] == Open;
  }

  lemma InListRead(p: Prim, ts: seq<Token>, ps: seq<Value>, rest: seq<Token>, more: seq<Value>)
    requires p.InList? && GoodPrim(p)
    requires ts == WritePrim(p) + rest && ps == HolesOf(WritePrim(p)) + more
    ensures ReadPrim(ts, ps) == Got(p, rest, more)
  {
    var head, items := [Word(p.left), InTok(false), Open], WriteOperands(p.items);
    HolesAround(head, items, [Close]);
    Regroup4(head, items, [Close], rest);
    assert ts[3..] == items + ([Close] + rest);
    ReadPrimIn(ts, ps);
    MembershipOfItems([p.left], p.items, ts[3..], ps, rest, more);
  }

  lemma InTuplesRead(p: Prim, ts: seq<Token>, ps: seq<Value>, rest: seq<Token>, more: seq<Value>)
    requires p.InTuples? && GoodPrim(p)
    requires ts == WritePrim(p) + rest && ps == HolesOf(WritePrim(p)) + more
    ensures ReadPrim(ts, ps) == Got(p, rest, more)
  {
    var names, tuples, open := WriteNames(p.columns), WriteTuples(p.tuples), [Close, InTok(false), Open];
    NamesHaveNoHoles(p.columns);
    HolesAround([Open] + names + open, tuples, [Close]);
    TuplesHoles(p.tuples);
    var tail := tuples + ([Close] + rest);
    Regroup4([Open] + names + open, tuples, [Close], rest);
    Regroup4([Open], names, open, tail);
    ReadPrimColumns(ts, ps, p.columns, false, tail);
    MembershipOfTuples(p.columns, p.tuples, tail, ps, rest, more);
  }

  lemma OpensColumnsOf(columns: seq<string>, after: seq<Token>)
    requires columns != [] && |after| > 1 && after[0] == Close && after[1].InTok?
    ensures OpensColumns([Open] + (WriteNames(columns) + after))
  {
    var ts := [Open] + (WriteNames(columns) + after);
    assert ts[1] == Word(columns[0]);
    if |columns| == 1 {
      assert ts[2] == after[0] && ts[3] == after[1];
    } else {
      assert ts[2] == Comma;
    }
  }

  // Conditions inside conditions.

  /** A condition in parentheses does not look like a list of columns. */
  lemma PrimOpensNoColumns(p: Prim, after: seq<Token>)
    requires GoodPrim(p) && EndsPrim(after) && after != []
    requires after[0] == Close && |after| > 1 ==> !after[1].InTok?
    ensures !OpensColumns([Open] + (WritePrim(p) + after))
  {
    var ts := [Open] + (WritePrim(p) + after);
    if |ts| > 2 {
      assert ts[1] == (WritePrim(p) + after)[0] && ts[2] == (WritePrim(p) + after)[1];
      if p.Fragment? && p.args == [] {
        assert WritePrim(p) + after == [Word(p.text)] + after;
        assert ts[2] == after[0];
        assert |after| > 1 ==> ts[3] == after[1];
      }
    }
  }

  /** What a conjunction, or an alternative, begins with. */
  function ConjTail(c: seq<Prim>): seq<Token>
    requires c != []
  {
    if |c| == 1 then [] else [AndTok] + WriteConj(c[1..])
  }

  function DisjTail(d: seq<Conj>): seq<Token>
    requires d != []
  {
    if |d| == 1 then [] else [OrTok] + WriteDisj(d[1..])
  }

  lemma DisjOpensNoColumns(d: seq<Conj>, rest: seq<Token>)
    requires GoodDisj(d) && EndsPrim(rest)
    ensures !OpensColumns([Open] + (WriteDisj(d) + ([Close] + rest)))
  {
    var c := d[0].prims;
    assert GoodConj(c) by { assert d[0] in d; }
    assert GoodPrim(c[0]) by { assert c[0] in c; }
    var after := ConjTail(c) + (DisjTail(d) + ([Close] + rest));
    assert WriteConj(c) == WritePrim(c[0]) + ConjTail(c);
    assert WriteDisj(d) == WriteConj(c) + DisjTail(d);
    Regroup(WriteConj(c), DisjTail(d), [Close] + rest);
    Regroup(WritePrim(c[0]), ConjTail(c), DisjTail(d) + ([Close] + rest));
    assert after[0] == Close && |after| > 1 ==> after[1] == rest[0];
    PrimOpensNoColumns(c[0], after);
  }

  lemma ReadConjStep(ts: seq<Token>, ps: seq<Value>, p: Prim, tail: seq<Token>, qs: seq<Value>)
    requires ReadPrim(ts, ps) == Got(p, [AndTok] + tail, qs) && ReadConj(tail, qs).Got?
    ensures
      var rest := ReadConj(tail, qs);
      ReadConj(ts, ps) == Got([p] + rest.got, rest.ts, rest.ps)
  {
    assert ([AndTok] + tail)[1..] == tail;
  }

  lemma ReadDisjStep(ts: seq<Token>, ps: seq<Value>, c: seq<Prim>, tail: seq<Token>, qs: seq<Value>)
    requires ReadConj(ts, ps) == Got(c, [OrTok] + tail, qs) && ReadDisj(tail, qs).Got?
    ensures
      var rest := ReadDisj(tail, qs);
      ReadDisj(ts, ps) == Got([Conj(c)] + rest.got, rest.ts, rest.ps)
  {
    assert ([OrTok] + tail)[1..] == tail;
  }

  lemma SplitAt(a: seq<Token>, sep: Token, b: seq<Token>, rest: seq<Token>, more: seq<Value>)
    requires !sep.Hole?
    ensures a + [sep] + b + rest == a + ([sep] + (b + rest))
    ensures HolesOf(a + [sep] + b) + more == HolesOf(a) + (HolesOf(b) + more)
  {
    Regroup4(a, [sep], b, rest);
    HolesOne(sep);
    HolesAppend(a, [sep]);
    HolesAppend(a + [sep], b);
  }

  lemma {:induction false} PrimRead(p: Prim, ts: seq<Token>, ps: seq<Value>, rest: seq<Token>, more: seq<Value>)
    requires GoodPrim(p) && EndsPrim(rest)
    requires ts == WritePrim(p) + rest && ps == HolesOf(WritePrim(p)) + more
    ensures ReadPrim(ts, ps) == Got(p, rest, more)
    decreases p, 2
  {
    match p
    case Group(d) => GroupRead(p, ts, ps, rest, more);
    case Compare(_, _, _) => CompareRead(p, ts, ps, rest, more);
    case InList(_, _) => InListRead(p, ts, ps, rest, more);
    case InTuples(_, _) => InTuplesRead(p, ts, ps, rest, more);
    case Fragment(text, args) => TextRead(text, args, ts, ps, rest, more);
    case InSelect(_, _, _, _, _) => InSelectRead(p, ts, ps, rest, more);
    case Exists(_, _, _) => ExistsRead(p, ts, ps, rest, more);
    case _ => PlainRead(p, ts, ps, rest, more);
  }

  lemma ConjSplit(c: seq<Prim>, rest: seq<Token>, more: seq<Value>)
    requires |c| > 1
    ensures WriteConj(c) + rest == WritePrim(c[0]) + ([AndTok] + (WriteConj(c[1..]) + rest))
    ensures HolesOf(WriteConj(c)) + more == HolesOf(WritePrim(c[0])) + (HolesOf(WriteConj(c[1..])) + more)
  {
    SplitAt(WritePrim(c[0]), AndTok, WriteConj(c[1..]), rest, more);
  }

  lemma LaterIsGood(c: seq<Prim>)
    requires GoodConj(c) && |c| > 1
    ensures GoodConj(c[1..])
  {
    assert forall p <- c[1..] :: p in c;
  }

  lemma ConjReadMany(c: seq<Prim>, ts: seq<Token>, ps: seq<Value>, tail: seq<Token>, params: seq<Value>, rest: seq<Token>, more: seq<Value>)
    requires |c| > 1 && ReadPrim(ts, ps) == Got(c[0], [AndTok] + tail, params) && ReadConj(tail, params) == Got(c[1..], rest, more)
    ensures ReadConj(ts, ps) == Got(c, rest, more)
  {
    ReadConjStep(ts, ps, c[0], tail, params);
    assert [c[0]] + c[1..] == c;
  }

  lemma {:induction false} ConjRead(c: seq<Prim>, ts: seq<Token>, ps: seq<Value>, rest: seq<Token>, more: seq<Value>)
    requires GoodConj(c) && EndsPrim(rest) && !Starts(rest, AndTok)
    requires ts == WriteConj(c) + rest && ps == HolesOf(WriteConj(c)) + more
    ensures ReadConj(ts, ps) == Got(c, rest, more)
    decreases c, 2
  {
    assert c[0] in c;
    if |c| == 1 {
      PrimRead(c[0], ts, ps, rest, more);
      assert c == [c[0]];
    } else {
      var later := c[1..];
      var tail, params := WriteConj(later) + rest, HolesOf(WriteConj(later)) + more;
      ConjSplit(c, rest, more);
      LaterIsGood(c);
      PrimRead(c[0], ts, ps, [AndTok] + tail, params);
      ConjRead(later, tail, params, rest, more);
      ConjReadMany(c, ts, ps, tail, params, rest, more);
    }
  }

  /** Whatever alternative of conjunctions is written, reading its text and binding its parameters to the holes
      gives it back. */
  lemma {:induction false} DisjRead(d: seq<Conj>, ts: seq<Token>, ps: seq<Value>, rest: seq<Token>, more: seq<Value>)
    requires GoodDisj(d) && (rest == [] || rest[0] == Close)
    requires ts == WriteDisj(d) + rest && ps == HolesOf(WriteDisj(d)) + more
    ensures ReadDisj(ts, ps) == Got(d, rest, more)
    decreases d, 3
  {
    assert d[0] in d;
    if |d| == 1 {
      ConjRead(d[0].prims, ts, ps, rest, more);
      assert d == [Conj(d[0].prims)];
    } else {
      var tail, params := WriteDisj(d[1..]) + rest, HolesOf(WriteDisj(d[1..])) + more;
      SplitAt(WriteConj(d[0].prims), OrTok, WriteDisj(d[1..]), rest, more);
      ConjRead(d[0].prims, ts, ps, [OrTok] + tail, params);
      DisjRead(d[1..], tail, params, rest, more);
      ReadDisjStep(ts, ps, d[0].prims, tail, params);
      assert [Conj(d[0].prims)] + d[1..] == d;
    }
  }

  lemma {:induction false} WhereRead(where: seq<Prim>, ts: seq<Token>, ps: seq<Value>, rest: seq<Token>, more: seq<Value>)
    requires (forall q <- where :: GoodPrim(q)) && Starts(rest, Close)
    requires ts == WriteWhere(where) + rest && ps == HolesOf(WriteWhere(where)) + more
    ensures ReadWhere(ts, ps) == Got(where, rest, more)
    decreases where, 3
  {
    if where == [] {
      assert ts == rest;
    } else {
      HolesAround([Where], WriteConj(where), []);
      assert ts[1..] == WriteConj(where) + rest;
      ConjRead(where, ts[1..], ps, rest, more);
    }
  }

  lemma {:induction false} GroupRead(p: Prim, ts: seq<Token>, ps: seq<Value>, rest: seq<Token>, more: seq<Value>)
    requires p.Group? && GoodPrim(p) && EndsPrim(rest)
    requires ts == WritePrim(p) + rest && ps == HolesOf(WritePrim(p)) + more
    ensures ReadPrim(ts, ps) == Got(p, rest, more)
    decreases p, 0
  {
    var inner := WriteDisj(p.alternatives);
    HolesAround([Open], inner, [Close]);
    Regroup4([Open], inner, [Close], rest);
    DisjOpensNoColumns(p.alternatives, rest);
    assert ts[1..] == inner + ([Close] + rest);
    DisjRead(p.alternatives, ts[1..], ps, [Close] + rest, more);
    assert ([Close] + rest)[1..] == rest;
  }

  lemma ReadPrimExists(ts: seq<Token>, ps: seq<Value>, negated: bool, table: string, tail: seq<Token>)
    requires ts == [ExistsTok(negated), Open, SelectOne, From(table)] + tail
    requires ReadWhere(tail, ps).Got? && Starts(ReadWhere(tail, ps).ts, Close)
    ensures
      var where := ReadWhere(tail, ps);
      ReadPrim(ts, ps) == Got(Exists(negated, table, where.got), where.ts[1..], where.ps)
  {
    assert ts[4..] == tail;
  }

  lemma ReadMembershipSelect(columns: seq<string>, parenthesised: bool, negated: bool, ts: seq<Token>, ps: seq<Value>, selected: seq<string>, table: string, tail: seq<Token>)
    requires columns != [] && selected != []
    requires ts == [Select] + (WriteNames(selected) + ([From(table)] + tail))
    requires ReadWhere(tail, ps).Got? && Starts(ReadWhere(tail, ps).ts, Close)
    ensures
      var where := ReadWhere(tail, ps);
      ReadMembership(columns, parenthesised, negated, ts, ps) == Got(InSelect(columns, negated, selected, table, where.got), where.ts[1..], where.ps)
  {
    NamesRead(selected, [From(table)] + tail);
    assert ts[1..] == WriteNames(selected) + ([From(table)] + tail);
    assert ([From(table)] + tail)[1..] == tail;
  }

  lemma {:induction false} ExistsRead(p: Prim, ts: seq<Token>, ps: seq<Value>, rest: seq<Token>, more: seq<Value>)
    requires p.Exists? && GoodPrim(p)
    requires ts == WritePrim(p) + rest && ps == HolesOf(WritePrim(p)) + more
    ensures ReadPrim(ts, ps) == Got(p, rest, more)
    decreases p, 0
  {
    var head, where := [ExistsTok(p.negated), Open, SelectOne, From(p.table)], WriteWhere(p.where);
    HolesAround(head, where, [Close]);
    Regroup4(head, where, [Close], rest);
    WhereRead(p.where, where + ([Close] + rest), ps, [Close] + rest, more);
    ReadPrimExists(ts, ps, p.negated, p.table, where + ([Close] + rest));
    assert ([Close] + rest)[1..] == rest;
  }

  lemma {:induction false} MembershipOfSelect(p: Prim, parenthesised: bool, ts: seq<Token>, ps: seq<Value>, rest: seq<Token>, more: seq<Value>)
    requires p.InSelect? && GoodPrim(p)
    requires ts == [Select] + (WriteNames(p.selected) + ([From(p.table)] + (WriteWhere(p.where) + ([Close] + rest))))
    requires ps == HolesOf(WriteWhere(p.where)) + more
    ensures ReadMembership(p.columns, parenthesised, p.negated, ts, ps) == Got(p, rest, more)
    decreases p, 0
  {
    var tail := WriteWhere(p.where) + ([Close] + rest);
    WhereRead(p.where, tail, ps, [Close] + rest, more);
    ReadMembershipSelect(p.columns, parenthesised, p.negated, ts, ps, p.selected, p.table, tail);
    assert ([Close] + rest)[1..] == rest;
  }

  lemma {:induction false} InSelectRead(p: Prim, ts: seq<Token>, ps: seq<Value>, rest: seq<Token>, more: seq<Value>)
    requires p.InSelect? && GoodPrim(p)
    requires ts == WritePrim(p) + rest && ps == HolesOf(WritePrim(p)) + more
    ensures ReadPrim(ts, ps) == Got(p, rest, more)
    decreases p, 1
  {
    var tail := [Select] + (WriteNames(p.selected) + ([From(p.table)] + (WriteWhere(p.where) + ([Close] + rest))));
    if |p.columns| == 1 {
      InSelectOpens(p, ts, ps, [Word(p.columns[0]), InTok(p.negated), Open], rest, more);
      assert ts[3..] == tail;
      ReadPrimIn(ts, ps);
      assert p.columns == [p.columns[0]];
    } else {
      var columns, open := WriteNames(p.columns), [Close, InTok(p.negated), Open];
      NamesHaveNoHoles(p.columns);
      assert [Open] + columns + [Close] + [InTok(p.negated), Open, Select] == [Open] + columns + open + [Select];
      InSelectOpens(p, ts, ps, [Open] + columns + open, rest, more);
      Regroup4([Open], columns, open, tail);
      ReadPrimColumns(ts, ps, p.columns, p.negated, tail);
    }
    MembershipOfSelect(p, |p.columns| != 1, tail, ps, rest, more);
  }

  lemma InSelectOpens(p: Prim, ts: seq<Token>, ps: seq<Value>, head: seq<Token>, rest: seq<Token>, more: seq<Value>)
    requires p.InSelect? && NoHoles(head)
    requires ts == WritePrim(p) + rest && ps == HolesOf(WritePrim(p)) + more
    requires head + [Select] == (if |p.columns| == 1 then [Word(p.columns[0])] else [Open] + WriteNames(p.columns) + [Close]) + [InTok(p.negated), Open, Select]
    ensures ts == head + ([Select] + (WriteNames(p.selected) + ([From(p.table)] + (WriteWhere(p.where) + ([Close] + rest)))))
    ensures ps == HolesOf(WriteWhere(p.where)) + more
  {
    NamesHaveNoHoles(p.selected);
    InSelectShape(head, WriteNames(p.selected), From(p.table), WriteWhere(p.where), rest);
  }

  lemma InSelectShape(head: seq<Token>, names: seq<Token>, from: Token, where: seq<Token>, rest: seq<Token>)
    requires NoHoles(head) && NoHoles(names) && !from.Hole?
    ensures head + [Select] + names + [from] + where + [Close] + rest == head + ([Select] + (names + ([from] + (where + ([Close] + rest)))))
    ensures HolesOf(head + [Select] + names + [from] + where + [Close]) == HolesOf(where)
  {
    HolesAround(head + [Select] + names + [from], where, [Close]);
  }

  // ---------------------------------------------------------------------------------------------
  // Three-valued evaluation
  // ---------------------------------------------------------------------------------------------

  datatype Tri = T | F | U

  function And3(a: Tri, b: Tri): Tri {
    if a == F || b == F then F else if a == T && b == T then T else U
  }

  function Or3(a: Tri, b: Tri): Tri {
    if a == T || b == T then T else if a == F && b == F then F else U
  }

  function Not3(a: Tri): Tri {
    match a case T => F case F => T case U => U
  }

  function All(ts: seq<Tri>): Tri {
    if ts == [] then T else And3(ts[0], All(ts[1..]))
  }

  function Any(ts: seq<Tri>): Tri {
    if ts == [] then F else Or3(ts[0], Any(ts[1..]))
  }

  /** The rows that column names refer to: one of each table, outermost first. */
  type Scope = seq<(string, nat)>

  /** A database: the value of an expression, the truth of a user's fragment, what operators and casts do, and
      how many rows a table has. */
  datatype Database = Database(
    scalar: (Scope, string, seq<seq<Value>>) -> Value,
    holds: (Scope, string, seq<seq<Value>>) -> Tri,
    compare: (string, Value, Value) -> Tri,
    cast: (string, Value) -> Value,
    rows: string -> nat)
  {
    function Column(sc: Scope, name: string): Value {
      scalar(sc, name, [])
    }

    /** Equality of columns with a tuple. */
    function TupleEquals(left: seq<Value>, right: seq<Value>): Tri {
      if left == [] || right == [] then T else And3(compare("=", left[0], right[0]), TupleEquals(left[1..], right[1..]))
    }

    function Columns(sc: Scope, names: seq<string>): seq<Value> {
      if names == [] then [] else [Column(sc, names[0])] + Columns(sc, names[1..])
    }

    function OfOperand(sc: Scope, o: Operand): Value {
      match o
      case Bound(v, None) => v
      case Bound(v, Some(t)) => cast(t, v)
      case Expr(text, args) => scalar(sc, text, args)
    }

    function Truth(b: bool): Tri {
      if b then T else F
    }

    /** `left IN (items)`. */
    function Among(left: Value, items: seq<Value>): Tri {
      if items == [] then F else Or3(compare("=", left, items[0]), Among(left, items[1..]))
    }

    function AmongTuples(left: seq<Value>, tuples: seq<seq<Value>>): Tri {
      if tuples == [] then F else Or3(TupleEquals(left, tuples[0]), AmongTuples(left, tuples[1..]))
    }

    function OfOperands(sc: Scope, os: seq<Operand>): seq<Value> {
      if os == [] then [] else [OfOperand(sc, os[0])] + OfOperands(sc, os[1..])
    }

    /** Is some row of the table, from the n first, one that the condition is true of? */
    function SomeRow(truth: nat -> Tri, n: nat): bool {
      n > 0 && (truth(n - 1) == T || SomeRow(truth, n - 1))
    }

    /** `left IN (SELECT ...)`: among the rows that the condition is true of. */
    function AmongRows(left: seq<Value>, row: nat -> seq<Value>, truth: nat -> Tri, n: nat): Tri {
      if n == 0 then F
      else Or3(if truth(n - 1) == T then TupleEquals(left, row(n - 1)) else F, AmongRows(left, row, truth, n - 1))
    }

    function OfPrim(sc: Scope, p: Prim): Tri
      decreases p, 0
    {
      match p
      case Group(d) => OfDisj(sc, d)
      case Compare(l, op, r) => compare(op, Column(sc, l), OfOperand(sc, r))
      case IsNull(l) => Truth(Column(sc, l) == Null)
      case IsNotNull(l) => Truth(Column(sc, l) != Null)
      case InList(l, items) => Among(Column(sc, l), OfOperands(sc, items))
      case InTuples(cs, tuples) => AmongTuples(Columns(sc, cs), tuples)
      case Never => F
      case Fragment(text, args) => holds(sc, text, args)
      case InSelect(cs, negated, ss, table, where) =>
        var found := AmongRows(Columns(sc, cs), RowColumns(sc, table, ss), RowTruth(sc, table, where), rows(table));
        if negated then Not3(found) else found
      case Exists(negated, table, where) =>
        Truth(SomeRow(RowTruth(sc, table, where), rows(table)) != negated)
    }

    /** The condition of a subquery, and what it selects, on each row of its table. */
    function RowTruth(sc: Scope, table: string, where: seq<Prim>): nat -> Tri
      decreases where, 1
    {
      (i: nat) => OfConj(sc + [(table, i)], where)
    }

    function RowColumns(sc: Scope, table: string, selected: seq<string>): nat -> seq<Value> {
      (i: nat) => Columns(sc + [(table, i)], selected)
    }

    function OfConj(sc: Scope, c: seq<Prim>): Tri
      decreases c, 0
    {
      if c == [] then T else And3(OfPrim(sc, c[0]), OfConj(sc, c[1..]))
    }

    function OfDisj(sc: Scope, d: seq<Conj>): Tri
      decreases d, 0
    {
      if d == [] then F else Or3(OfConj(sc, d[0].prims), OfDisj(sc, d[1..]))
    }
  }
}
