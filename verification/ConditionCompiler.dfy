/** The condition builder: records of conditions compiled to text with holes and a separate list of parameters,
    and what the conditions mean. */
module ConditionCompiler {
  import opened Sequences
  import opened SqlText

  // ---------------------------------------------------------------------------------------------
  // Condition trees
  // ---------------------------------------------------------------------------------------------

  datatype BoolOp = And | Or

  /** The value wrappers.  `Subquery` and `ExistsRows` carry their inner conditions. */
  datatype DbToken =
    | Plain(v: Value, op: string)
    | Immediate(text: string)
    | NullToken
    | NotNullToken
    | BoolToken(b: bool)
    | ArrayToken(vs: seq<Value>)
    | Dynamic(func: string, values: seq<Value>)
    | RawToken(text: string)
    | TupleIn(columns: seq<string>, tuples: seq<seq<Value>>)
    | Cast(v: Value, sqlType: string, op: string)
    | CastArray(vs: seq<Value>, sqlType: string)
    | Subquery(parents: seq<string>, table: string, selected: seq<string>, conds: seq<SubCond>, negated: bool)
    | ExistsRows(table: string, conds: seq<SubCond>, negated: bool)

  datatype SubCond = SubCond(column: string, value: SubValue)

  datatype SubValue = ParentRef(column: string) | SubToken(t: DbToken) | SubNull | SubList(vs: seq<Value>) | SubScalar(v: Value)

  /** A value that is not null, not a boolean and not an array: those are branched on before any value is bound. */
  type Atom = v: Value | v.Int? || v.Text? witness Int(0)

  /** The value of one entry of a condition record.  `RawPair`: an array of a string and an array; `Groups`: an
      array of records. */
  datatype Cond =
    | Nul
    | Boolean(b: bool)
    | Scalar(v: Atom)
    | List(vs: seq<Value>)
    | RawPair(sql: string, params: seq<Value>)
    | Groups(groups: seq<Record>)
    | TokenValue(t: DbToken)
    | Inner(c: Conditions)

  /** A bare value in the place of an entry's value. */
  function CondOf(v: Value): Cond {
    match v
    case Null => Nul
    case Flag(b) => Boolean(b)
    case Array(vs) => List(vs)
    case _ => Scalar(v)
  }

  datatype Entry = Entry(key: string, value: Cond)
  datatype Record = Record(entries: seq<Entry>)
  datatype Nested = Nested(conditions: Conditions, operator: BoolOp)

  /** The value of a `DBConditions` object. */
  datatype Conditions = Conditions(entries: seq<Entry>, operator: BoolOp, nested: seq<Nested>)

  /** Assigning to a key of an object: in place if the key is there, else at the end. */
  function Put(entries: seq<Entry>, e: Entry): seq<Entry> {
    if entries == [] then [e]
    else if entries[0].key == e.key then [e] + entries[1..]
    else [entries[0]] + Put(entries[1..], e)
  }

  /** `{...entries, ...more}`. */
  function Spread(entries: seq<Entry>, more: seq<Entry>): seq<Entry> {
    if more == [] then entries else Put(Spread(entries, more[..|more| - 1]), more[|more| - 1])
  }

  predicate IsReserved(key: string) {
    |key| >= 2 && key[0] == '_' && key[1] == '_'
  }

  predicate HasHole(key: string) {
    '?' in key
  }

  predicate HasSpace(key: string) {
    ' ' in key
  }

  const OR_KEY := "__or__"
  const EXISTS_KEY := "__exists__"
  const SUBQUERY_KEY := "__subquery__"
  const RAW_KEY := "__raw__"

  // ---------------------------------------------------------------------------------------------
  // What the conditions say
  // ---------------------------------------------------------------------------------------------

  function Bounds(vs: seq<Value>, cast: Option<string>): seq<Operand> {
    if vs == [] then [] else [Bound(vs[0], cast)] + Bounds(vs[1..], cast)
  }

  /** Each hole takes one value. */
  function Singletons(vs: seq<Value>): seq<seq<Value>> {
    if vs == [] then [] else [[vs[0]]] + Singletons(vs[1..])
  }

  function BoolText(b: bool): string {
    if b then "TRUE" else "FALSE"
  }

  /** The cast that the driver writes: PostgreSQL's, or none. */
  function CastOf(sqlType: string, casts: bool): Option<string> {
    if casts then Some(sqlType) else None
  }

  function TokenPrim(key: string, t: DbToken, casts: bool): Prim
    decreases t
  {
    match t
    case Plain(v, op) => Compare(key, op, Bound(v, None))
    case Immediate(text) => Compare(key, "=", Expr(text, []))
    case NullToken => IsNull(key)
    case NotNullToken => IsNotNull(key)
    case BoolToken(b) => Compare(key, "=", Expr(BoolText(b), []))
    case ArrayToken(vs) => if vs == [] then Never else InList(key, Bounds(vs, None))
    case Dynamic(func, values) => Compare(key, "=", Expr(func, Singletons(values)))
    case RawToken(text) => Compare(key, "=", Expr(text, []))
    case TupleIn(columns, tuples) => if tuples == [] then Never else InTuples(columns, tuples)
    case Cast(v, sqlType, op) => Compare(key, op, Bound(v, CastOf(sqlType, casts)))
    case CastArray(vs, sqlType) => if vs == [] then Never else InList(key, Bounds(vs, CastOf(sqlType, casts)))
    case Subquery(parents, table, selected, conds, negated) => InSelect(parents, negated, selected, table, SubPrims(conds))
    case ExistsRows(table, conds, negated) => Exists(negated, table, SubPrims(conds))
  }

  /** Inside a subquery no formatter is passed on, so casts are always written. */
  function SubPrim(c: SubCond): Prim
    decreases c
  {
    match c.value
    case ParentRef(column) => Compare(c.column, "=", Expr(column, []))
    case SubToken(t) => TokenPrim(c.column, t, true)
    case SubNull => IsNull(c.column)
    case SubList(vs) => if vs == [] then Never else InList(c.column, Bounds(vs, None))
    case SubScalar(v) => Compare(c.column, "=", Bound(v, None))
  }

  function SubPrims(cs: seq<SubCond>): seq<Prim>
    decreases cs
  {
    if cs == [] then [] else [SubPrim(cs[0])] + SubPrims(cs[1..])
  }

  function RawParts(vs: seq<Value>): seq<Prim> {
    if vs == [] then []
    else if vs[0].Text? then [Fragment(vs[0].s, [])] + RawParts(vs[1..])
    else RawParts(vs[1..])
  }

  /** A key that holds its own placeholders: an array for one placeholder fills it with a list. */
  function CustomArgs(key: string, vs: seq<Value>): seq<seq<Value>> {
    if Holes(key) == 1 then [vs] else Singletons(vs)
  }

  /** `key.replace('?', text)`. */
  function ReplaceFirst(key: string, text: string): string {
    if key == "" then ""
    else if key[0] == '?' then text + key[1..]
    else [key[0]] + ReplaceFirst(key[1..], text)
  }

  /** An empty list for the one placeholder of a key is written as NULL. */
  function CustomPrim(key: string, vs: seq<Value>): Prim {
    if Holes(key) == 1 && vs == [] then Fragment(ReplaceFirst(key, "NULL"), []) else Fragment(key, CustomArgs(key, vs))
  }

  /** What an entry compiles to: nothing, or a conjunction (of one, except for several raw fragments). */
  function EntryConj(key: string, value: Cond, casts: bool): seq<Prim>
    decreases value
  {
    if key == OR_KEY && value.Groups? then
      var groups := GroupConjs(value.groups, casts);
      if groups == [] then [] else [Group(groups)]
    else if key == RAW_KEY then
      match value
      case Scalar(Text(s)) => if s == "" then [] else [Fragment(s, [])]
      case RawPair(sql, params) => if sql == "" then [] else [Fragment(sql, Singletons(params))]
      case List(vs) => RawParts(vs)
      case _ => []
    else if value.TokenValue? then [TokenPrim(key, value.t, casts)]
    else if value.Inner? then [Group(ConditionsDisj(value.c, casts))]
    else if IsReserved(key) then []
    else
      match value
      case Nul => [IsNull(key)]
      case Boolean(b) => if b && HasSpace(key) then [Fragment(key, [])] else [Compare(key, "=", Expr(BoolText(b), []))]
      case List(vs) =>
        if HasHole(key) then [CustomPrim(key, vs)]
        else if vs == [] then [Never] else [InList(key, Bounds(vs, None))]
      case Scalar(v) => if HasHole(key) then [Fragment(key, [[v]])] else [Compare(key, "=", Bound(v, None))]
      case _ => []
  }

  function GroupConjs(groups: seq<Record>, casts: bool): seq<Conj>
    decreases groups
  {
    if groups == [] then []
    else
      var parts := EntriesParts(groups[0].entries, casts);
      var rest := GroupConjs(groups[1..], casts);
      if parts == [] then rest else [Conj([Group([Conj(Concat(parts))])])] + rest
  }

  /** The non-empty parts, each a conjunction. */
  function EntriesParts(entries: seq<Entry>, casts: bool): seq<seq<Prim>>
    decreases entries
  {
    if entries == [] then []
    else
      var first := EntryConj(entries[0].key, entries[0].value, casts);
      var rest := EntriesParts(entries[1..], casts);
      if first == [] then rest else [first] + rest
  }

  /** The operator that a nested condition was added with plays no part. */
  function NestedConj(n: Nested, casts: bool): seq<Prim>
    decreases n
  {
    var d := ConditionsDisj(n.conditions, casts);
    if d == [] then [] else [Group(d)]
  }

  function NestedParts(nested: seq<Nested>, casts: bool): seq<seq<Prim>>
    decreases nested
  {
    if nested == [] then []
    else
      var first := NestedConj(nested[0], casts);
      var rest := NestedParts(nested[1..], casts);
      if first == [] then rest else [first] + rest
  }

  function Conjs(parts: seq<seq<Prim>>): seq<Conj> {
    if parts == [] then [] else [Conj(parts[0])] + Conjs(parts[1..])
  }

  function ConditionsDisj(c: Conditions, casts: bool): seq<Conj>
    decreases c
  {
    var parts := EntriesParts(c.entries, casts) + NestedParts(c.nested, casts);
    if parts == [] then [] else if c.operator.And? then [Conj(Concat(parts))] else Conjs(parts)
  }

  // ---------------------------------------------------------------------------------------------
  // Which conditions are written as their keys ask for
  // ---------------------------------------------------------------------------------------------

  /** Does the token write the key that it is given? */
  predicate UsesKey(t: DbToken) {
    !t.TupleIn? && !(t.ArrayToken? && t.vs == []) && !(t.CastArray? && t.vs == []) && !t.Subquery? && !t.ExistsRows?
  }

  predicate GoodToken(key: string, t: DbToken)
    decreases t
  {
    && (UsesKey(t) ==> IsName(key))
    && match t
       case Immediate(text) => IsName(text)
       case Dynamic(func, values) => Holes(func) == |values|
       case RawToken(text) => IsName(text)
       case TupleIn(columns, tuples) => AreNames(columns) && forall i :: 0 <= i < |tuples| ==> tuples[i] != []
       case Subquery(parents, table, selected, conds, _) => AreNames(parents) && AreNames(selected) && IsName(table) && forall c <- conds :: GoodSubCond(c)
       case ExistsRows(table, conds, _) => IsName(table) && forall c <- conds :: GoodSubCond(c)
       case _ => true
  }

  predicate GoodSubCond(c: SubCond)
    decreases c
  {
    && IsName(c.column)
    && match c.value
       case ParentRef(column) => IsName(column)
       case SubToken(t) => GoodToken(c.column, t)
       case _ => true
  }

  /** The placeholders of a key, a raw fragment or a function text are as many as its values; a nested condition
      object in the place of a value is not empty. */
  predicate GoodEntry(e: Entry, casts: bool)
    decreases e
  {
    var key, value := e.key, e.value;
    if key == OR_KEY && value.Groups? then forall g <- value.groups :: forall f <- g.entries :: GoodEntry(f, casts)
    else if key == RAW_KEY then
      match value
      case Scalar(Text(s)) => IsName(s)
      case RawPair(sql, params) => Holes(sql) == |params|
      case List(vs) => forall v <- vs :: v.Text? ==> v.s != "" && IsName(v.s)
      case _ => true
    else if value.TokenValue? then GoodToken(key, value.t)
    else if value.Inner? then GoodConditions(value.c, casts) && ConditionsDisj(value.c, casts) != []
    else if IsReserved(key) then true
    else
      match value
      case Nul => IsName(key)
      case Boolean(_) => IsName(key)
      case List(vs) => HasHole(key) ==> Holes(key) == 1 || Holes(key) == |vs|
      case Scalar(_) => HasHole(key) ==> Holes(key) == 1
      case _ => false
  }

  predicate GoodConditions(c: Conditions, casts: bool)
    decreases c
  {
    && (forall e <- c.entries :: GoodEntry(e, casts))
    && (forall n <- c.nested :: GoodConditions(n.conditions, casts))
  }

  /** All that compiling asks of a tree: where a text brings its own placeholders it has as many as values. */
  predicate FitsToken(t: DbToken)
    decreases t
  {
    match t
    case Dynamic(func, values) => Holes(func) == |values|
    case Subquery(_, _, _, conds, _) => forall c <- conds :: FitsSubCond(c)
    case ExistsRows(_, conds, _) => forall c <- conds :: FitsSubCond(c)
    case _ => true
  }

  predicate FitsSubCond(c: SubCond)
    decreases c
  {
    c.value.SubToken? ==> FitsToken(c.value.t)
  }

  predicate FitsEntry(e: Entry)
    decreases e
  {
    var key, value := e.key, e.value;
    if key == OR_KEY && value.Groups? then forall g <- value.groups :: forall f <- g.entries :: FitsEntry(f)
    else if key == RAW_KEY then
      match value
      case RawPair(sql, params) => Holes(sql) == |params|
      case List(vs) => forall v <- vs :: v.Text? ==> v.s != ""
      case _ => true
    else if value.TokenValue? then FitsToken(value.t)
    else if value.Inner? then FitsConditions(value.c)
    else if IsReserved(key) then true
    else
      match value
      case Nul => true
      case Boolean(_) => true
      case List(vs) => HasHole(key) ==> Holes(key) == 1 || Holes(key) == |vs|
      case Scalar(_) => HasHole(key) ==> Holes(key) == 1
      case _ => false
  }

  predicate FitsConditions(c: Conditions)
    decreases c
  {
    && (forall e <- c.entries :: FitsEntry(e))
    && (forall n <- c.nested :: FitsConditions(n.conditions))
  }

  lemma {:induction false} GoodTokenFits(key: string, t: DbToken)
    requires GoodToken(key, t)
    ensures FitsToken(t)
    decreases t
  {
    if t.Subquery? || t.ExistsRows? {
      forall c <- t.conds ensures FitsSubCond(c) {
        if c.value.SubToken? {
          GoodTokenFits(c.column, c.value.t);
        }
      }
    }
  }

  lemma {:induction false} GoodEntryFits(e: Entry, casts: bool)
    requires GoodEntry(e, casts)
    ensures FitsEntry(e)
    decreases e
  {
    if e.key == OR_KEY && e.value.Groups? {
      forall g <- e.value.groups, f <- g.entries ensures FitsEntry(f) {
        GoodEntryFits(f, casts);
      }
    } else if e.key == RAW_KEY {
    } else if e.value.TokenValue? {
      GoodTokenFits(e.key, e.value.t);
    } else if e.value.Inner? {
      GoodFits(e.value.c, casts);
    }
  }

  lemma {:induction false} GoodFits(c: Conditions, casts: bool)
    requires GoodConditions(c, casts)
    ensures FitsConditions(c)
    decreases c
  {
    forall e <- c.entries ensures FitsEntry(e) {
      GoodEntryFits(e, casts);
    }
    forall n <- c.nested ensures FitsConditions(n.conditions) {
      GoodFits(n.conditions, casts);
    }
  }

  // ---------------------------------------------------------------------------------------------
  // What the conditions mean
  // ---------------------------------------------------------------------------------------------

  /** Three-valued OR and AND of a list. */
  function AnyOf(ts: seq<Tri>): Tri {
    if T in ts then T else if U in ts then U else F
  }

  function AllOf(ts: seq<Tri>): Tri {
    if F in ts then F else if U in ts then U else T
  }

  function Comparisons(db: Database, left: Value, vs: seq<Value>): seq<Tri> {
    if vs == [] then [] else [db.compare("=", left, vs[0])] + Comparisons(db, left, vs[1..])
  }

  function MeanIn(db: Database, left: Value, vs: seq<Value>): Tri {
    AnyOf(Comparisons(db, left, vs))
  }

  function TupleComparisons(db: Database, left: seq<Value>, tuples: seq<seq<Value>>): seq<Tri> {
    if tuples == [] then [] else [db.TupleEquals(left, tuples[0])] + TupleComparisons(db, left, tuples[1..])
  }

  function Casted(db: Database, v: Value, cast: Option<string>): Value {
    match cast case Some(t) => db.cast(t, v) case None => v
  }

  function AllCasted(db: Database, vs: seq<Value>, cast: Option<string>): seq<Value> {
    if vs == [] then [] else [Casted(db, vs[0], cast)] + AllCasted(db, vs[1..], cast)
  }

  function MeanToken(db: Database, sc: Scope, key: string, t: DbToken, casts: bool): Tri
    decreases t
  {
    var left := db.Column(sc, key);
    match t
    case Plain(v, op) => db.compare(op, left, v)
    case Immediate(text) => db.compare("=", left, db.Column(sc, text))
    case NullToken => db.Truth(left == Null)
    case NotNullToken => db.Truth(left != Null)
    case BoolToken(b) => db.compare("=", left, db.Column(sc, BoolText(b)))
    case ArrayToken(vs) => MeanIn(db, left, vs)
    case Dynamic(func, values) => db.compare("=", left, db.scalar(sc, func, Singletons(values)))
    case RawToken(text) => db.compare("=", left, db.Column(sc, text))
    case TupleIn(columns, tuples) =>
      AnyOf(TupleComparisons(db, db.Columns(sc, columns), tuples))
    case Cast(v, sqlType, op) => db.compare(op, left, Casted(db, v, CastOf(sqlType, casts)))
    case CastArray(vs, sqlType) => MeanIn(db, left, AllCasted(db, vs, CastOf(sqlType, casts)))
    case Subquery(parents, table, selected, conds, negated) =>
      var found := AnyOf(RowMatches(db, db.Columns(sc, parents), db.RowColumns(sc, table, selected), RowMeanings(db, sc, table, conds)));
      if negated then Not3(found) else found
    case ExistsRows(table, conds, negated) =>
      db.Truth((T in RowMeanings(db, sc, table, conds)) != negated)
  }

  /** The conditions of a subquery on each row of its table. */
  function RowMeanings(db: Database, sc: Scope, table: string, conds: seq<SubCond>): (r: seq<Tri>)
    ensures |r| == db.rows(table) && forall i :: 0 <= i < |r| ==> r[i] == MeanSubConds(db, sc + [(table, i)], conds)
    decreases conds, 2
  {
    seq(db.rows(table), i requires 0 <= i < db.rows(table) => MeanSubConds(db, sc + [(table, i)], conds))
  }

  /** Membership asks only the rows that the conditions are true of. */
  function RowMatches(db: Database, left: seq<Value>, row: nat -> seq<Value>, truths: seq<Tri>): (r: seq<Tri>)
    ensures |r| == |truths| && forall i :: 0 <= i < |r| ==> r[i] == if truths[i] == T then db.TupleEquals(left, row(i)) else F
  {
    seq(|truths|, i requires 0 <= i < |truths| => if truths[i] == T then db.TupleEquals(left, row(i)) else F)
  }

  function MeanSubCond(db: Database, sc: Scope, c: SubCond): Tri
    decreases c
  {
    var left := db.Column(sc, c.column);
    match c.value
    case ParentRef(column) => db.compare("=", left, db.Column(sc, column))
    case SubToken(t) => MeanToken(db, sc, c.column, t, true)
    case SubNull => db.Truth(left == Null)
    case SubList(vs) => MeanIn(db, left, vs)
    case SubScalar(v) => db.compare("=", left, v)
  }

  function SubTruths(db: Database, sc: Scope, cs: seq<SubCond>): seq<Tri>
    decreases cs, 0
  {
    if cs == [] then [] else [MeanSubCond(db, sc, cs[0])] + SubTruths(db, sc, cs[1..])
  }

  function MeanSubConds(db: Database, sc: Scope, cs: seq<SubCond>): Tri
    decreases cs, 1
  {
    AllOf(SubTruths(db, sc, cs))
  }

  function MeanRaws(db: Database, sc: Scope, vs: seq<Value>): seq<Tri> {
    if vs == [] then []
    else if vs[0].Text? then [db.holds(sc, vs[0].s, [])] + MeanRaws(db, sc, vs[1..])
    else MeanRaws(db, sc, vs[1..])
  }

  /** A list for a key with its own placeholders: for its one placeholder all of it, else one value for each. An empty
      list is the list of a null. */
  function MeanCustom(db: Database, sc: Scope, key: string, vs: seq<Value>): Tri {
    if Holes(key) == 1 && vs == [] then db.holds(sc, ReplaceFirst(key, "NULL"), []) else db.holds(sc, key, CustomArgs(key, vs))
  }

  /** The truth of an entry; None if it says nothing. */
  function MeanEntry(db: Database, sc: Scope, e: Entry, casts: bool): Option<Tri>
    decreases e, 1
  {
    var key, value := e.key, e.value;
    if key == OR_KEY && value.Groups? then
      var groups := MeanGroups(db, sc, value.groups, casts);
      if groups == [] then None else Some(AnyOf(groups))
    else if key == RAW_KEY then
      match value
      case Scalar(Text(s)) => if s == "" then None else Some(db.holds(sc, s, []))
      case RawPair(sql, params) => if sql == "" then None else Some(db.holds(sc, sql, Singletons(params)))
      case List(vs) => if MeanRaws(db, sc, vs) == [] then None else Some(AllOf(MeanRaws(db, sc, vs)))
      case _ => None
    else if value.TokenValue? then Some(MeanToken(db, sc, key, value.t, casts))
    else if value.Inner? then Meaning(db, sc, value.c, casts)
    else if IsReserved(key) then None
    else
      var left := db.Column(sc, key);
      match value
      case Nul => Some(db.Truth(left == Null))
      case Boolean(b) => Some(if b && HasSpace(key) then db.holds(sc, key, []) else db.compare("=", left, db.Column(sc, BoolText(b))))
      case List(vs) => Some(if HasHole(key) then MeanCustom(db, sc, key, vs) else MeanIn(db, left, vs))
      case Scalar(v) => Some(if HasHole(key) then db.holds(sc, key, [[v]]) else db.compare("=", left, v))
      case _ => None
  }

  /** Groups that say nothing are dropped. */
  function MeanGroups(db: Database, sc: Scope, groups: seq<Record>, casts: bool): seq<Tri>
    decreases groups
  {
    if groups == [] then []
    else
      var entries := MeanEntries(db, sc, groups[0].entries, casts);
      var rest := MeanGroups(db, sc, groups[1..], casts);
      if entries == [] then rest else [AllOf(entries)] + rest
  }

  function MeanEntries(db: Database, sc: Scope, entries: seq<Entry>, casts: bool): seq<Tri>
    decreases entries
  {
    if entries == [] then []
    else
      var first := MeanEntry(db, sc, entries[0], casts);
      var rest := MeanEntries(db, sc, entries[1..], casts);
      if first.None? then rest else [first.value] + rest
  }

  function MeanNestedOne(db: Database, sc: Scope, n: Nested, casts: bool): Option<Tri>
    decreases n
  {
    Meaning(db, sc, n.conditions, casts)
  }

  function MeanNested(db: Database, sc: Scope, nested: seq<Nested>, casts: bool): seq<Tri>
    decreases nested
  {
    if nested == [] then []
    else
      var first := MeanNestedOne(db, sc, nested[0], casts);
      var rest := MeanNested(db, sc, nested[1..], casts);
      if first.None? then rest else [first.value] + rest
  }

  function Meaning(db: Database, sc: Scope, c: Conditions, casts: bool): Option<Tri>
    decreases c
  {
    var all := MeanEntries(db, sc, c.entries, casts) + MeanNested(db, sc, c.nested, casts);
    if all == [] then None else Some(if c.operator.And? then AllOf(all) else AnyOf(all))
  }

  // ---------------------------------------------------------------------------------------------
  // What is said is what is meant
  // ---------------------------------------------------------------------------------------------

  lemma AllOfAppend(a: seq<Tri>, b: seq<Tri>)
    ensures AllOf(a + b) == And3(AllOf(a), AllOf(b))
    ensures AnyOf(a + b) == Or3(AnyOf(a), AnyOf(b))
  {
  }

  lemma AllOfCons(t: Tri, ts: seq<Tri>)
    ensures AllOf([t] + ts) == And3(t, AllOf(ts))
    ensures AnyOf([t] + ts) == Or3(t, AnyOf(ts))
  {
    AllOfAppend([t], ts);
    assert AllOf([t]) == t && AnyOf([t]) == t;
  }

  lemma {:induction false} AmongIsIn(db: Database, sc: Scope, left: Value, vs: seq<Value>, cast: Option<string>)
    ensures db.Among(left, db.OfOperands(sc, Bounds(vs, cast))) == MeanIn(db, left, AllCasted(db, vs, cast))
  {
    if vs != [] {
      var values := AllCasted(db, vs, cast);
      AmongIsIn(db, sc, left, vs[1..], cast);
      assert values[1..] == AllCasted(db, vs[1..], cast) && Bounds(vs, cast)[1..] == Bounds(vs[1..], cast);
      AllOfCons(db.compare("=", left, values[0]), Comparisons(db, left, values[1..]));
    }
  }

  lemma {:induction false} AllCastedNone(db: Database, vs: seq<Value>)
    ensures AllCasted(db, vs, None) == vs
  {
    if vs != [] {
      AllCastedNone(db, vs[1..]);
    }
  }

  lemma {:induction false} AmongTuplesIsIn(db: Database, left: seq<Value>, tuples: seq<seq<Value>>)
    ensures db.AmongTuples(left, tuples) == AnyOf(TupleComparisons(db, left, tuples))
  {
    if tuples != [] {
      AmongTuplesIsIn(db, left, tuples[1..]);
      AllOfCons(db.TupleEquals(left, tuples[0]), TupleComparisons(db, left, tuples[1..]));
    }
  }

  lemma {:induction false} SomeRowIsIn(db: Database, said: nat -> Tri, meant: seq<Tri>, n: nat)
    requires n <= |meant| && forall i: nat :: i < n ==> said(i) == meant[i]
    ensures db.SomeRow(said, n) <==> T in meant[..n]
  {
    if n > 0 {
      SomeRowIsIn(db, said, meant, n - 1);
      assert meant[..n] == meant[..n - 1] + [meant[n - 1]];
    }
  }

  lemma {:induction false} AmongRowsIsIn(db: Database, left: seq<Value>, row: nat -> seq<Value>, said: nat -> Tri, meant: seq<Tri>, n: nat)
    requires n <= |meant| && forall i: nat :: i < n ==> meant[i] == if said(i) == T then db.TupleEquals(left, row(i)) else F
    ensures db.AmongRows(left, row, said, n) == AnyOf(meant[..n])
  {
    if n > 0 {
      AmongRowsIsIn(db, left, row, said, meant, n - 1);
      assert meant[..n] == meant[..n - 1] + [meant[n - 1]];
      AllOfAppend(meant[..n - 1], [meant[n - 1]]);
      assert AnyOf([meant[n - 1]]) == meant[n - 1];
    }
  }

  lemma {:induction false} TokenMeans(db: Database, sc: Scope, key: string, t: DbToken, casts: bool)
    ensures db.OfPrim(sc, TokenPrim(key, t, casts)) == MeanToken(db, sc, key, t, casts)
    decreases t, 1
  {
    var left := db.Column(sc, key);
    match t
    case ArrayToken(vs) =>
      AmongIsIn(db, sc, left, vs, None);
      AllCastedNone(db, vs);
    case CastArray(vs, sqlType) =>
      AmongIsIn(db, sc, left, vs, CastOf(sqlType, casts));
    case TupleIn(columns, tuples) =>
      AmongTuplesIsIn(db, db.Columns(sc, columns), tuples);
    case Subquery(parents, table, selected, conds, negated) =>
      SubqueryMeans(db, sc, key, t, casts);
    case ExistsRows(table, conds, negated) =>
      ExistsMeans(db, sc, key, t, casts);
    case _ =>
  }

  lemma {:induction false} RowsMean(db: Database, sc: Scope, table: string, conds: seq<SubCond>)
    ensures forall i: nat :: i < db.rows(table) ==> db.RowTruth(sc, table, SubPrims(conds))(i) == RowMeanings(db, sc, table, conds)[i]
    decreases conds, 1
  {
    forall i: nat | i < db.rows(table) ensures db.RowTruth(sc, table, SubPrims(conds))(i) == RowMeanings(db, sc, table, conds)[i] {
      SubCondsMean(db, sc + [(table, i)], conds);
    }
  }

  lemma {:induction false} SubqueryMeans(db: Database, sc: Scope, key: string, t: DbToken, casts: bool)
    requires t.Subquery?
    ensures db.OfPrim(sc, TokenPrim(key, t, casts)) == MeanToken(db, sc, key, t, casts)
    decreases t, 0
  {
    var n := db.rows(t.table);
    var said, row := db.RowTruth(sc, t.table, SubPrims(t.conds)), db.RowColumns(sc, t.table, t.selected);
    var left := db.Columns(sc, t.parents);
    var meant := RowMatches(db, left, row, RowMeanings(db, sc, t.table, t.conds));
    RowsMean(db, sc, t.table, t.conds);
    AmongRowsIsIn(db, left, row, said, meant, n);
    assert meant[..n] == meant;
  }

  lemma {:induction false} ExistsMeans(db: Database, sc: Scope, key: string, t: DbToken, casts: bool)
    requires t.ExistsRows?
    ensures db.OfPrim(sc, TokenPrim(key, t, casts)) == MeanToken(db, sc, key, t, casts)
    decreases t, 0
  {
    var n := db.rows(t.table);
    var meant := RowMeanings(db, sc, t.table, t.conds);
    RowsMean(db, sc, t.table, t.conds);
    SomeRowIsIn(db, db.RowTruth(sc, t.table, SubPrims(t.conds)), meant, n);
    assert meant[..n] == meant;
  }

  lemma {:induction false} SubCondsMean(db: Database, sc: Scope, cs: seq<SubCond>)
    ensures db.OfConj(sc, SubPrims(cs)) == MeanSubConds(db, sc, cs)
    decreases cs, 0
  {
    if cs != [] {
      SubCondMeans(db, sc, cs[0]);
      SubCondsMean(db, sc, cs[1..]);
      AllOfCons(MeanSubCond(db, sc, cs[0]), SubTruths(db, sc, cs[1..]));
      assert SubPrims(cs)[1..] == SubPrims(cs[1..]);
    }
  }

  lemma {:induction false} SubCondMeans(db: Database, sc: Scope, c: SubCond)
    ensures db.OfPrim(sc, SubPrim(c)) == MeanSubCond(db, sc, c)
    decreases c
  {
    match c.value
    case SubToken(t) => TokenMeans(db, sc, c.column, t, true);
    case SubList(vs) =>
      AmongIsIn(db, sc, db.Column(sc, c.column), vs, None);
      AllCastedNone(db, vs);
    case _ =>
  }

  // Conjunctions and alternatives.

  function Truths(db: Database, sc: Scope, parts: seq<seq<Prim>>): seq<Tri> {
    if parts == [] then [] else [db.OfConj(sc, parts[0])] + Truths(db, sc, parts[1..])
  }

  lemma {:induction false} TruthsAppend(db: Database, sc: Scope, a: seq<seq<Prim>>, b: seq<seq<Prim>>)
    ensures Truths(db, sc, a + b) == Truths(db, sc, a) + Truths(db, sc, b)
  {
    if a == [] {
      assert a + b == b;
    } else {
      assert (a + b)[1..] == a[1..] + b;
      TruthsAppend(db, sc, a[1..], b);
    }
  }

  lemma {:induction false} ConjAppend(db: Database, sc: Scope, a: seq<Prim>, b: seq<Prim>)
    ensures db.OfConj(sc, a + b) == And3(db.OfConj(sc, a), db.OfConj(sc, b))
  {
    if a == [] {
      assert a + b == b;
    } else {
      assert (a + b)[1..] == a[1..] + b;
      ConjAppend(db, sc, a[1..], b);
    }
  }

  /** Joined by AND, the parts read as one conjunction that is true as all of them are. */
  lemma {:induction false} ConcatMeansAll(db: Database, sc: Scope, parts: seq<seq<Prim>>)
    ensures db.OfConj(sc, Concat(parts)) == AllOf(Truths(db, sc, parts))
  {
    if parts != [] {
      ConcatMeansAll(db, sc, parts[1..]);
      ConjAppend(db, sc, parts[0], Concat(parts[1..]));
      AllOfCons(db.OfConj(sc, parts[0]), Truths(db, sc, parts[1..]));
    }
  }

  /** Joined by OR, each part is an alternative. */
  lemma {:induction false} ConjsMeanAny(db: Database, sc: Scope, parts: seq<seq<Prim>>)
    ensures db.OfDisj(sc, Conjs(parts)) == AnyOf(Truths(db, sc, parts))
  {
    if parts != [] {
      ConjsMeanAny(db, sc, parts[1..]);
      AllOfCons(db.OfConj(sc, parts[0]), Truths(db, sc, parts[1..]));
      assert Conjs(parts)[1..] == Conjs(parts[1..]);
    }
  }

  lemma OneConj(db: Database, sc: Scope, c: seq<Prim>)
    ensures db.OfDisj(sc, [Conj(c)]) == db.OfConj(sc, c)
  {
    assert [Conj(c)][1..] == [];
  }

  lemma OnePrim(db: Database, sc: Scope, p: Prim)
    ensures db.OfConj(sc, [p]) == db.OfPrim(sc, p)
  {
    assert [p][1..] == [];
  }

  lemma {:induction false} RawsMean(db: Database, sc: Scope, vs: seq<Value>)
    ensures db.OfConj(sc, RawParts(vs)) == AllOf(MeanRaws(db, sc, vs))
    ensures RawParts(vs) == [] <==> MeanRaws(db, sc, vs) == []
  {
    if vs != [] {
      RawsMean(db, sc, vs[1..]);
      if vs[0].Text? {
        AllOfCons(db.holds(sc, vs[0].s, []), MeanRaws(db, sc, vs[1..]));
        assert RawParts(vs)[1..] == RawParts(vs[1..]);
      } else {
        assert RawParts(vs) == RawParts(vs[1..]) && MeanRaws(db, sc, vs) == MeanRaws(db, sc, vs[1..]);
      }
    }
  }

  /** A part says something when the entry means something, and then what the entry means. */
  ghost predicate Says(db: Database, sc: Scope, part: seq<Prim>, meaning: Option<Tri>) {
    && (part == [] <==> meaning.None?)
    && (meaning.Some? ==> db.OfConj(sc, part) == meaning.value)
  }

  lemma OneSays(db: Database, sc: Scope, p: Prim)
    ensures Says(db, sc, [p], Some(db.OfPrim(sc, p)))
  {
    OnePrim(db, sc, p);
  }

  lemma RawMeans(db: Database, sc: Scope, value: Cond, casts: bool)
    ensures Says(db, sc, EntryConj(RAW_KEY, value, casts), MeanEntry(db, sc, Entry(RAW_KEY, value), casts))
  {
    match value
    case Scalar(Text(s)) => OneSays(db, sc, Fragment(s, []));
    case RawPair(sql, params) => OneSays(db, sc, Fragment(sql, Singletons(params)));
    case List(vs) => RawsMean(db, sc, vs);
    case _ =>
  }

  /** An ordinary key with an ordinary value. */
  lemma ValueMeans(db: Database, sc: Scope, key: string, value: Cond, casts: bool)
    requires !IsReserved(key) && (value.Nul? || value.Boolean? || value.List? || value.Scalar?)
    ensures Says(db, sc, EntryConj(key, value, casts), MeanEntry(db, sc, Entry(key, value), casts))
  {
    assert key != OR_KEY && key != RAW_KEY;
    var part := EntryConj(key, value, casts);
    assert part == [part[0]];
    OneSays(db, sc, part[0]);
    if value.List? && !HasHole(key) {
      AmongIsIn(db, sc, db.Column(sc, key), value.vs, None);
      AllCastedNone(db, value.vs);
    }
  }

  lemma {:induction false} EntryMeans(db: Database, sc: Scope, e: Entry, casts: bool)
    requires GoodEntry(e, casts)
    ensures Says(db, sc, EntryConj(e.key, e.value, casts), MeanEntry(db, sc, e, casts))
    decreases e, 2
  {
    var key, value := e.key, e.value;
    if key == OR_KEY && value.Groups? {
      GroupsMean(db, sc, value.groups, casts);
      OneSays(db, sc, Group(GroupConjs(value.groups, casts)));
    } else if key == RAW_KEY {
      RawMeans(db, sc, value, casts);
    } else if value.TokenValue? {
      TokenMeans(db, sc, key, value.t, casts);
      OneSays(db, sc, TokenPrim(key, value.t, casts));
    } else if value.Inner? {
      ConditionsMean(db, sc, value.c, casts);
      OneSays(db, sc, Group(ConditionsDisj(value.c, casts)));
    } else if !IsReserved(key) {
      ValueMeans(db, sc, key, value, casts);
    }
  }

  lemma {:induction false} GroupsMean(db: Database, sc: Scope, groups: seq<Record>, casts: bool)
    requires forall g <- groups :: forall f <- g.entries :: GoodEntry(f, casts)
    ensures db.OfDisj(sc, GroupConjs(groups, casts)) == AnyOf(MeanGroups(db, sc, groups, casts))
    ensures GroupConjs(groups, casts) == [] <==> MeanGroups(db, sc, groups, casts) == []
    decreases groups
  {
    if groups != [] {
      assert groups[0] in groups;
      EntriesMean(db, sc, groups[0].entries, casts);
      GroupsMean(db, sc, groups[1..], casts);
      var parts, rest := EntriesParts(groups[0].entries, casts), GroupConjs(groups[1..], casts);
      if parts != [] {
        var group := Group([Conj(Concat(parts))]);
        ConcatMeansAll(db, sc, parts);
        OneConj(db, sc, Concat(parts));
        OnePrim(db, sc, group);
        assert GroupConjs(groups, casts) == [Conj([group])] + rest;
        assert GroupConjs(groups, casts)[1..] == rest;
        AllOfCons(db.OfPrim(sc, group), MeanGroups(db, sc, groups[1..], casts));
      }
    }
  }

  lemma {:induction false} EntriesMean(db: Database, sc: Scope, entries: seq<Entry>, casts: bool)
    requires forall e <- entries :: GoodEntry(e, casts)
    ensures Truths(db, sc, EntriesParts(entries, casts)) == MeanEntries(db, sc, entries, casts)
    decreases entries
  {
    if entries != [] {
      assert entries[0] in entries;
      EntryMeans(db, sc, entries[0], casts);
      EntriesMean(db, sc, entries[1..], casts);
      var first := EntryConj(entries[0].key, entries[0].value, casts);
      TruthsAppend(db, sc, [first], EntriesParts(entries[1..], casts));
      assert [first][1..] == [];
    }
  }

  lemma {:induction false} NestedMeans(db: Database, sc: Scope, nested: seq<Nested>, casts: bool)
    requires forall n <- nested :: GoodConditions(n.conditions, casts)
    ensures Truths(db, sc, NestedParts(nested, casts)) == MeanNested(db, sc, nested, casts)
    decreases nested
  {
    if nested != [] {
      assert nested[0] in nested;
      NestedOneMeans(db, sc, nested[0], casts);
      NestedMeans(db, sc, nested[1..], casts);
      var first := NestedConj(nested[0], casts);
      TruthsAppend(db, sc, [first], NestedParts(nested[1..], casts));
      assert [first][1..] == [];
    }
  }

  lemma {:induction false} NestedOneMeans(db: Database, sc: Scope, n: Nested, casts: bool)
    requires GoodConditions(n.conditions, casts)
    ensures Says(db, sc, NestedConj(n, casts), MeanNestedOne(db, sc, n, casts))
    decreases n
  {
    ConditionsMean(db, sc, n.conditions, casts);
    OnePrim(db, sc, Group(ConditionsDisj(n.conditions, casts)));
  }

  /** What a condition tree compiles to is empty exactly when the tree says nothing, and otherwise has, on every
      row, the three-valued truth of the tree. */
  lemma {:induction false} ConditionsMean(db: Database, sc: Scope, c: Conditions, casts: bool)
    requires GoodConditions(c, casts)
    ensures
      var d, m := ConditionsDisj(c, casts), Meaning(db, sc, c, casts);
      (d == [] <==> m.None?) && (m.Some? ==> db.OfDisj(sc, d) == m.value)
    decreases c
  {
    EntriesMean(db, sc, c.entries, casts);
    NestedMeans(db, sc, c.nested, casts);
    var parts := EntriesParts(c.entries, casts) + NestedParts(c.nested, casts);
    TruthsAppend(db, sc, EntriesParts(c.entries, casts), NestedParts(c.nested, casts));
    ConcatMeansAll(db, sc, parts);
    ConjsMeanAny(db, sc, parts);
    OneConj(db, sc, Concat(parts));
    assert Truths(db, sc, parts) == [] <==> parts == [];
  }

  // ---------------------------------------------------------------------------------------------
  // What is said can be written and read
  // ---------------------------------------------------------------------------------------------

  lemma {:induction false} NoHoleNoPlaceholder(text: string)
    ensures HasHole(text) <==> Holes(text) > 0
  {
    if text != "" {
      NoHoleNoPlaceholder(text[1..]);
      assert text == [text[0]] + text[1..];
    }
  }

  lemma {:induction false} ReplaceFirstHoles(key: string, text: string)
    requires Holes(key) > 0
    ensures Holes(ReplaceFirst(key, text)) == Holes(key) - 1 + Holes(text)
  {
    if key[0] == '?' {
      HolesOfJoined(text, key[1..]);
    } else {
      ReplaceFirstHoles(key[1..], text);
    }
  }

  lemma {:induction false} HolesOfJoined(a: string, b: string)
    ensures Holes(a + b) == Holes(a) + Holes(b)
  {
    if a == "" {
      assert a + b == b;
    } else {
      assert (a + b)[1..] == a[1..] + b;
      HolesOfJoined(a[1..], b);
    }
  }

  lemma CustomIsGood(key: string, vs: seq<Value>)
    requires HasHole(key) && (Holes(key) == 1 || Holes(key) == |vs|)
    ensures GoodPrim(CustomPrim(key, vs))
  {
    NoHoleNoPlaceholder(key);
    SingletonsGood(vs);
    ReplaceFirstHoles(key, "NULL");
    assert Holes("NULL") == 0;
  }

  lemma {:induction false} SingletonsGood(vs: seq<Value>)
    ensures |Singletons(vs)| == |vs| && forall i :: 0 <= i < |vs| ==> Singletons(vs)[i] == [vs[i]]
    ensures Concat(Singletons(vs)) == vs
  {
    if vs != [] {
      SingletonsGood(vs[1..]);
      assert Singletons(vs)[1..] == Singletons(vs[1..]);
    }
  }

  lemma {:induction false} BoundsGood(vs: seq<Value>, cast: Option<string>)
    ensures |Bounds(vs, cast)| == |vs| && forall i :: 0 <= i < |vs| ==> Bounds(vs, cast)[i] == Bound(vs[i], cast)
  {
    if vs != [] {
      BoundsGood(vs[1..], cast);
    }
  }

  lemma BoolTextIsName(b: bool)
    ensures IsName(BoolText(b))
  {
    assert BoolText(b)[1..] == (if b then "RUE" else "ALSE");
    assert BoolText(b)[2..] == (if b then "UE" else "LSE");
    assert BoolText(b)[3..] == (if b then "E" else "SE");
    NoHoleNoPlaceholder(BoolText(b));
  }

  lemma {:induction false} TokenIsGood(key: string, t: DbToken, casts: bool)
    requires GoodToken(key, t)
    ensures GoodPrim(TokenPrim(key, t, casts))
    decreases t
  {
    match t
    case ArrayToken(vs) => BoundsGood(vs, None);
    case CastArray(vs, sqlType) => BoundsGood(vs, CastOf(sqlType, casts));
    case BoolToken(b) => BoolTextIsName(b);
    case Dynamic(func, values) => SingletonsGood(values);
    case Subquery(_, _, _, conds, _) => SubCondsAreGood(conds);
    case ExistsRows(_, conds, _) => SubCondsAreGood(conds);
    case _ =>
  }

  lemma {:induction false} SubCondIsGood(c: SubCond)
    requires GoodSubCond(c)
    ensures GoodPrim(SubPrim(c))
    decreases c
  {
    match c.value
    case SubToken(t) => TokenIsGood(c.column, t, true);
    case SubList(vs) => BoundsGood(vs, None);
    case _ =>
  }

  lemma {:induction false} SubCondsAreGood(cs: seq<SubCond>)
    requires forall c <- cs :: GoodSubCond(c)
    ensures forall q <- SubPrims(cs) :: GoodPrim(q)
    decreases cs
  {
    if cs != [] {
      assert cs[0] in cs;
      SubCondIsGood(cs[0]);
      SubCondsAreGood(cs[1..]);
    }
  }

  predicate GoodPart(part: seq<Prim>) {
    forall p <- part :: GoodPrim(p)
  }

  predicate GoodParts(parts: seq<seq<Prim>>) {
    forall i :: 0 <= i < |parts| ==> parts[i] != [] && GoodPart(parts[i])
  }

  lemma {:induction false} RawsAreGood(vs: seq<Value>)
    requires forall v <- vs :: v.Text? ==> IsName(v.s)
    ensures GoodPart(RawParts(vs))
  {
    if vs != [] {
      assert vs[0] in vs;
      RawsAreGood(vs[1..]);
    }
  }

  lemma RawIsGood(value: Cond, casts: bool)
    requires GoodEntry(Entry(RAW_KEY, value), casts)
    ensures GoodPart(EntryConj(RAW_KEY, value, casts))
  {
    match value
    case RawPair(_, params) => SingletonsGood(params);
    case List(vs) => RawsAreGood(vs);
    case _ =>
  }

  lemma ListIsGood(key: string, vs: seq<Value>, casts: bool)
    requires !IsReserved(key) && GoodEntry(Entry(key, List(vs)), casts)
    ensures EntryConj(key, List(vs), casts) == [if HasHole(key) then CustomPrim(key, vs) else if vs == [] then Never else InList(key, Bounds(vs, None))]
    ensures GoodPart(EntryConj(key, List(vs), casts))
  {
    NoHoleNoPlaceholder(key);
    assert key != OR_KEY && key != RAW_KEY;
    if HasHole(key) {
      CustomIsGood(key, vs);
    } else {
      BoundsGood(vs, None);
    }
  }

  lemma ValueIsGood(key: string, value: Cond, casts: bool)
    requires !IsReserved(key) && (value.Nul? || value.Boolean? || value.Scalar?)
    requires GoodEntry(Entry(key, value), casts)
    ensures GoodPart(EntryConj(key, value, casts))
  {
    NoHoleNoPlaceholder(key);
    assert key != OR_KEY && key != RAW_KEY;
    if value.Boolean? {
      BoolTextIsName(value.b);
    }
  }

  lemma {:induction false} EntryIsGood(e: Entry, casts: bool)
    requires GoodEntry(e, casts)
    ensures GoodPart(EntryConj(e.key, e.value, casts))
    decreases e, 2
  {
    var key, value := e.key, e.value;
    if key == OR_KEY && value.Groups? {
      GroupsAreGood(value.groups, casts);
    } else if key == RAW_KEY {
      RawIsGood(value, casts);
    } else if value.TokenValue? {
      TokenIsGood(key, value.t, casts);
    } else if value.Inner? {
      ConditionsAreGood(value.c, casts);
    } else if !IsReserved(key) && value.List? {
      ListIsGood(key, value.vs, casts);
    } else if !IsReserved(key) {
      ValueIsGood(key, value, casts);
    }
  }

  lemma {:induction false} ConcatIsGood(parts: seq<seq<Prim>>)
    requires GoodParts(parts)
    ensures GoodPart(Concat(parts)) && (parts != [] ==> Concat(parts) != [])
  {
    if parts != [] {
      ConcatIsGood(parts[1..]);
    }
  }

  lemma {:induction false} ConjsAreGood(parts: seq<seq<Prim>>)
    requires GoodParts(parts)
    ensures |Conjs(parts)| == |parts| && forall i :: 0 <= i < |parts| ==> Conjs(parts)[i] == Conj(parts[i])
  {
    if parts != [] {
      ConjsAreGood(parts[1..]);
    }
  }

  lemma {:induction false} GroupsAreGood(groups: seq<Record>, casts: bool)
    requires forall g <- groups :: forall f <- g.entries :: GoodEntry(f, casts)
    ensures forall c <- GroupConjs(groups, casts) :: c.prims != [] && GoodPart(c.prims)
    decreases groups
  {
    if groups != [] {
      assert groups[0] in groups;
      EntriesAreGood(groups[0].entries, casts);
      GroupsAreGood(groups[1..], casts);
      ConcatIsGood(EntriesParts(groups[0].entries, casts));
    }
  }

  lemma {:induction false} EntriesAreGood(entries: seq<Entry>, casts: bool)
    requires forall e <- entries :: GoodEntry(e, casts)
    ensures GoodParts(EntriesParts(entries, casts))
    decreases entries
  {
    if entries != [] {
      assert entries[0] in entries;
      EntryIsGood(entries[0], casts);
      EntriesAreGood(entries[1..], casts);
    }
  }

  lemma {:induction false} NestedAreGood(nested: seq<Nested>, casts: bool)
    requires forall n <- nested :: GoodConditions(n.conditions, casts)
    ensures GoodParts(NestedParts(nested, casts))
    decreases nested
  {
    if nested != [] {
      assert nested[0] in nested;
      NestedOneIsGood(nested[0], casts);
      NestedAreGood(nested[1..], casts);
    }
  }

  lemma {:induction false} NestedOneIsGood(n: Nested, casts: bool)
    requires GoodConditions(n.conditions, casts)
    ensures GoodPart(NestedConj(n, casts))
    decreases n
  {
    ConditionsAreGood(n.conditions, casts);
  }

  lemma {:induction false} ConditionsAreGood(c: Conditions, casts: bool)
    requires GoodConditions(c, casts)
    ensures forall d <- ConditionsDisj(c, casts) :: GoodConj(d.prims)
    decreases c
  {
    EntriesAreGood(c.entries, casts);
    NestedAreGood(c.nested, casts);
    var parts := EntriesParts(c.entries, casts) + NestedParts(c.nested, casts);
    assert GoodParts(parts);
    ConcatIsGood(parts);
    ConjsAreGood(parts);
  }

  /** The text of a condition tree. */
  function ConditionsText(c: Conditions, casts: bool): seq<SqlText.Token> {
    WriteDisj(ConditionsDisj(c, casts))
  }

  /** The text of a condition tree, read back under SQL's precedence with its parameters bound to its holes in
      order, has on every row the truth of the tree; and it is empty exactly when the tree says nothing. */
  lemma CompiledMeans(db: Database, sc: Scope, c: Conditions, casts: bool)
    requires GoodConditions(c, casts)
    ensures
      var text, meaning := ConditionsText(c, casts), Meaning(db, sc, c, casts);
      && (text == [] <==> meaning.None?)
      && (text != [] ==>
        var read := ReadDisj(text, HolesOf(text));
        read.Got? && read.ts == [] && read.ps == [] && db.OfDisj(sc, read.got) == meaning.value)
  {
    var d := ConditionsDisj(c, casts);
    ConditionsAreGood(c, casts);
    ConditionsMean(db, sc, c, casts);
    if d != [] {
      assert GoodDisj(d);
      var text := WriteDisj(d);
      DisjRead(d, text, HolesOf(text), [], []);
    }
  }

  // ---------------------------------------------------------------------------------------------
  // The compiler: text is returned, parameters are appended to a list that the caller shares
  // ---------------------------------------------------------------------------------------------

  class ParamList {
    var items: seq<Value>

    constructor ()
      ensures items == []
    {
      items := [];
    }

    method Push(v: Value)
      modifies this
      ensures items == old(items) + [v]
    {
      items := items + [v];
    }
  }

  function Marks(vs: seq<Value>, suffix: seq<SqlText.Token>): seq<seq<SqlText.Token>> {
    if vs == [] then [] else [[Hole(vs[0])] + suffix] + Marks(vs[1..], suffix)
  }

  lemma {:induction false} MarksAppend(a: seq<Value>, b: seq<Value>, suffix: seq<SqlText.Token>)
    ensures Marks(a + b, suffix) == Marks(a, suffix) + Marks(b, suffix)
  {
    if a == [] {
      assert a + b == b;
    } else {
      assert (a + b)[1..] == a[1..] + b;
      MarksAppend(a[1..], b, suffix);
    }
  }

  /** `arr.map((v) => { params.push(v); return placeholder; })`. */
  method PushMarks(vs: seq<Value>, suffix: seq<SqlText.Token>, params: ParamList) returns (marks: seq<seq<SqlText.Token>>)
    modifies params
    ensures marks == Marks(vs, suffix) && params.items == old(params.items) + vs
  {
    marks := [];
    for i := 0 to |vs|
      invariant marks == Marks(vs[..i], suffix) && params.items == old(params.items) + vs[..i]
    {
      params.Push(vs[i]);
      marks := marks + [[Hole(vs[i])] + suffix];
      MarksAppend(vs[..i], [vs[i]], suffix);
      assert vs[..i + 1] == vs[..i] + [vs[i]];
      assert [vs[i]][1..] == [];
    }
    assert vs[..|vs|] == vs;
  }

  function CastSuffix(cast: Option<string>): seq<SqlText.Token> {
    match cast case Some(t) => [CastTo(t)] case None => []
  }

  lemma {:induction false} MarksAreOperands(vs: seq<Value>, cast: Option<string>)
    ensures Separated(Marks(vs, CastSuffix(cast)), Comma) == WriteOperands(Bounds(vs, cast))
    ensures HolesOf(WriteOperands(Bounds(vs, cast))) == vs
  {
    if vs != [] {
      MarksAreOperands(vs[1..], cast);
      MarkIsOperand(vs[0], cast);
      MarksSame(vs, cast);
      OperandsHold(vs, cast);
    }
  }

  lemma MarkIsOperand(v: Value, cast: Option<string>)
    ensures [Hole(v)] + CastSuffix(cast) == WriteOperand(Bound(v, cast))
    ensures HolesOf(WriteOperand(Bound(v, cast))) == [v]
  {
    HolesOne(Hole(v));
    HolesAround([], [Hole(v)], CastSuffix(cast));
    assert [] + [Hole(v)] + CastSuffix(cast) == [Hole(v)] + CastSuffix(cast);
  }

  lemma MarksSame(vs: seq<Value>, cast: Option<string>)
    requires vs != [] && Separated(Marks(vs[1..], CastSuffix(cast)), Comma) == WriteOperands(Bounds(vs[1..], cast))
    ensures Separated(Marks(vs, CastSuffix(cast)), Comma) == WriteOperands(Bounds(vs, cast))
  {
    var marks, operands := Marks(vs, CastSuffix(cast)), Bounds(vs, cast);
    MarkIsOperand(vs[0], cast);
    BoundsGood(vs, cast);
    BoundsGood(vs[1..], cast);
    assert marks[1..] == Marks(vs[1..], CastSuffix(cast)) && operands[1..] == Bounds(vs[1..], cast);
  }

  lemma OperandsHold(vs: seq<Value>, cast: Option<string>)
    requires vs != [] && HolesOf(WriteOperands(Bounds(vs[1..], cast))) == vs[1..]
    ensures HolesOf(WriteOperands(Bounds(vs, cast))) == vs
  {
    var operands := Bounds(vs, cast);
    MarkIsOperand(vs[0], cast);
    BoundsGood(vs, cast);
    assert operands[1..] == Bounds(vs[1..], cast);
    assert [vs[0]] + vs[1..] == vs;
    if |vs| > 1 {
      OperandsHoles(operands);
    }
  }

  lemma {:induction false} MarksAreHoles(vs: seq<Value>)
    ensures Separated(Marks(vs, []), Comma) == HoleList(vs)
  {
    if vs != [] {
      MarksAreHoles(vs[1..]);
      assert [Hole(vs[0])] + [] == [Hole(vs[0])];
      assert Marks(vs, [])[1..] == Marks(vs[1..], []);
    }
  }

  /** `key IN (?, ?, ...)`, or a condition that is never true. */
  method CompileIn(key: string, vs: seq<Value>, cast: Option<string>, params: ParamList) returns (sql: seq<SqlText.Token>)
    modifies params
    ensures sql == WritePrim(if vs == [] then Never else InList(key, Bounds(vs, cast)))
    ensures HolesOf(sql) == vs && params.items == old(params.items) + vs
  {
    if vs == [] {
      HolesOne(NeverTok);
      return [NeverTok];
    }
    var marks := PushMarks(vs, CastSuffix(cast), params);
    MarksAreOperands(vs, cast);
    sql := [Word(key), InTok(false), Open] + Separated(marks, Comma) + [Close];
    HolesAround([Word(key), InTok(false), Open], WriteOperands(Bounds(vs, cast)), [Close]);
  }

  function TupleMarks(tuples: seq<seq<Value>>): seq<seq<SqlText.Token>> {
    if tuples == [] then [] else [[Open] + HoleList(tuples[0]) + [Close]] + TupleMarks(tuples[1..])
  }

  lemma {:induction false} TupleMarksAppend(a: seq<seq<Value>>, b: seq<seq<Value>>)
    ensures TupleMarks(a + b) == TupleMarks(a) + TupleMarks(b)
  {
    if a == [] {
      assert a + b == b;
    } else {
      assert (a + b)[1..] == a[1..] + b;
      TupleMarksAppend(a[1..], b);
    }
  }

  lemma {:induction false} TupleMarksAreTuples(tuples: seq<seq<Value>>)
    ensures Separated(TupleMarks(tuples), Comma) == WriteTuples(tuples)
  {
    if tuples != [] {
      TupleMarksAreTuples(tuples[1..]);
      assert TupleMarks(tuples)[1..] == TupleMarks(tuples[1..]);
      if |tuples| > 1 {
        assert [Open] + HoleList(tuples[0]) + [Close] + [Comma] == [Open] + HoleList(tuples[0]) + [Close, Comma];
      }
    }
  }

  function Words(names: seq<string>): seq<seq<SqlText.Token>> {
    if names == [] then [] else [[Word(names[0])]] + Words(names[1..])
  }

  lemma {:induction false} WordsAreNames(names: seq<string>)
    ensures Separated(Words(names), Comma) == WriteNames(names)
  {
    if names != [] {
      WordsAreNames(names[1..]);
      assert Words(names)[1..] == Words(names[1..]);
      assert [Word(names[0])] + [Comma] == [Word(names[0]), Comma];
    }
  }

  method PushTuples(tuples: seq<seq<Value>>, params: ParamList) returns (parts: seq<seq<SqlText.Token>>)
    modifies params
    ensures parts == TupleMarks(tuples) && params.items == old(params.items) + Concat(tuples)
  {
    parts := [];
    for i := 0 to |tuples|
      invariant parts == TupleMarks(tuples[..i]) && params.items == old(params.items) + Concat(tuples[..i])
    {
      var marks := PushMarks(tuples[i], [], params);
      MarksAreHoles(tuples[i]);
      parts := parts + [[Open] + Separated(marks, Comma) + [Close]];
      assert tuples[..i + 1] == tuples[..i] + [tuples[i]];
      TupleMarksAppend(tuples[..i], [tuples[i]]);
      ConcatAppend(tuples[..i], [tuples[i]]);
      assert [tuples[i]][1..] == [];
    }
    assert tuples[..|tuples|] == tuples;
  }

  /** `(a, b) IN ((?, ?), ...)`, or a condition that is never true. */
  method CompileTuples(columns: seq<string>, tuples: seq<seq<Value>>, params: ParamList) returns (sql: seq<SqlText.Token>)
    modifies params
    ensures sql == WritePrim(if tuples == [] then Never else InTuples(columns, tuples))
    ensures HolesOf(sql) == Concat(tuples) && params.items == old(params.items) + Concat(tuples)
  {
    if tuples == [] {
      HolesOne(NeverTok);
      return [NeverTok];
    }
    var parts := PushTuples(tuples, params);
    TupleMarksAreTuples(tuples);
    WordsAreNames(columns);
    NamesHaveNoHoles(columns);
    TuplesHoles(tuples);
    var open := [Open] + Separated(Words(columns), Comma) + [Close, InTok(false), Open];
    sql := open + Separated(parts, Comma) + [Close];
    HolesAround(open, WriteTuples(tuples), [Close]);
  }

  /** What every part of the compiler does: it returns the text of p, and appends to the shared list one
      parameter for each hole of that text, in order. */
  twostate predicate Compiled(params: ParamList, sql: seq<SqlText.Token>, p: Prim)
    reads params
  {
    sql == WritePrim(p) && params.items == old(params.items) + HolesOf(sql)
  }

  method CompileCompare(key: string, op: string, v: Value, cast: Option<string>, params: ParamList) returns (sql: seq<SqlText.Token>)
    modifies params
    ensures Compiled(params, sql, Compare(key, op, Bound(v, cast)))
  {
    params.Push(v);
    sql := [Word(key), Operator(op)] + ([Hole(v)] + CastSuffix(cast));
    assert [Hole(v)] + CastSuffix(cast) == WriteOperand(Bound(v, cast));
    HolesAround([Word(key), Operator(op)], [Hole(v)], CastSuffix(cast));
    assert [Word(key), Operator(op)] + [Hole(v)] + CastSuffix(cast) == sql;
    HolesOne(Hole(v));
  }

  /** `key = text`, for a text without placeholders. */
  method CompileLiteral(key: string, text: string, params: ParamList) returns (sql: seq<SqlText.Token>)
    ensures sql == WritePrim(Compare(key, "=", Expr(text, []))) && HolesOf(sql) == []
  {
    sql := [Word(key), Operator("=")] + [Word(text)];
    NoHolesOf(sql);
  }

  method CompileDynamic(key: string, func: string, values: seq<Value>, params: ParamList) returns (sql: seq<SqlText.Token>)
    requires Holes(func) == |values|
    modifies params
    ensures Compiled(params, sql, Compare(key, "=", Expr(func, Singletons(values))))
  {
    for i := 0 to |values|
      invariant params.items == old(params.items) + values[..i]
    {
      params.Push(values[i]);
    }
    assert values[..|values|] == values;
    sql := [Word(key), Operator("=")] + WriteText(func, Singletons(values));
    HolesAround([Word(key), Operator("=")], WriteText(func, Singletons(values)), []);
    TextHoles(func, Singletons(values));
    SingletonsGood(values);
  }

  method CompileToken(key: string, t: DbToken, casts: bool, params: ParamList) returns (sql: seq<SqlText.Token>)
    requires FitsToken(t)
    modifies params
    ensures Compiled(params, sql, TokenPrim(key, t, casts))
    decreases t
  {
    match t
    case Plain(v, op) => sql := CompileCompare(key, op, v, None, params);
    case Immediate(text) => sql := CompileLiteral(key, text, params);
    case NullToken => sql := [Word(key), IsNullTok]; NoHolesOf(sql);
    case NotNullToken => sql := [Word(key), IsNotNullTok]; NoHolesOf(sql);
    case BoolToken(b) => sql := CompileLiteral(key, BoolText(b), params);
    case ArrayToken(vs) => sql := CompileIn(key, vs, None, params);
    case Dynamic(func, values) => sql := CompileDynamic(key, func, values, params);
    case RawToken(text) => sql := CompileLiteral(key, text, params);
    case TupleIn(columns, tuples) => sql := CompileTuples(columns, tuples, params);
    case Cast(v, sqlType, op) => sql := CompileCompare(key, op, v, CastOf(sqlType, casts), params);
    case CastArray(vs, sqlType) => sql := CompileIn(key, vs, CastOf(sqlType, casts), params);
    case Subquery(_, _, _, _, _) => sql := CompileSubquery(key, t, casts, params);
    case ExistsRows(_, _, _) => sql := CompileExists(key, t, casts, params);
  }

  function PrimTexts(ps: seq<Prim>): seq<seq<SqlText.Token>> {
    if ps == [] then [] else [WritePrim(ps[0])] + PrimTexts(ps[1..])
  }

  lemma {:induction false} PrimTextsAppend(a: seq<Prim>, b: seq<Prim>)
    ensures PrimTexts(a + b) == PrimTexts(a) + PrimTexts(b)
  {
    if a == [] {
      assert a + b == b;
    } else {
      assert (a + b)[1..] == a[1..] + b;
      PrimTextsAppend(a[1..], b);
    }
  }

  lemma {:induction false} PrimTextsAreConj(ps: seq<Prim>)
    ensures Separated(PrimTexts(ps), AndTok) == WriteConj(ps)
  {
    if ps != [] {
      PrimTextsAreConj(ps[1..]);
      assert PrimTexts(ps)[1..] == PrimTexts(ps[1..]);
    }
  }

  lemma {:induction false} SubPrimsAppend(a: seq<SubCond>, b: seq<SubCond>)
    ensures SubPrims(a + b) == SubPrims(a) + SubPrims(b)
  {
    if a == [] {
      assert a + b == b;
    } else {
      assert (a + b)[1..] == a[1..] + b;
      SubPrimsAppend(a[1..], b);
    }
  }

  /** Separators hold no parameters. */
  lemma {:induction false} SeparatedHoles(parts: seq<seq<SqlText.Token>>, sep: SqlText.Token)
    requires !sep.Hole?
    ensures HolesOf(Separated(parts, sep)) == HolesOf(Concat(parts))
  {
    if |parts| == 1 {
      assert parts == [parts[0]];
      ConcatOne(parts[0]);
    } else if |parts| > 1 {
      SeparatedHoles(parts[1..], sep);
      HolesOne(sep);
      HolesAppend(parts[0], [sep]);
      HolesAppend(parts[0] + [sep], Separated(parts[1..], sep));
      HolesAppend(parts[0], Concat(parts[1..]));
    }
  }

  lemma HolesSnoc(parts: seq<seq<SqlText.Token>>, part: seq<SqlText.Token>)
    ensures HolesOf(Concat(parts + [part])) == HolesOf(Concat(parts)) + HolesOf(part)
  {
    ConcatAppend(parts, [part]);
    ConcatOne(part);
    HolesAppend(Concat(parts), part);
  }

  method CompileSubCond(c: SubCond, params: ParamList) returns (sql: seq<SqlText.Token>)
    requires FitsSubCond(c)
    modifies params
    ensures Compiled(params, sql, SubPrim(c))
    decreases c
  {
    match c.value
    case ParentRef(column) => sql := CompileLiteral(c.column, column, params);
    case SubToken(t) => sql := CompileToken(c.column, t, true, params);
    case SubNull => sql := [Word(c.column), IsNullTok]; NoHolesOf(sql);
    case SubList(vs) => sql := CompileIn(c.column, vs, None, params);
    case SubScalar(v) => sql := CompileCompare(c.column, "=", v, None, params);
  }

  lemma WhereStep(cs: seq<SubCond>, i: nat)
    requires i < |cs|
    ensures PrimTexts(SubPrims(cs[..i + 1])) == PrimTexts(SubPrims(cs[..i])) + [WritePrim(SubPrim(cs[i]))]
  {
    var before, p := SubPrims(cs[..i]), SubPrim(cs[i]);
    assert cs[..i + 1] == cs[..i] + [cs[i]];
    SubPrimsAppend(cs[..i], [cs[i]]);
    assert SubPrims([cs[i]]) == [p];
    PrimTextsAppend(before, [p]);
    assert PrimTexts([p]) == [WritePrim(p)];
  }

  lemma WhereText(ps: seq<Prim>)
    ensures var parts := PrimTexts(ps);
      WriteWhere(ps) == (if parts == [] then [] else [Where] + Separated(parts, AndTok)) && HolesOf(WriteWhere(ps)) == HolesOf(Concat(parts))
  {
    var parts := PrimTexts(ps);
    PrimTextsAreConj(ps);
    SeparatedHoles(parts, AndTok);
    HolesAround([Where], WriteConj(ps), []);
    assert [Where] + WriteConj(ps) + [] == [Where] + WriteConj(ps);
  }

  /** The WHERE clause of a subquery. */
  method CompileWhere(cs: seq<SubCond>, params: ParamList) returns (sql: seq<SqlText.Token>)
    requires forall c <- cs :: FitsSubCond(c)
    modifies params
    ensures sql == WriteWhere(SubPrims(cs)) && params.items == old(params.items) + HolesOf(sql)
    decreases cs
  {
    var parts: seq<seq<SqlText.Token>> := [];
    for i := 0 to |cs|
      invariant parts == PrimTexts(SubPrims(cs[..i]))
      invariant params.items == old(params.items) + HolesOf(Concat(parts))
    {
      var part := CompileSubCond(cs[i], params);
      HolesSnoc(parts, part);
      Regroup(old(params.items), HolesOf(Concat(parts)), HolesOf(part));
      WhereStep(cs, i);
      parts := parts + [part];
    }
    assert cs[..|cs|] == cs;
    WhereText(SubPrims(cs));
    sql := if parts == [] then [] else [Where] + Separated(parts, AndTok);
  }

  method CompileSubquery(key: string, t: DbToken, casts: bool, params: ParamList) returns (sql: seq<SqlText.Token>)
    requires t.Subquery? && FitsToken(t)
    modifies params
    ensures Compiled(params, sql, TokenPrim(key, t, casts))
    decreases t, 0
  {
    var where := CompileWhere(t.conds, params);
    WordsAreNames(t.parents);
    WordsAreNames(t.selected);
    NamesHaveNoHoles(t.parents);
    NamesHaveNoHoles(t.selected);
    var columns := if |t.parents| == 1 then [Word(t.parents[0])] else [Open] + Separated(Words(t.parents), Comma) + [Close];
    var head := columns + [InTok(t.negated), Open, Select] + Separated(Words(t.selected), Comma) + [From(t.table)];
    sql := head + where + [Close];
    HolesAround(head, where, [Close]);
  }

  method CompileExists(key: string, t: DbToken, casts: bool, params: ParamList) returns (sql: seq<SqlText.Token>)
    requires t.ExistsRows? && FitsToken(t)
    modifies params
    ensures Compiled(params, sql, TokenPrim(key, t, casts))
    decreases t, 0
  {
    var where := CompileWhere(t.conds, params);
    var head := [ExistsTok(t.negated), Open, SelectOne, From(t.table)];
    sql := head + where + [Close];
    HolesAround(head, where, [Close]);
  }

  // Entries, groups and whole trees.

  function Texts(parts: seq<seq<Prim>>): seq<seq<SqlText.Token>> {
    if parts == [] then [] else [WriteConj(parts[0])] + Texts(parts[1..])
  }

  lemma {:induction false} TextsAppend(a: seq<seq<Prim>>, b: seq<seq<Prim>>)
    ensures Texts(a + b) == Texts(a) + Texts(b)
  {
    if a == [] {
      assert a + b == b;
    } else {
      assert (a + b)[1..] == a[1..] + b;
      TextsAppend(a[1..], b);
    }
  }

  lemma {:induction false} WriteConjAppend(a: seq<Prim>, b: seq<Prim>)
    requires a != [] && b != []
    ensures WriteConj(a + b) == WriteConj(a) + [AndTok] + WriteConj(b)
  {
    assert (a + b)[1..] == a[1..] + b;
    if |a| == 1 {
      assert a[1..] + b == b;
    } else {
      WriteConjAppend(a[1..], b);
      Regroup4(WritePrim(a[0]) + [AndTok], WriteConj(a[1..]), [AndTok], WriteConj(b));
      Regroup(WriteConj(a[1..]), [AndTok], WriteConj(b));
    }
  }

  /** Parts joined by AND are the text of one conjunction. */
  lemma {:induction false} TextsByAnd(parts: seq<seq<Prim>>)
    requires forall i :: 0 <= i < |parts| ==> parts[i] != []
    ensures Separated(Texts(parts), AndTok) == WriteConj(Concat(parts))
    ensures parts != [] ==> Concat(parts) != []
  {
    if parts != [] {
      TextsByAnd(parts[1..]);
      assert Texts(parts)[1..] == Texts(parts[1..]);
      if |parts| == 1 {
        assert parts == [parts[0]];
        ConcatOne(parts[0]);
      } else {
        WriteConjAppend(parts[0], Concat(parts[1..]));
      }
    }
  }

  /** Parts joined by OR are the text of the alternatives. */
  lemma {:induction false} TextsByOr(parts: seq<seq<Prim>>)
    ensures Separated(Texts(parts), OrTok) == WriteDisj(Conjs(parts))
  {
    if parts != [] {
      TextsByOr(parts[1..]);
      assert Texts(parts)[1..] == Texts(parts[1..]) && Conjs(parts)[1..] == Conjs(parts[1..]);
    }
  }

  lemma PrimTextNotEmpty(p: Prim)
    ensures WritePrim(p) != []
  {
  }

  lemma TextNotEmpty(d: seq<Conj>)
    requires d != [] && d[0].prims != []
    ensures WriteDisj(d) != [] && WriteConj(d[0].prims) != []
  {
    PrimTextNotEmpty(d[0].prims[0]);
  }

  method PushValues(vs: seq<Value>, params: ParamList)
    modifies params
    ensures params.items == old(params.items) + vs
  {
    for i := 0 to |vs|
      invariant params.items == old(params.items) + vs[..i]
    {
      params.Push(vs[i]);
    }
    assert vs[..|vs|] == vs;
  }

  /** `compileCustomOperator` for a list: what becomes of the key's text depends on how many placeholders it has. */
  method CompileCustom(key: string, vs: seq<Value>, params: ParamList) returns (sql: seq<SqlText.Token>)
    modifies params
    ensures Compiled(params, sql, CustomPrim(key, vs))
  {
    var placeholderCount := Holes(key);
    if placeholderCount == 1 && |vs| == 0 {
      sql := [Word(ReplaceFirst(key, "NULL"))];
      NoHolesOf(sql);
      return;
    }
    PushValues(vs, params);
    SingletonsGood(vs);
    ConcatOne(vs);
    if placeholderCount == 1 {
      sql := WriteText(key, [vs]);
    } else {
      sql := WriteText(key, Singletons(vs));
    }
    TextHoles(key, CustomArgs(key, vs));
  }

  lemma OneText(p: Prim)
    ensures WriteConj([p]) == WritePrim(p)
  {
  }

  /** Several raw fragments; what is not text is dropped. */
  method CompileRawList(vs: seq<Value>, params: ParamList) returns (sql: seq<SqlText.Token>)
    ensures sql == WriteConj(RawParts(vs)) && HolesOf(sql) == []
  {
    var parts: seq<seq<SqlText.Token>> := [];
    for i := 0 to |vs|
      invariant parts == PrimTexts(RawParts(vs[..i])) && HolesOf(Concat(parts)) == []
    {
      assert vs[..i + 1] == vs[..i] + [vs[i]];
      RawPartsSnoc(vs[..i], vs[i]);
      if vs[i].Text? {
        HolesSnoc(parts, [Word(vs[i].s)]);
        HolesOne(Word(vs[i].s));
        parts := parts + [[Word(vs[i].s)]];
      }
    }
    assert vs[..|vs|] == vs;
    PrimTextsAreConj(RawParts(vs));
    SeparatedHoles(parts, AndTok);
    sql := Separated(parts, AndTok);
  }

  /** `__raw__`. */
  method CompileRaw(value: Cond, casts: bool, params: ParamList) returns (sql: seq<SqlText.Token>)
    requires FitsEntry(Entry(RAW_KEY, value))
    modifies params
    ensures sql == WriteConj(EntryConj(RAW_KEY, value, casts)) && params.items == old(params.items) + HolesOf(sql)
  {
    sql := [];
    match value
    case Scalar(Text(s)) =>
      if s != "" {
        sql := [Word(s)];
        NoHolesOf(sql);
      }
    case RawPair(text, values) =>
      SingletonsGood(values);
      PushValues(values, params);
      if text != "" {
        OneText(Fragment(text, Singletons(values)));
        TextHoles(text, Singletons(values));
        sql := WriteText(text, Singletons(values));
      } else {
        assert values == [];
      }
    case List(vs) =>
      sql := CompileRawList(vs, params);
    case _ =>
  }

  lemma {:induction false} RawPartsSnoc(vs: seq<Value>, v: Value)
    ensures PrimTexts(RawParts(vs + [v])) == PrimTexts(RawParts(vs)) + if v.Text? then [[Word(v.s)]] else []
  {
    if vs == [] {
      assert vs + [v] == [v] && [v][1..] == [];
    } else {
      assert (vs + [v])[1..] == vs[1..] + [v];
      RawPartsSnoc(vs[1..], v);
      if vs[0].Text? {
        assert RawParts(vs + [v])[1..] == RawParts(vs[1..] + [v]) && RawParts(vs)[1..] == RawParts(vs[1..]);
      }
    }
  }

  /** An ordinary key with an ordinary value. */
  method CompileValue(key: string, value: Cond, params: ParamList, ghost casts: bool) returns (sql: seq<SqlText.Token>)
    requires !IsReserved(key) && (value.Nul? || value.Boolean? || value.List? || value.Scalar?)
    requires FitsEntry(Entry(key, value))
    modifies params
    ensures sql == WriteConj(EntryConj(key, value, casts)) && params.items == old(params.items) + HolesOf(sql)
  {
    assert key != OR_KEY && key != RAW_KEY;
    NoHoleNoPlaceholder(key);
    match value
    case Nul =>
      sql := [Word(key), IsNullTok];
      NoHolesOf(sql);
    case Boolean(b) =>
      if b && HasSpace(key) {
        sql := [Word(key)];
        NoHolesOf(sql);
      } else {
        sql := CompileLiteral(key, BoolText(b), params);
      }
    case List(vs) =>
      if HasHole(key) {
        sql := CompileCustom(key, vs, params);
        OneText(CustomPrim(key, vs));
      } else {
        sql := CompileIn(key, vs, None, params);
      }
    case Scalar(v) =>
      if HasHole(key) {
        params.Push(v);
        sql := WriteText(key, [[v]]);
        ConcatOne([v]);
        TextHoles(key, [[v]]);
      } else {
        sql := CompileCompare(key, "=", v, None, params);
      }
  }

  /** `compileCondition`. */
  method CompileCondition(e: Entry, casts: bool, params: ParamList) returns (sql: seq<SqlText.Token>)
    requires FitsEntry(e)
    modifies params
    ensures sql == WriteConj(EntryConj(e.key, e.value, casts)) && params.items == old(params.items) + HolesOf(sql)
    decreases e
  {
    var key, value := e.key, e.value;
    if key == OR_KEY && value.Groups? {
      sql := CompileGroups(value.groups, casts, params);
    } else if key == RAW_KEY {
      sql := CompileRaw(value, casts, params);
    } else if value.TokenValue? {
      sql := CompileToken(key, value.t, casts, params);
    } else if value.Inner? {
      var inner := Compile(value.c, casts, params);
      sql := [Open] + inner + [Close];
      HolesAround([Open], inner, [Close]);
    } else if IsReserved(key) {
      sql := [];
    } else {
      sql := CompileValue(key, value, params, casts);
    }
  }

  lemma {:induction false} EntriesPartsAppend(a: seq<Entry>, b: seq<Entry>, casts: bool)
    ensures EntriesParts(a + b, casts) == EntriesParts(a, casts) + EntriesParts(b, casts)
  {
    if a == [] {
      assert a + b == b;
    } else {
      assert (a + b)[1..] == a[1..] + b;
      EntriesPartsAppend(a[1..], b, casts);
    }
  }

  lemma EntriesStep(entries: seq<Entry>, i: nat, casts: bool)
    requires i < |entries|
    ensures
      var part := EntryConj(entries[i].key, entries[i].value, casts);
      Texts(EntriesParts(entries[..i + 1], casts)) == Texts(EntriesParts(entries[..i], casts)) + if part == [] then [] else [WriteConj(part)]
  {
    var part := EntryConj(entries[i].key, entries[i].value, casts);
    assert entries[..i + 1] == entries[..i] + [entries[i]] && [entries[i]][1..] == [];
    EntriesPartsAppend(entries[..i], [entries[i]], casts);
    TextsAppend(EntriesParts(entries[..i], casts), EntriesParts([entries[i]], casts));
    assert [part][1..] == [];
  }

  /** The list of texts after one more entry. */
  lemma PartNext(entries: seq<Entry>, i: nat, casts: bool, parts: seq<seq<SqlText.Token>>, sql: seq<SqlText.Token>)
    requires i < |entries|
    requires parts == Texts(EntriesParts(entries[..i], casts))
    requires sql == WriteConj(EntryConj(entries[i].key, entries[i].value, casts))
    ensures var next := if sql == [] then parts else parts + [sql];
      next == Texts(EntriesParts(entries[..i + 1], casts)) && HolesOf(Concat(next)) == HolesOf(Concat(parts)) + HolesOf(sql)
  {
    var part := EntryConj(entries[i].key, entries[i].value, casts);
    EntriesStep(entries, i, casts);
    if part != [] {
      TextNotEmpty([Conj(part)]);
      HolesSnoc(parts, sql);
    } else {
      assert parts + [] == parts && HolesOf(Concat(parts)) + [] == HolesOf(Concat(parts));
    }
  }

  /** The loop over the entries of a record: empty texts are dropped. */
  method CompileEntries(entries: seq<Entry>, casts: bool, params: ParamList) returns (parts: seq<seq<SqlText.Token>>)
    requires forall e <- entries :: FitsEntry(e)
    modifies params
    ensures parts == Texts(EntriesParts(entries, casts)) && params.items == old(params.items) + HolesOf(Concat(parts))
    decreases entries
  {
    parts := [];
    for i := 0 to |entries|
      invariant parts == Texts(EntriesParts(entries[..i], casts))
      invariant params.items == old(params.items) + HolesOf(Concat(parts))
    {
      ghost var before := params.items;
      var sql := CompileCondition(entries[i], casts, params);
      PartNext(entries, i, casts, parts, sql);
      Regroup(old(params.items), HolesOf(Concat(parts)), HolesOf(sql));
      assert params.items == before + HolesOf(sql);
      if sql != [] {
        parts := parts + [sql];
      }
    }
    assert entries[..|entries|] == entries;
  }

  function GroupTexts(groups: seq<Record>, casts: bool): seq<seq<SqlText.Token>> {
    if groups == [] then []
    else
      var parts := EntriesParts(groups[0].entries, casts);
      var rest := GroupTexts(groups[1..], casts);
      if parts == [] then rest else [[Open] + WriteConj(Concat(parts)) + [Close]] + rest
  }

  lemma {:induction false} GroupTextsAppend(a: seq<Record>, b: seq<Record>, casts: bool)
    ensures GroupTexts(a + b, casts) == GroupTexts(a, casts) + GroupTexts(b, casts)
  {
    if a == [] {
      assert a + b == b;
    } else {
      assert (a + b)[1..] == a[1..] + b;
      GroupTextsAppend(a[1..], b, casts);
    }
  }

  lemma {:induction false} GroupTextsAreDisj(groups: seq<Record>, casts: bool)
    ensures Separated(GroupTexts(groups, casts), OrTok) == WriteDisj(GroupConjs(groups, casts))
    ensures |GroupTexts(groups, casts)| == |GroupConjs(groups, casts)|
  {
    if groups != [] {
      GroupTextsAreDisj(groups[1..], casts);
      var parts := EntriesParts(groups[0].entries, casts);
      if parts != [] {
        assert GroupTexts(groups, casts)[1..] == GroupTexts(groups[1..], casts);
        assert GroupConjs(groups, casts)[1..] == GroupConjs(groups[1..], casts);
        OneText(Group([Conj(Concat(parts))]));
      }
    }
  }

  function GroupText(group: Record, casts: bool): seq<SqlText.Token> {
    var parts := EntriesParts(group.entries, casts);
    if parts == [] then [] else [Open] + WriteConj(Concat(parts)) + [Close]
  }

  lemma GroupStep(groups: seq<Record>, i: nat, casts: bool)
    requires i < |groups|
    ensures
      var text := GroupText(groups[i], casts);
      GroupTexts(groups[..i + 1], casts) == GroupTexts(groups[..i], casts) + if text == [] then [] else [text]
  {
    assert groups[..i + 1] == groups[..i] + [groups[i]];
    GroupTextsAppend(groups[..i], [groups[i]], casts);
    assert [groups[i]][1..] == [];
  }

  method CompileGroup(group: Record, casts: bool, params: ParamList) returns (sql: seq<SqlText.Token>)
    requires forall f <- group.entries :: FitsEntry(f)
    modifies params
    ensures sql == GroupText(group, casts) && params.items == old(params.items) + HolesOf(sql)
    decreases group
  {
    var texts := CompileEntries(group.entries, casts, params);
    ghost var parts := EntriesParts(group.entries, casts);
    PartsNotEmpty(group.entries, casts);
    TextsByAnd(parts);
    SeparatedHoles(texts, AndTok);
    var inner := Separated(texts, AndTok);
    if parts != [] {
      TextNotEmpty([Conj(Concat(parts))]);
    }
    HolesAround([Open], inner, [Close]);
    sql := if inner == [] then [] else [Open] + inner + [Close];
  }

  /** What the joined groups are the text of. */
  lemma GroupsText(groups: seq<Record>, casts: bool)
    ensures
      var parts := GroupTexts(groups, casts);
      WriteConj(EntryConj(OR_KEY, Groups(groups), casts)) == if parts == [] then [] else [Open] + Separated(parts, OrTok) + [Close]
  {
    GroupTextsAreDisj(groups, casts);
    var conjs := GroupConjs(groups, casts);
    if conjs != [] {
      OneText(Group(conjs));
    }
  }

  /** `__or__`: each group compiled by itself, empty ones dropped, the rest in parentheses joined by OR. */
  method CompileGroups(groups: seq<Record>, casts: bool, params: ParamList) returns (sql: seq<SqlText.Token>)
    requires forall g <- groups :: forall f <- g.entries :: FitsEntry(f)
    modifies params
    ensures sql == WriteConj(EntryConj(OR_KEY, Groups(groups), casts)) && params.items == old(params.items) + HolesOf(sql)
    decreases groups
  {
    var parts: seq<seq<SqlText.Token>> := [];
    for i := 0 to |groups|
      invariant parts == GroupTexts(groups[..i], casts)
      invariant params.items == old(params.items) + HolesOf(Concat(parts))
    {
      var group := CompileGroup(groups[i], casts, params);
      GroupStep(groups, i, casts);
      if group != [] {
        HolesSnoc(parts, group);
        parts := parts + [group];
      }
    }
    assert groups[..|groups|] == groups;
    GroupsText(groups, casts);
    SeparatedHoles(parts, OrTok);
    HolesAround([Open], Separated(parts, OrTok), [Close]);
    sql := if parts == [] then [] else [Open] + Separated(parts, OrTok) + [Close];
  }

  lemma {:induction false} NestedPartsAppend(a: seq<Nested>, b: seq<Nested>, casts: bool)
    ensures NestedParts(a + b, casts) == NestedParts(a, casts) + NestedParts(b, casts)
  {
    if a == [] {
      assert a + b == b;
    } else {
      assert (a + b)[1..] == a[1..] + b;
      NestedPartsAppend(a[1..], b, casts);
    }
  }

  lemma NestedStep(nested: seq<Nested>, i: nat, casts: bool)
    requires i < |nested|
    ensures
      var part := NestedConj(nested[i], casts);
      Texts(NestedParts(nested[..i + 1], casts)) == Texts(NestedParts(nested[..i], casts)) + if part == [] then [] else [WriteConj(part)]
  {
    var part := NestedConj(nested[i], casts);
    assert nested[..i + 1] == nested[..i] + [nested[i]];
    NestedPartsAppend(nested[..i], [nested[i]], casts);
    assert NestedParts([nested[i]], casts) == if part == [] then [] else [part];
    TextsAppend(NestedParts(nested[..i], casts), NestedParts([nested[i]], casts));
    assert [part][1..] == [];
    assert Texts([part]) == [WriteConj(part)];
  }

  method CompileNested(n: Nested, casts: bool, params: ParamList) returns (sql: seq<SqlText.Token>)
    requires FitsConditions(n.conditions)
    modifies params
    ensures sql == WriteConj(NestedConj(n, casts)) && params.items == old(params.items) + HolesOf(sql)
    ensures sql == [] <==> NestedConj(n, casts) == []
    decreases n
  {
    var inner := Compile(n.conditions, casts, params);
    NestedTextEmpty(n, casts);
    HolesAround([Open], inner, [Close]);
    sql := if inner == [] then [] else [Open] + inner + [Close];
  }

  /** The loop over the nested conditions: empty texts are dropped, the others put in parentheses. */
  method CompileAllNested(nested: seq<Nested>, casts: bool, params: ParamList) returns (parts: seq<seq<SqlText.Token>>)
    requires forall n <- nested :: FitsConditions(n.conditions)
    modifies params
    ensures parts == Texts(NestedParts(nested, casts)) && params.items == old(params.items) + HolesOf(Concat(parts))
    decreases nested
  {
    parts := [];
    for i := 0 to |nested|
      invariant parts == Texts(NestedParts(nested[..i], casts))
      invariant params.items == old(params.items) + HolesOf(Concat(parts))
    {
      var sql := CompileNested(nested[i], casts, params);
      NestedStep(nested, i, casts);
      if sql != [] {
        HolesSnoc(parts, sql);
        parts := parts + [sql];
      }
    }
    assert nested[..|nested|] == nested;
  }

  /** `compile`: the text of the tree is returned, and one parameter for each of its holes, in order, is appended
      to the list that the caller passed. */
  method Compile(c: Conditions, casts: bool, params: ParamList) returns (sql: seq<SqlText.Token>)
    requires FitsConditions(c)
    modifies params
    ensures sql == ConditionsText(c, casts) && params.items == old(params.items) + HolesOf(sql)
    decreases c
  {
    var entries := CompileEntries(c.entries, casts, params);
    var nested := CompileAllNested(c.nested, casts, params);
    var parts := entries + nested;
    PartsGiveText(c, casts);
    ConcatAppend(entries, nested);
    HolesAppend(Concat(entries), Concat(nested));
    SeparatedHoles(parts, AndTok);
    SeparatedHoles(parts, OrTok);
    sql := Separated(parts, if c.operator.And? then AndTok else OrTok);
  }

  lemma {:induction false} PartsNotEmpty(entries: seq<Entry>, casts: bool)
    ensures forall i :: 0 <= i < |EntriesParts(entries, casts)| ==> EntriesParts(entries, casts)[i] != []
  {
    if entries != [] {
      PartsNotEmpty(entries[1..], casts);
    }
  }

  lemma {:induction false} NestedNotEmpty(nested: seq<Nested>, casts: bool)
    ensures forall i :: 0 <= i < |NestedParts(nested, casts)| ==> NestedParts(nested, casts)[i] != []
  {
    if nested != [] {
      NestedNotEmpty(nested[1..], casts);
    }
  }

  lemma NestedTextEmpty(n: Nested, casts: bool)
    ensures ConditionsText(n.conditions, casts) == [] <==> ConditionsDisj(n.conditions, casts) == []
  {
    var c := n.conditions;
    var parts := EntriesParts(c.entries, casts) + NestedParts(c.nested, casts);
    if parts != [] {
      PartsNotEmpty(c.entries, casts);
      NestedNotEmpty(c.nested, casts);
      assert parts[0] != [];
      TextNotEmpty(ConditionsDisj(c, casts));
    }
  }

  lemma PartsGiveText(c: Conditions, casts: bool)
    ensures ConditionsText(c, casts) ==
      Separated(Texts(EntriesParts(c.entries, casts)) + Texts(NestedParts(c.nested, casts)), if c.operator.And? then AndTok else OrTok)
  {
    var parts := EntriesParts(c.entries, casts) + NestedParts(c.nested, casts);
    PartsNotEmpty(c.entries, casts);
    NestedNotEmpty(c.nested, casts);
    TextsAppend(EntriesParts(c.entries, casts), NestedParts(c.nested, casts));
    TextsByAnd(parts);
    TextsByOr(parts);
  }

  // ---------------------------------------------------------------------------------------------
  // The object
  // ---------------------------------------------------------------------------------------------

  /** A `DBConditions` object; what is added to it is kept by value. */
  class ConditionBuilder {
    var entries: seq<Entry>
    var operator: BoolOp
    var nested: seq<Nested>

    constructor (entries: seq<Entry>, operator: BoolOp)
      ensures View() == Conditions(entries, operator, [])
    {
      this.entries, this.operator, nested := entries, operator, [];
    }

    ghost function View(): Conditions
      reads this
    {
      Conditions(entries, operator, nested)
    }

    method Add(conditions: Conditions, operator: BoolOp)
      modifies this
      ensures View() == old(View()).(nested := old(View()).nested + [Nested(conditions, operator)])
    {
      nested := nested + [Nested(conditions, operator)];
    }
  }

  /** The documentation of `add` promises the operator that it is given; what counts is the operator of the
      object that is added to. */
  lemma AddIgnoresItsOperator(c: Conditions, added: Conditions, casts: bool)
    ensures
      var byAnd, byOr := c.(nested := c.nested + [Nested(added, And)]), c.(nested := c.nested + [Nested(added, Or)]);
      ConditionsText(byAnd, casts) == ConditionsText(byOr, casts)
  {
    NestedPartsAppend(c.nested, [Nested(added, And)], casts);
    NestedPartsAppend(c.nested, [Nested(added, Or)], casts);
    assert [Nested(added, And)][1..] == [] && [Nested(added, Or)][1..] == [];
  }
}
