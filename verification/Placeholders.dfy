/** The one pass that turns `?` into `$1, $2, ...`. */
module Placeholders {
  import opened Sequences
  import opened Decimal
  import opened SqlText

  function Dollar(n: nat): string {
    ['$'] + FormatNat(n)
  }

  /** What the pass makes of text after n placeholders. */
  function Numbered(sql: string, n: nat): string {
    if sql == "" then ""
    else if sql[0] == '?' then Dollar(n + 1) + Numbered(sql[1..], n + 1)
    else [sql[0]] + Numbered(sql[1..], n)
  }

  /** `toDollarPlaceholders`. */
  method ToDollarPlaceholders(sql: string) returns (out: string)
    ensures out == Numbered(sql, 0)
  {
    var n := 0;
    out := "";
    for i := 0 to |sql|
      invariant out + Numbered(sql[i..], n) == Numbered(sql, 0)
    {
      ghost var rest := Numbered(sql[i + 1..], if sql[i] == '?' then n + 1 else n);
      assert sql[i..][1..] == sql[i + 1..];
      if sql[i] == '?' {
        Regroup(out, Dollar(n + 1), rest);
        n := n + 1;
        out := out + Dollar(n);
      } else {
        Regroup(out, [sql[i]], rest);
        out := out + [sql[i]];
      }
    }
    assert sql[|sql|..] == "";
  }

  function Prepend(c: char, pieces: seq<string>): (r: seq<string>)
    requires pieces != [] && AllFree(pieces, '?') && c != '?'
    ensures r != [] && AllFree(r, '?')
  {
    assert pieces[0] in pieces;
    assert Free([c] + pieces[0], '?');
    assert forall p <- pieces[1..] :: p in pieces;
    [[c] + pieces[0]] + pieces[1..]
  }

  /** The stretches between placeholders. */
  function Split(sql: string): (r: seq<string>)
    ensures r != [] && AllFree(r, '?')
  {
    if sql == "" then [""]
    else if sql[0] == '?' then [""] + Split(sql[1..])
    else Prepend(sql[0], Split(sql[1..]))
  }

  function WithNumbers(pieces: seq<string>, n: nat): string
    requires pieces != []
  {
    if |pieces| == 1 then pieces[0] else pieces[0] + ("$" + FormatNat(n + 1)) + WithNumbers(pieces[1..], n + 1)
  }

  lemma PrependJoins(c: char, pieces: seq<string>, n: nat)
    requires pieces != [] && AllFree(pieces, '?') && c != '?'
    ensures Join(Prepend(c, pieces), '?') == [c] + Join(pieces, '?')
    ensures WithNumbers(Prepend(c, pieces), n) == [c] + WithNumbers(pieces, n)
  {
    var r := Prepend(c, pieces);
    assert r[0] == [c] + pieces[0] && r[1..] == pieces[1..] && |r| == |pieces|;
    if |pieces| > 1 {
      Regroup4([c], pieces[0], ['?'], Join(pieces[1..], '?'));
      Regroup(pieces[0], ['?'], Join(pieces[1..], '?'));
      Regroup4([c], pieces[0], Dollar(n + 1), WithNumbers(pieces[1..], n + 1));
      Regroup(pieces[0], Dollar(n + 1), WithNumbers(pieces[1..], n + 1));
    }
  }

  lemma EmptyStretch(pieces: seq<string>, n: nat)
    requires pieces != []
    ensures Join([""] + pieces, '?') == ['?'] + Join(pieces, '?')
    ensures WithNumbers([""] + pieces, n) == Dollar(n + 1) + WithNumbers(pieces, n + 1)
  {
    assert ([""] + pieces)[1..] == pieces;
    assert "" + ['?'] == ['?'];
    assert "" + Dollar(n + 1) == Dollar(n + 1);
  }

  /** The text is its stretches with `?` between them; what the pass makes is the same stretches, untouched, with
      `$1`, `$2`, ... between them. */
  lemma {:induction false} NumberedInOrder(sql: string, n: nat)
    ensures Join(Split(sql), '?') == sql
    ensures Numbered(sql, n) == WithNumbers(Split(sql), n)
  {
    if sql != "" {
      NumberedInOrder(sql[1..], if sql[0] == '?' then n + 1 else n);
      if sql[0] == '?' {
        EmptyStretch(Split(sql[1..]), n);
      } else {
        PrependJoins(sql[0], Split(sql[1..]), n);
      }
      assert [sql[0]] + sql[1..] == sql;
    }
  }

  // ---------------------------------------------------------------------------------------------
  // Statements
  // ---------------------------------------------------------------------------------------------

  function PieceOf(text: string, i: nat): string {
    if i < |Split(text)| then Split(text)[i] else ""
  }

  /** A token as text. */
  function Spell(t: Token): string {
    match t
    case Word(text) => text
    case Piece(text, i) => PieceOf(text, i)
    case Hole(_) => "?"
    case CastTo(sqlType) => "::" + sqlType
    case Operator(op) => " " + op + " "
    case AndTok => " AND "
    case OrTok => " OR "
    case Open => "("
    case Close => ")"
    case Comma => ", "
    case IsNullTok => " IS NULL"
    case IsNotNullTok => " IS NOT NULL"
    case InTok(negated) => if negated then " NOT IN " else " IN "
    case NeverTok => "1 = 0"
    case ExistsTok(negated) => if negated then "NOT EXISTS " else "EXISTS "
    case SelectOne => "SELECT 1"
    case Select => "SELECT "
    case From(table) => " FROM " + table
    case Where => " WHERE "
  }

  function SpellAll(ts: seq<Token>): string {
    if ts == [] then "" else Spell(ts[0]) + SpellAll(ts[1..])
  }

  /** The same text with its holes numbered. */
  function SpellNumbered(ts: seq<Token>, n: nat): string {
    if ts == [] then ""
    else if ts[0].Hole? then "$" + FormatNat(n + 1) + SpellNumbered(ts[1..], n + 1)
    else Spell(ts[0]) + SpellNumbered(ts[1..], n)
  }

  /** No `?` in the text except its holes. */
  predicate OnlyHoles(ts: seq<Token>) {
    forall t <- ts :: !t.Hole? ==> Free(Spell(t), '?')
  }

  lemma {:induction false} NumberedAppend(a: string, b: string, n: nat)
    requires Free(a, '?')
    ensures Numbered(a + b, n) == a + Numbered(b, n)
  {
    if a == "" {
      assert a + b == b;
    } else {
      assert (a + b)[1..] == a[1..] + b;
      assert Free(a[1..], '?') && a[0] in a;
      NumberedAppend(a[1..], b, n);
      assert [a[0]] + a[1..] == a;
      Regroup([a[0]], a[1..], Numbered(b, n));
    }
  }

  /** On a statement the pass numbers the holes, and nothing else, from left to right: with a balanced statement
      `$k` is where the k-th parameter belongs. */
  lemma {:induction false} HolesAreNumbered(ts: seq<Token>, n: nat)
    requires OnlyHoles(ts)
    ensures Numbered(SpellAll(ts), n) == SpellNumbered(ts, n)
  {
    if ts != [] {
      assert ts[0] in ts;
      if ts[0].Hole? {
        HolesAreNumbered(ts[1..], n + 1);
        assert SpellAll(ts)[1..] == SpellAll(ts[1..]);
      } else {
        HolesAreNumbered(ts[1..], n);
        NumberedAppend(Spell(ts[0]), SpellAll(ts[1..]), n);
      }
    }
  }
}
