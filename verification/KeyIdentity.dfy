/** When two key tuples of wire values are one key. */
module KeyIdentity {
  // A cell is reduced to a fixed-size comparable value (an integer, the bits of a float, a text or a flag), one or two
  // cells are compared as they are, and a wider tuple is written into one text with NUL between its parts.

  import opened Sequences
  import opened Decimal

  type Int64 = n: int | MIN_INT64 <= n <= MAX_INT64

  // ---------------------------------------------------------------------------------------------
  // Binary floating point (the 64-bit format of IEEE 754)
  // ---------------------------------------------------------------------------------------------

  type Biased = e: int | 0 <= e < 2048
  type Fraction = f: int | 0 <= f < 0x10_0000_0000_0000

  datatype Double = Double(negative: bool, biased: Biased, fraction: Fraction)

  /** Neither an infinity nor a NaN. */
  predicate Finite(d: Double) {
    d.biased != 2047
  }

  function Significand(d: Double): int {
    var m := if d.biased == 0 then d.fraction else d.fraction + 0x10_0000_0000_0000;
    if d.negative then -m else m
  }

  /** A finite double is its significand times two to this power. */
  function Exponent(d: Double): int {
    (if d.biased == 0 then 1 else d.biased) - 1075
  }

  /** The bit pattern, read as a signed 64-bit integer. */
  function SignedBits(d: Double): Int64 {
    d.biased * 0x10_0000_0000_0000 + d.fraction + (if d.negative then MIN_INT64 else 0)
  }

  function Pow2(n: nat): (r: nat)
    ensures r >= 1
  {
    if n == 0 then 1 else 2 * Pow2(n - 1)
  }

  function Min(a: int, b: int): int {
    if a <= b then a else b
  }

  /** m * 2^e is the same number as m' * 2^e', with the exponents aligned on the smaller one. */
  predicate SameNumber(m: int, e: int, m': int, e': int) {
    m * Pow2(e - Min(e, e')) == m' * Pow2(e' - Min(e, e'))
  }

  /** The integer that a double is, if it is one. */
  function WholeOf(d: Double): Option<int> {
    var m, e := Significand(d), Exponent(d);
    if !Finite(d) then None
    else if e >= 0 then Some(m * Pow2(e))
    else if m % Pow2(-e) == 0 then Some(m / Pow2(-e))
    else None
  }

  lemma {:induction false} PowAdd(a: nat, b: nat)
    ensures Pow2(a + b) == Pow2(a) * Pow2(b)
  {
    if a > 0 {
      PowAdd(a - 1, b);
      assert 2 * (Pow2(a - 1) * Pow2(b)) == (2 * Pow2(a - 1)) * Pow2(b);
    }
  }

  lemma Regroup3(x: int, y: int, z: int)
    ensures x * y * z == x * (y * z)
  {
  }

  /** The whole value is what the double means: `WholeOf` finds it exactly when there is one. */
  lemma WholeIsTheNumber(d: Double, v: int)
    requires Finite(d)
    ensures WholeOf(d) == Some(v) <==> SameNumber(Significand(d), Exponent(d), v, 0)
  {
    var m, e := Significand(d), Exponent(d);
    if e < 0 {
      var p := Pow2(-e);
      assert SameNumber(m, e, v, 0) <==> m == v * p;
      if m == v * p {
        DivExact(v, p);
      } else if m % p == 0 {
        assert m == p * (m / p);
      }
    }
  }

  lemma Scaled(x: int, p: int)
    requires p >= 1
    ensures x >= 1 ==> x * p >= p
    ensures x <= -1 ==> x * p <= -p
  {
  }

  lemma DivExact(v: int, p: int)
    requires p >= 1
    ensures (v * p) % p == 0 && (v * p) / p == v
  {
    var q, r := (v * p) / p, (v * p) % p;
    assert v * p == p * q + r;
    assert (v - q) * p == r;
    Scaled(v - q, p);
  }

  /** Finite doubles other than zero are written in one way: the same number has the same bits. */
  lemma OneWayToWrite(d: Double, d': Double)
    requires Finite(d) && Finite(d')
    requires SameNumber(Significand(d), Exponent(d), Significand(d'), Exponent(d'))
    requires Significand(d) != 0
    ensures d == d'
  {
    if Exponent(d) <= Exponent(d') {
      Written(d, d');
    } else {
      Written(d', d);
    }
  }

  lemma Doubled(m: int, gap: nat)
    requires gap > 0
    ensures m > 0 ==> m * Pow2(gap) >= m * 2
    ensures m < 0 ==> m * Pow2(gap) <= m * 2
  {
    assert Pow2(gap) >= 2;
  }

  lemma Written(d: Double, d': Double)
    requires Finite(d) && Finite(d') && Exponent(d) <= Exponent(d')
    requires SameNumber(Significand(d), Exponent(d), Significand(d'), Exponent(d'))
    requires Significand(d) != 0 || Significand(d') != 0
    ensures d == d'
  {
    var gap := Exponent(d') - Exponent(d);
    var m, m' := Significand(d), Significand(d');
    assert Pow2(0) == 1;
    assert m == m' * Pow2(gap);
    // The larger exponent has a full significand, and doubling it is too much for the smaller one.
    if gap > 0 {
      Doubled(m', gap);
    }
    assert m == m';
  }

  // ---------------------------------------------------------------------------------------------
  // Wire values and key cells
  // ---------------------------------------------------------------------------------------------

  datatype Field = Field(name: string, value: Wire)
  datatype Wire =
    | Null
    | Flag(b: bool)
    | Int(n: Int64)
    | Float(d: Double)
    | Text(s: string)
    | List(items: seq<Wire>)
    | Row(fields: seq<Field>)

  datatype KeyCell = KeyCell(kind: nat, num: Int64, s: string)
  datatype KeyId = KeyId(a: KeyCell, b: KeyCell, more: string)

  const BLANK := KeyCell(0, 0, "")

  /** `stringKeyCell`: a text that is an integer's own spelling is that integer. */
  function StringKeyCell(t: string): KeyCell {
    if t != "" && (t[0] == '-' || IsDigit(t[0])) then
      match ParseInt64(t)
      case Some(n) => if FormatInt(n) == t && IsInt64(n) then KeyCell(1, n, "") else KeyCell(3, 0, t)
      case None => KeyCell(3, 0, t)
    else KeyCell(3, 0, t)
  }

  /** `wireKeyCell`. */
  function CellOf(w: Wire): KeyCell {
    match w
    case Int(n) => KeyCell(1, n, "")
    case Float(d) =>
      var whole := WholeOf(d);
      if whole.Some? && IsInt64(whole.value) then KeyCell(1, whole.value, "") else KeyCell(2, SignedBits(d), "")
    case Text(s) => StringKeyCell(s)
    case Flag(b) => KeyCell(4, if b then 1 else 0, "")
    case _ => BLANK
  }

  function Parts(cells: seq<Wire>): seq<string> {
    if cells == [] then []
    else
      var c := CellOf(cells[0]);
      [FormatInt(c.kind), FormatInt(c.num), c.s] + Parts(cells[1..])
  }

  /** `keyIdentityG`, as a value. */
  function IdOf(cells: seq<Wire>): KeyId {
    if |cells| == 1 then KeyId(CellOf(cells[0]), BLANK, "")
    else if |cells| == 2 then KeyId(CellOf(cells[0]), CellOf(cells[1]), "")
    else KeyId(BLANK, BLANK, Join(Parts(cells), '\0'))
  }

  lemma {:induction false} PartsAppend(a: seq<Wire>, b: seq<Wire>)
    ensures Parts(a + b) == Parts(a) + Parts(b)
  {
    if a == [] {
      assert a + b == b;
    } else {
      assert (a + b)[1..] == a[1..] + b;
      PartsAppend(a[1..], b);
    }
  }

  method IdentityOf(cells: seq<Wire>) returns (id: KeyId)
    ensures id == IdOf(cells)
  {
    if |cells| == 1 {
      return KeyId(CellOf(cells[0]), BLANK, "");
    } else if |cells| == 2 {
      return KeyId(CellOf(cells[0]), CellOf(cells[1]), "");
    }
    var parts: seq<string> := [];
    for i := 0 to |cells|
      invariant parts == Parts(cells[..i])
    {
      var c := CellOf(cells[i]);
      parts := parts + [FormatInt(c.kind), FormatInt(c.num), c.s];
      PartsAppend(cells[..i], [cells[i]]);
      assert cells[..i + 1] == cells[..i] + [cells[i]];
      assert [cells[i]][1..] == [];
    }
    assert cells[..|cells|] == cells;
    return KeyId(BLANK, BLANK, Join(parts, '\0'));
  }

  // ---------------------------------------------------------------------------------------------
  // What agreeing means
  // ---------------------------------------------------------------------------------------------

  /** The cell stands for the 64-bit integer n: as an integer, as a float of that value, or spelled in full. */
  predicate StandsFor(w: Wire, n: int) {
    IsInt64(n) &&
    match w
    case Int(m) => m == n
    case Float(d) => Finite(d) && SameNumber(Significand(d), Exponent(d), n, 0)
    case Text(s) => s == FormatInt(n)
    case _ => false
  }

  function Magnitude(n: int): nat {
    if n < 0 then -n else n
  }

  lemma Cancel(x: int, y: int, p: int)
    requires p >= 1
    ensures x * p == y * p <==> x == y
  {
    Scaled(x - y, p);
    assert (x - y) * p == x * p - y * p;
  }

  /** Equal after scaling by a power. */
  lemma ScaledUp(m: int, a: nat, n: int, b: nat, c: nat)
    requires a == b + c
    ensures m * Pow2(b) == n <==> m * Pow2(a) == n * Pow2(c)
  {
    PowAdd(b, c);
    Regroup3(m, Pow2(b), Pow2(c));
    Cancel(m * Pow2(b), n, Pow2(c));
  }

  lemma AgainstWhole(m: int, e: int, n: int, up: nat, down: nat)
    requires if e >= 0 then up == e && down == 0 else up == 0 && down == -e
    ensures SameNumber(m, e, n, 0) <==> m * Pow2(up) == n * Pow2(down)
  {
  }

  lemma SameScaled(m: int, e: nat, n: int, bias: nat)
    ensures SameNumber(m, e - bias, n, 0) <==> m * Pow2(e) == n * Pow2(bias)
  {
    var up: nat, down: nat := if e >= bias then e - bias else 0, if e >= bias then 0 else bias - e;
    AgainstWhole(m, e - bias, n, up, down);
    if e >= bias {
      PowZero(n, down);
      ScaledUp(m, e, n, up, bias);
    } else {
      PowZero(m, up);
      ScaledUp(n, bias, m, down, e);
    }
  }

  lemma PowZero(x: int, zero: nat)
    requires zero == 0
    ensures x * Pow2(zero) == x
  {
  }

  lemma SignsAgree(m: int, x: nat, n: int, y: nat)
    requires x >= 1 && y >= 1
    ensures m * x == n * y <==> (m > 0 <==> n > 0) && (m < 0 <==> n < 0) && Magnitude(m) * x == Magnitude(n) * y
  {
    Scaled(m, x);
    Scaled(n, y);
    assert (-m) * x == -(m * x) && (-n) * y == -(n * y);
  }

  /** What a 64-bit float stands for, by its three fields: its sign, and its fraction with the hidden bit times two to its biased
      exponent, where 1075 is the bias. */
  lemma FieldsSay(d: Double, n: Int64, bias: nat)
    requires bias == 1075
    ensures
      var e := if d.biased == 0 then 1 else d.biased;
      var f := if d.biased == 0 then d.fraction else 4503599627370496 + d.fraction;
      StandsFor(Float(d), n) <==>
        d.biased != 2047 && (n < 0 ==> d.negative) && (n > 0 ==> !d.negative) && f * Pow2(e) == Magnitude(n) * Pow2(bias)
  {
    var e := if d.biased == 0 then 1 else d.biased;
    var m := Significand(d);
    SameScaled(m, e, n, bias);
    SignsAgree(m, Pow2(e), n, Pow2(bias));
    if n == 0 {
      Scaled(Magnitude(m), Pow2(e));
    }
  }

  ghost predicate IsInteger(w: Wire) {
    exists n :: StandsFor(w, n)
  }

  predicate SameFloat(d: Double, d': Double) {
    if Finite(d) && Finite(d') then SameNumber(Significand(d), Exponent(d), Significand(d'), Exponent(d')) else d == d'
  }

  /** The two cells are one key column: the same integer however it is carried, or the same float, text or flag. What is
      not a scalar is like a null. */
  ghost predicate Agree(x: Wire, y: Wire) {
    if IsInteger(x) || IsInteger(y) then exists n :: StandsFor(x, n) && StandsFor(y, n)
    else
      match (x, y)
      case (Float(d), Float(d')) => SameFloat(d, d')
      case (Text(s), Text(s')) => s == s'
      case (Flag(b), Flag(b')) => b == b'
      case _ => !Scalar(x) && !Scalar(y)
  }

  predicate Scalar(w: Wire) {
    w.Int? || w.Float? || w.Text? || w.Flag?
  }

  /** A cell becomes the integer n exactly when it stands for n. */
  lemma IntegerCell(w: Wire, n: int)
    ensures CellOf(w).kind == 1 && CellOf(w).num == n <==> StandsFor(w, n)
    ensures CellOf(w).kind == 1 ==> CellOf(w).s == ""
  {
    match w {
      case Float(d) =>
        if Finite(d) {
          WholeIsTheNumber(d, n);
        }
      case Text(s) =>
        if IsInt64(n) {
          TextCell(s, n);
        }
      case _ =>
    }
  }

  /** A text collapses onto an integer exactly when it is that integer's canonical decimal form, and is itself
      otherwise. */
  lemma TextCell(s: string, n: Int64)
    ensures StringKeyCell(s) == KeyCell(1, n, "") <==> s == FormatInt(n)
    ensures StringKeyCell(s) == KeyCell(3, 0, s) || (StringKeyCell(s).kind == 1 && StringKeyCell(s).s == "")
  {
    if s == FormatInt(n) {
      Int64RoundTrip(n);
      assert s[0] in s;
    }
  }

  lemma DistinctTexts(s: string, t: string)
    ensures StringKeyCell(s) == StringKeyCell(t) <==> s == t
  {
    if StringKeyCell(s) == StringKeyCell(t) {
      var n := StringKeyCell(s).num;
      TextCell(s, n);
      TextCell(t, n);
    }
  }

  lemma FloatBits(d: Double, d': Double)
    ensures SignedBits(d) == SignedBits(d') <==> d == d'
  {
  }

  /** Floats that are not 64-bit integers. */
  lemma OtherFloats(d: Double, d': Double)
    requires !IsInteger(Float(d)) && !IsInteger(Float(d'))
    ensures d == d' <==> SameFloat(d, d')
  {
    if Finite(d) && Finite(d') && SameFloat(d, d') {
      if Significand(d) == 0 {
        WholeIsTheNumber(d, 0);
        assert SameNumber(Significand(d), Exponent(d), 0, 0);
        assert StandsFor(Float(d), 0);
        assert false;
      } else {
        OneWayToWrite(d, d');
      }
    }
  }

  /** Two cells get the same key cell exactly when they agree. */
  lemma SameCellIff(x: Wire, y: Wire)
    ensures CellOf(x) == CellOf(y) <==> Agree(x, y)
  {
    IntegerCell(x, CellOf(x).num);
    IntegerCell(y, CellOf(y).num);
    if IsInteger(x) || IsInteger(y) {
      if Agree(x, y) {
        var n :| StandsFor(x, n) && StandsFor(y, n);
        IntegerCell(x, n);
        IntegerCell(y, n);
      } else {
        var n :| StandsFor(x, n) || StandsFor(y, n);
        IntegerCell(x, n);
        IntegerCell(y, n);
      }
    } else {
      assert CellOf(x).kind != 1 && CellOf(y).kind != 1;
      if x.Float? && y.Float? {
        FloatBits(x.d, y.d);
        OtherFloats(x.d, y.d);
      } else if x.Text? && y.Text? {
        DistinctTexts(x.s, y.s);
      } else if x.Text? {
        TextCell(x.s, 0);
      } else if y.Text? {
        TextCell(y.s, 0);
      }
    }
  }

  predicate NulFree(cells: seq<Wire>) {
    forall i :: 0 <= i < |cells| && cells[i].Text? ==> Free(cells[i].s, '\0')
  }

  lemma {:induction false} PartsAreFree(cells: seq<Wire>)
    requires NulFree(cells)
    ensures AllFree(Parts(cells), '\0')
  {
    if cells != [] {
      var c := CellOf(cells[0]);
      if cells[0].Text? {
        TextCell(cells[0].s, c.num);
      }
      assert Free(FormatInt(c.kind), '\0') && Free(FormatInt(c.num), '\0') && Free(c.s, '\0');
      PartsAreFree(cells[1..]);
    }
  }

  lemma {:induction false} PartsTellCells(a: seq<Wire>, b: seq<Wire>)
    requires |a| == |b|
    ensures Parts(a) == Parts(b) <==> forall i :: 0 <= i < |a| ==> CellOf(a[i]) == CellOf(b[i])
  {
    if a != [] {
      PartsTellCells(a[1..], b[1..]);
      var c, d := CellOf(a[0]), CellOf(b[0]);
      if Parts(a) == Parts(b) {
        assert Parts(a)[0] == Parts(b)[0] && Parts(a)[1] == Parts(b)[1] && Parts(a)[2] == Parts(b)[2];
        FormatIntInjective(c.kind, d.kind);
        FormatIntInjective(c.num, d.num);
        assert Parts(a[1..]) == Parts(a)[3..] == Parts(b)[3..] == Parts(b[1..]);
        forall i | 0 <= i < |a| ensures CellOf(a[i]) == CellOf(b[i]) {
          assert i > 0 ==> a[i] == a[1..][i - 1] && b[i] == b[1..][i - 1];
        }
      }
    }
  }

  lemma {:induction false} PartsWidth(cells: seq<Wire>)
    ensures |Parts(cells)| == 3 * |cells|
  {
    if cells != [] {
      PartsWidth(cells[1..]);
    }
  }

  lemma SameParts(a: seq<Wire>, b: seq<Wire>)
    requires |a| == |b| > 2 && (NulFree(a) || NulFree(b)) && Join(Parts(a), '\0') == Join(Parts(b), '\0')
    ensures Parts(a) == Parts(b)
  {
    PartsWidth(a);
    PartsWidth(b);
    if NulFree(a) {
      PartsAreFree(a);
      JoinTells(Parts(a), Parts(b), '\0');
    } else {
      PartsAreFree(b);
      JoinTells(Parts(b), Parts(a), '\0');
    }
  }

  /** Two key tuples of one width have the same identity exactly when they agree column by column, whatever the width,
      as long as one of two wide tuples has no NUL in its texts. */
  lemma SameKeyIff(a: seq<Wire>, b: seq<Wire>)
    requires |a| == |b|
    requires |a| <= 2 || NulFree(a) || NulFree(b)
    ensures IdOf(a) == IdOf(b) <==> forall i :: 0 <= i < |a| ==> Agree(a[i], b[i])
  {
    forall i | 0 <= i < |a| ensures CellOf(a[i]) == CellOf(b[i]) <==> Agree(a[i], b[i]) {
      SameCellIff(a[i], b[i]);
    }
    if |a| > 2 {
      PartsTellCells(a, b);
      if IdOf(a) == IdOf(b) {
        SameParts(a, b);
      }
    } else if |a| > 0 {
      var last := |a| - 1;
      assert IdOf(a) == IdOf(b) <==> CellOf(a[0]) == CellOf(b[0]) && CellOf(a[last]) == CellOf(b[last]);
    }
  }

  lemma PartsOfTexts(x: string, y: string, z: string)
    requires StringKeyCell(x) == KeyCell(3, 0, x) && StringKeyCell(y) == KeyCell(3, 0, y) && StringKeyCell(z) == KeyCell(3, 0, z)
    ensures Parts([Text(x), Text(y), Text(z)]) == [['3'], ['0'], x, ['3'], ['0'], y, ['3'], ['0'], z]
  {
    var cells := [Text(x), Text(y), Text(z)];
    assert FormatInt(3) == ['3'] && FormatInt(0) == ['0'];
    assert cells[1..] == [Text(y), Text(z)];
    assert cells[1..][1..] == [Text(z)];
    assert Parts([Text(z)]) == [['3'], ['0'], z];
    assert Parts([Text(y), Text(z)]) == [['3'], ['0'], y] + Parts([Text(z)]);
  }

  /** A part that is itself joined text reads like its own parts. */
  lemma {:induction false} JoinNested(pre: seq<string>, parts: seq<string>, post: seq<string>, sep: char)
    requires parts != []
    ensures Join(pre + [Join(parts, sep)] + post, sep) == Join(pre + parts + post, sep)
  {
    var inner := Join(parts, sep);
    if pre != [] {
      JoinNested(pre[1..], parts, post, sep);
      assert (pre + [inner] + post)[1..] == pre[1..] + [inner] + post;
      assert (pre + parts + post)[1..] == pre[1..] + parts + post;
    } else {
      assert pre + [inner] + post == [inner] + post && pre + parts + post == parts + post;
      JoinHead(parts, post, sep);
    }
  }

  lemma {:induction false} JoinHead(parts: seq<string>, post: seq<string>, sep: char)
    requires parts != []
    ensures Join([Join(parts, sep)] + post, sep) == Join(parts + post, sep)
  {
    var inner := Join(parts, sep);
    assert ([inner] + post)[1..] == post;
    assert (parts + post)[1..] == parts[1..] + post;
    if |parts| == 1 {
      assert parts == [parts[0]];
    } else {
      var more := Join(parts[1..], sep);
      JoinHead(parts[1..], post, sep);
      assert ([more] + post)[1..] == post;
      if post == [] {
        assert [more] + post == [more];
      } else {
        Regroup4(parts[0] + [sep], more, [sep], Join(post, sep));
        Regroup(more, [sep], Join(post, sep));
        Regroup(parts[0] + [sep], more, [sep] + Join(post, sep));
      }
    }
  }

  predicate PlainText(s: string) {
    StringKeyCell(s) == KeyCell(3, 0, s)
  }

  /** Nine parts with the fold in the second or in the first text are the same twelve. */
  lemma SameFlat(x: string, y: string, z: string, t: string, three: string, zero: string, sep: char)
    ensures Join([three, zero, x, three, zero, Join([y, three, zero, z], sep), three, zero, t], sep) ==
      Join([three, zero, Join([x, three, zero, y], sep), three, zero, z, three, zero, t], sep)
  {
    var early, late := Join([x, three, zero, y], sep), Join([y, three, zero, z], sep);
    var flat := [three, zero, x, three, zero, y, three, zero, z, three, zero, t];
    assert Join([three, zero, x, three, zero, late, three, zero, t], sep) == Join(flat, sep) by {
      JoinNested([three, zero, x, three, zero], [y, three, zero, z], [three, zero, t], sep);
      assert [three, zero, x, three, zero] + [late] + [three, zero, t] == [three, zero, x, three, zero, late, three, zero, t];
      assert [three, zero, x, three, zero] + [y, three, zero, z] + [three, zero, t] == flat;
    }
    assert Join([three, zero, early, three, zero, z, three, zero, t], sep) == Join(flat, sep) by {
      JoinNested([three, zero], [x, three, zero, y], [three, zero, z, three, zero, t], sep);
      assert [three, zero] + [early] + [three, zero, z, three, zero, t] == [three, zero, early, three, zero, z, three, zero, t];
      assert [three, zero] + [x, three, zero, y] + [three, zero, z, three, zero, t] == flat;
    }
  }

  lemma Refolded(x: string, y: string, z: string, t: string, three: string, zero: string, sep: char)
    requires three == ['3'] && zero == ['0'] && sep == '\0'
    requires PlainText(x) && PlainText(z) && PlainText(t)
    requires PlainText(Join([x, three, zero, y], sep)) && PlainText(Join([y, three, zero, z], sep))
    ensures IdOf([Text(x), Text(Join([y, three, zero, z], sep)), Text(t)]) == IdOf([Text(Join([x, three, zero, y], sep)), Text(z), Text(t)])
  {
    PartsOfTexts(x, Join([y, three, zero, z], sep), t);
    PartsOfTexts(Join([x, three, zero, y], sep), z, t);
    SameFlat(x, y, z, t, three, zero, sep);
  }

  /** Two texts joined the way a wide key joins them. */
  function Fold(x: string, y: string, three: string, zero: string): (r: string)
    requires x != []
    ensures |r| > |x| + |y| && r[0] == x[0]
  {
    var parts := [x, three, zero, y];
    assert parts[1..] == [three, zero, y] && parts[1..][1..] == [zero, y] && parts[1..][1..][1..] == [y];
    assert Join(parts[1..][1..], '\0') == zero + ['\0'] + Join(parts[1..][1..][1..], '\0');
    assert Join(parts[1..], '\0') == three + ['\0'] + Join(parts[1..][1..], '\0');
    Join(parts, '\0')
  }

  predicate NotNumeric(s: string) {
    s != "" && s[0] != '-' && !IsDigit(s[0])
  }

  /** With a NUL in its texts a wide tuple is taken for another one: whatever the four texts, as long as they do not
      look like numbers, the two tuples differ in their second column and share their identity. */
  lemma NulCollides(x: string, y: string, z: string, t: string, three: string, zero: string)
    requires three == ['3'] && zero == ['0']
    requires NotNumeric(x) && NotNumeric(y) && NotNumeric(z) && NotNumeric(t)
    ensures IdOf([Text(x), Text(Fold(y, z, three, zero)), Text(t)]) == IdOf([Text(Fold(x, y, three, zero)), Text(z), Text(t)])
    ensures !Agree(Text(Fold(y, z, three, zero)), Text(z))
  {
    Refolded(x, y, z, t, three, zero, '\0');
    SameCellIff(Text(Fold(y, z, three, zero)), Text(z));
  }
}
