/** LIKE patterns for a literal text. */
module LikePattern {
  import opened Sequences

  predicate IsSpecial(c: char) {
    c == '%' || c == '_' || c == '\\'
  }

  function EscapeOne(c: char): string {
    if IsSpecial(c) then ['\\', c] else [c]
  }

  function EscapeLike(src: string): string {
    if src == "" then "" else EscapeOne(src[0]) + EscapeLike(src[1..])
  }

  /** `makeLikeString`. */
  function MakeLikeString(src: string, front: bool, back: bool): string {
    (if front then "%" else "") + EscapeLike(src) + (if back then "%" else "")
  }

  /** LIKE with backslash as its escape character (section 8.5 of ISO/IEC 9075-2): `%` stands for any text, `_` for any
      character, an escaped special for itself. */
  ghost predicate Like(pattern: string, t: string)
    decreases |pattern|
  {
    if pattern == "" then t == ""
    else if pattern[0] == '%' then exists k: nat :: k <= |t| && Like(pattern[1..], t[k..])
    else if pattern[0] == '_' then t != "" && Like(pattern[1..], t[1..])
    else if pattern[0] == '\\' then
      |pattern| > 1 && IsSpecial(pattern[1]) && t != "" && t[0] == pattern[1] && Like(pattern[2..], t[1..])
    else t != "" && t[0] == pattern[0] && Like(pattern[1..], t[1..])
  }

  /** Every escape is followed by what may be escaped; anything else is an error in the standard. */
  predicate IsPattern(pattern: string)
    decreases |pattern|
  {
    pattern == "" ||
    if pattern[0] == '\\' then |pattern| > 1 && IsSpecial(pattern[1]) && IsPattern(pattern[2..]) else IsPattern(pattern[1..])
  }

  lemma {:induction false} EscapedIsPattern(src: string, rest: string)
    requires IsPattern(rest)
    ensures IsPattern(EscapeLike(src) + rest)
  {
    if src == "" {
      assert EscapeLike(src) + rest == rest;
    } else {
      var more := EscapeLike(src[1..]) + rest;
      EscapedIsPattern(src[1..], rest);
      Regroup(EscapeOne(src[0]), EscapeLike(src[1..]), rest);
      EscapedOneIsPattern(src[0], more);
    }
  }

  lemma EscapedOneIsPattern(c: char, more: string)
    requires IsPattern(more)
    ensures IsPattern(EscapeOne(c) + more)
  {
    var all := EscapeOne(c) + more;
    if IsSpecial(c) {
      assert all[2..] == more;
    } else {
      assert all[1..] == more;
    }
  }

  /** The pattern is never in error. */
  lemma MadeIsPattern(src: string, front: bool, back: bool)
    ensures IsPattern(MakeLikeString(src, front, back))
  {
    var end := if back then "%" else "";
    assert back ==> end[1..] == "";
    EscapedIsPattern(src, end);
    var inner := EscapeLike(src) + end;
    assert MakeLikeString(src, front, back) == (if front then "%" else "") + inner;
    assert ("%" + inner)[1..] == inner && "" + inner == inner;
  }

  lemma LikeChar(c: char, more: string, t: string)
    ensures Like(EscapeOne(c) + more, t) <==> t != "" && t[0] == c && Like(more, t[1..])
  {
    var all := EscapeOne(c) + more;
    if IsSpecial(c) {
      assert all[2..] == more;
    } else {
      assert all[1..] == more;
    }
  }

  lemma PrefixNext(src: string, t: string)
    requires src != "" && t != ""
    ensures src <= t <==> src[0] == t[0] && src[1..] <= t[1..]
    ensures src <= t ==> t[1..][|src| - 1..] == t[|src|..]
  {
    assert src == [src[0]] + src[1..] && t == [t[0]] + t[1..];
  }

  /** Escaped text matches itself, and the pattern goes on after it. */
  lemma {:induction false} LikeEscaped(src: string, rest: string, t: string)
    ensures Like(EscapeLike(src) + rest, t) <==> src <= t && Like(rest, t[|src|..])
  {
    if src == "" {
      assert EscapeLike(src) + rest == rest && t[0..] == t;
    } else {
      Regroup(EscapeOne(src[0]), EscapeLike(src[1..]), rest);
      LikeChar(src[0], EscapeLike(src[1..]) + rest, t);
      if t != "" {
        LikeEscaped(src[1..], rest, t[1..]);
        PrefixNext(src, t);
      }
    }
  }

  lemma LikeEnd(back: bool, t: string)
    ensures Like(if back then "%" else "", t) <==> back || t == ""
  {
    if back {
      assert "%"[1..] == "" && t[|t|..] == "";
      assert Like("%"[1..], t[|t|..]);
    }
  }

  predicate OccursAt(src: string, t: string, k: nat) {
    k <= |t| && src <= t[k..]
  }

  /** What the two flags ask for: the text itself, a prefix, a suffix, or a part anywhere. */
  ghost predicate Holds(src: string, front: bool, back: bool, t: string) {
    match (front, back)
    case (false, false) => t == src
    case (false, true) => src <= t
    case (true, false) => |src| <= |t| && t[|t| - |src|..] == src
    case (true, true) => exists k: nat :: OccursAt(src, t, k)
  }

  lemma LikeFromHere(src: string, back: bool, t: string)
    ensures Like(EscapeLike(src) + (if back then "%" else ""), t) <==> src <= t && (back || t == src)
  {
    LikeEscaped(src, if back then "%" else "", t);
    if src <= t {
      LikeEnd(back, t[|src|..]);
      assert t == src + t[|src|..];
    }
  }

  lemma LikeAnywhere(src: string, back: bool, inner: string, t: string)
    requires inner == EscapeLike(src) + (if back then "%" else "")
    ensures Like("%" + inner, t) <==> exists k: nat :: OccursAt(src, t, k) && (back || t[k..] == src)
  {
    assert ("%" + inner)[1..] == inner;
    forall k: nat | k <= |t| ensures Like(inner, t[k..]) <==> OccursAt(src, t, k) && (back || t[k..] == src) {
      LikeFromHere(src, back, t[k..]);
    }
  }

  lemma OccursAtEnd(src: string, t: string)
    ensures (exists k: nat :: OccursAt(src, t, k) && t[k..] == src) <==> |src| <= |t| && t[|t| - |src|..] == src
  {
    if |src| <= |t| && t[|t| - |src|..] == src {
      assert OccursAt(src, t, |t| - |src|);
    }
    if k: nat :| OccursAt(src, t, k) && t[k..] == src {
      assert k == |t| - |src|;
    }
  }

  /** The pattern matches a text exactly when the source is where the flags ask for it, whatever characters it has. */
  lemma LikeIff(src: string, front: bool, back: bool, t: string)
    ensures Like(MakeLikeString(src, front, back), t) <==> Holds(src, front, back, t)
  {
    var inner := EscapeLike(src) + (if back then "%" else "");
    if front {
      assert MakeLikeString(src, front, back) == "%" + inner;
      LikeAnywhere(src, back, inner, t);
      OccursAtEnd(src, t);
    } else {
      assert MakeLikeString(src, front, back) == inner;
      LikeFromHere(src, back, t);
    }
  }
}
