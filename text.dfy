/** String helpers shared by the modules below: the ASCII parts of JavaScript's
    `toLowerCase`, `trim`, `includes`, `split(c)` and `join(sep)`, and the
    decimal rendering of a non-negative integer (`toString`). */
module Text {

  /** Upper-case ASCII letters are the only characters `toLowerCase` changes here. */
  predicate IsUpper(c: char) { 'A' <= c <= 'Z' }

  predicate IsLowerAlnum(c: char) { 'a' <= c <= 'z' || '0' <= c <= '9' }

  function LowerChar(c: char): (r: char)
    ensures !IsUpper(r)
    ensures !IsUpper(c) ==> r == c
    ensures IsUpper(c) ==> r as int == c as int + 32
  {
    if IsUpper(c) then (c as int + 32) as char else c
  }

  function Lower(s: string): (r: string)
    ensures |r| == |s|
    ensures forall i :: 0 <= i < |s| ==> r[i] == LowerChar(s[i])
    ensures forall i :: 0 <= i < |r| ==> !IsUpper(r[i])
  {
    seq(|s|, i requires 0 <= i < |s| => LowerChar(s[i]))
  }

  /** Lower-casing leaves a string without upper-case letters unchanged. */
  lemma LowerIdentity(s: string)
    requires forall i :: 0 <= i < |s| ==> !IsUpper(s[i])
    ensures Lower(s) == s
  {
    assert forall i :: 0 <= i < |s| ==> Lower(s)[i] == s[i];
  }

  /** The ASCII white-space characters that `String.prototype.trim` removes. */
  predicate IsSpace(c: char)
  {
    c == ' ' || c == '\t' || c == '\n' || c == '\r' || c == '\U{B}' || c == '\U{C}'
  }

  /** Drops the leading white space: the result is a suffix of `s`, everything
      dropped is white space and the result does not start with white space. */
  function TrimStart(s: string): (r: string)
    ensures |r| <= |s| && r == s[|s| - |r|..]
    ensures forall i :: 0 <= i < |s| - |r| ==> IsSpace(s[i])
    ensures r == [] || !IsSpace(r[0])
  {
    if s != [] && IsSpace(s[0]) then TrimStart(s[1..]) else s
  }

  /** Drops the trailing white space: the result is a prefix of `s`. */
  function TrimEnd(s: string): (r: string)
    ensures |r| <= |s| && r == s[..|r|]
    ensures forall i :: |r| <= i < |s| ==> IsSpace(s[i])
    ensures r == [] || !IsSpace(r[|r| - 1])
  {
    if s != [] && IsSpace(s[|s| - 1]) then TrimEnd(s[..|s| - 1]) else s
  }

  /** `s[i..i + |r|]` is `r`, and everything of `s` outside it is white space. */
  predicate TrimmedAt(s: string, r: string, i: int)
  {
    && OccursAt(s, r, i)
    && (forall k :: 0 <= k < i ==> IsSpace(s[k]))
    && (forall k :: i + |r| <= k < |s| ==> IsSpace(s[k]))
  }

  /** `trim()`: the piece of `s` left once the white space at both edges is
      removed; it is empty exactly when `s` is all white space. */
  function Trim(s: string): (r: string)
    ensures |r| <= |s|
    ensures r == [] || (!IsSpace(r[0]) && !IsSpace(r[|r| - 1]))
    ensures exists i :: TrimmedAt(s, r, i)
    ensures r == [] <==> forall k :: 0 <= k < |s| ==> IsSpace(s[k])
    ensures Contains(s, r)
  {
    TrimPieces(s);
    TrimStartKeepsEnd(s);
    var i := |s| - |TrimStart(s)|;
    assert OccursAt(s, TrimEnd(TrimStart(s)), i);
    TrimEnd(TrimStart(s))
  }

  lemma TrimPieces(s: string)
    ensures TrimmedAt(s, TrimEnd(TrimStart(s)), |s| - |TrimStart(s)|)
    ensures TrimEnd(TrimStart(s)) == [] <==> forall k :: 0 <= k < |s| ==> IsSpace(s[k])
  {
    var a := TrimStart(s);
    var r := TrimEnd(a);
    var i := |s| - |a|;
    TrimmedAtParts(s, a, r, i);
    TrimStartKeepsEnd(s);
    TrimmedEmpty(s, r, i);
  }

  /** A trimmed piece that does not start with white space is empty exactly
      when everything around it, that is all of `s`, is white space. */
  lemma TrimmedEmpty(s: string, r: string, i: int)
    requires TrimmedAt(s, r, i)
    requires r == [] || !IsSpace(r[0])
    ensures r == [] <==> forall k :: 0 <= k < |s| ==> IsSpace(s[k])
  {
    if r != [] {
      assert s[i] == s[i..i + |r|][0] == r[0];
    }
  }

  lemma TrimmedAtParts(s: string, a: string, r: string, i: int)
    requires 0 <= i <= |s| && a == s[i..]
    requires |r| <= |a| && r == a[..|r|]
    requires forall k :: 0 <= k < i ==> IsSpace(s[k])
    requires forall k :: |r| <= k < |a| ==> IsSpace(a[k])
    ensures TrimmedAt(s, r, i)
  {
    assert s[i..i + |r|] == r;
    assert forall k :: i + |r| <= k < |s| ==> s[k] == a[k - i];
  }

  lemma TrimStartKeepsEnd(s: string)
    ensures TrimEnd(TrimStart(s)) == [] || !IsSpace(TrimEnd(TrimStart(s))[0])
  {
    var a := TrimStart(s);
    var r := TrimEnd(a);
    if r != [] {
      assert r[0] == a[0];
    }
  }

  /** Trimming is idempotent. */
  lemma {:induction false} TrimIdempotent(s: string)
    ensures Trim(Trim(s)) == Trim(s)
  {
    NoEdgeSpaceTrim(Trim(s));
  }

  lemma NoEdgeSpaceTrim(t: string)
    requires t == [] || (!IsSpace(t[0]) && !IsSpace(t[|t| - 1]))
    ensures Trim(t) == t
  {
    NoEdgeSpaceTrimStart(t);
    NoEdgeSpaceTrimEnd(t);
    assert Trim(t) == TrimEnd(TrimStart(t));
  }

  lemma NoEdgeSpaceTrimStart(t: string)
    requires t == [] || !IsSpace(t[0])
    ensures TrimStart(t) == t
  {
  }

  lemma NoEdgeSpaceTrimEnd(t: string)
    requires t == [] || !IsSpace(t[|t| - 1])
    ensures TrimEnd(t) == t
  {
  }

  /** `t` occurs in `s` starting at index `i`. */
  predicate OccursAt(s: string, t: string, i: int)
  {
    0 <= i && i + |t| <= |s| && s[i..i + |t|] == t
  }

  /** `includes`: `t` occurs somewhere in `s` as a contiguous piece. */
  function Contains(s: string, t: string): (r: bool)
    ensures r <==> exists i :: OccursAt(s, t, i)
  {
    if t <= s then
      assert OccursAt(s, t, 0);
      true
    else if s == [] then
      false
    else
      var r := Contains(s[1..], t);
      if r then
        var i :| OccursAt(s[1..], t, i);
        assert OccursAt(s, t, i + 1);
        r
      else
        assert forall i :: OccursAt(s, t, i) ==> i >= 1 && OccursAt(s[1..], t, i - 1);
        r
  }

  /** Every string includes the empty string. */
  lemma ContainsEmpty(s: string)
    ensures Contains(s, "")
  {
    assert OccursAt(s, "", 0);
  }

  /** Number of occurrences of `c` in `s`. */
  function Count(s: string, c: char): (n: nat)
    ensures n <= |s|
    ensures n == 0 <==> c !in s
  {
    if s == [] then 0 else (if s[0] == c then 1 else 0) + Count(s[1..], c)
  }

  /** `join(sep)` of JavaScript arrays, for arrays of strings. */
  function Join(ss: seq<string>, sep: string): (r: string)
    ensures ss == [] ==> r == ""
    ensures |ss| == 1 ==> r == ss[0]
  {
    if ss == [] then "" else if |ss| == 1 then ss[0] else ss[0] + sep + Join(ss[1..], sep)
  }

  /** `split(c)` for a one-character separator: the pieces between the
      occurrences of `c`, empty pieces included. */
  function Split(s: string, c: char): (r: seq<string>)
    ensures |r| == Count(s, c) + 1
    ensures forall k :: 0 <= k < |r| ==> c !in r[k]
  {
    if s == [] then [""]
    else
      var rest := Split(s[1..], c);
      if s[0] == c then [""] + rest else [[s[0]] + rest[0]] + rest[1..]
  }

  /** A string without the separator is one piece. */
  lemma {:induction false} SplitNoSep(w: string, c: char)
    requires c !in w
    ensures Split(w, c) == [w]
  {
    if w != [] {
      assert c !in w[1..];
      SplitNoSep(w[1..], c);
      assert w == [w[0]] + w[1..];
    }
  }

  /** Splitting `a + [c] + b` splits `a` and `b` separately. */
  lemma {:induction false} SplitAround(a: string, b: string, c: char)
    ensures Split(a + [c] + b, c) == Split(a, c) + Split(b, c)
  {
    var t := a + [c] + b;
    if a == [] {
      assert t == [c] + b;
      SplitStep(t, c);
      assert t[1..] == b;
    } else {
      assert t[0] == a[0] && t[1..] == a[1..] + [c] + b;
      SplitAround(a[1..], b, c);
      SplitStep(t, c);
      SplitStep(a, c);
      ConsPieces(a[0], a[0] == c, Split(a[1..], c), Split(b, c));
    }
  }

  /** One step of `Split`, as an equation. */
  lemma SplitStep(s: string, c: char)
    requires s != []
    ensures var rest := Split(s[1..], c);
            Split(s, c) == if s[0] == c then [""] + rest else [[s[0]] + rest[0]] + rest[1..]
  {
  }

  /** Adding a first character, or a new empty first piece, commutes with
      appending more pieces. */
  lemma ConsPieces(x: char, sep: bool, p: seq<string>, q: seq<string>)
    requires p != []
    ensures var pq := p + q;
            (if sep then [""] + pq else [[x] + pq[0]] + pq[1..]) ==
            (if sep then [""] + p else [[x] + p[0]] + p[1..]) + q
  {
    if !sep {
      assert (p + q)[1..] == p[1..] + q;
    }
  }

  /** Splitting pieces joined with a separator none of them holds gives back
      the pieces. */
  lemma {:induction false} SplitJoin(ss: seq<string>, c: char)
    requires ss != []
    requires forall k :: 0 <= k < |ss| ==> c !in ss[k]
    ensures Split(Join(ss, [c]), c) == ss
  {
    if |ss| == 1 {
      SplitNoSep(ss[0], c);
    } else {
      SplitJoin(ss[1..], c);
      SplitAround(ss[0], Join(ss[1..], [c]), c);
      SplitNoSep(ss[0], c);
      assert ss == [ss[0]] + ss[1..];
    }
  }

  /** Joining the pieces back with the separator gives the original string. */
  lemma {:induction false} JoinSplit(s: string, c: char)
    ensures Join(Split(s, c), [c]) == s
  {
    if s != [] {
      var rest := Split(s[1..], c);
      JoinSplit(s[1..], c);
      if s[0] == c {
        assert Split(s, c) == [""] + rest;
        assert Join([""] + rest, [c]) == "" + [c] + Join(rest, [c]);
      } else {
        assert Split(s, c) == [[s[0]] + rest[0]] + rest[1..];
        JoinFirstPiece(s[0], rest, c);
        assert s == [s[0]] + s[1..];
      }
    }
  }

  /** Putting a character in front of the first piece puts it in front of
      the joined text. */
  lemma JoinFirstPiece(x: char, rest: seq<string>, c: char)
    requires rest != []
    ensures Join([[x] + rest[0]] + rest[1..], [c]) == [x] + Join(rest, [c])
  {
    var r := [[x] + rest[0]] + rest[1..];
    if |rest| > 1 {
      assert r[1..] == rest[1..];
    }
  }

  predicate IsDigit(c: char) { '0' <= c <= '9' }

  function DigitChar(d: nat): (c: char)
    requires d < 10
    ensures IsDigit(c)
  {
    ('0' as int + d) as char
  }

  /** The number a string of decimal digits denotes, read left to right. */
  function DigitsValue(s: string): nat
    requires forall i :: 0 <= i < |s| ==> IsDigit(s[i])
  {
    if s == [] then 0
    else
      assert IsDigit(s[|s| - 1]);
      DigitsValue(s[..|s| - 1]) * 10 + (s[|s| - 1] as int - '0' as int)
  }

  /** `n.toString()` for a non-negative integer: a non-empty string of decimal
      digits that denotes `n`, with no leading zero unless it is "0". */
  function DecimalString(n: nat): (r: string)
    ensures |r| >= 1
    ensures forall i :: 0 <= i < |r| ==> IsDigit(r[i])
    ensures DigitsValue(r) == n
    ensures r[0] == '0' ==> n == 0
  {
    if n < 10 then
      assert [DigitChar(n)][..0] == [];
      [DigitChar(n)]
    else
      var front := DecimalString(n / 10);
      var r := front + [DigitChar(n % 10)];
      assert r[..|r| - 1] == front;
      r
  }
}
