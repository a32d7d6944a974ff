/** Small value types and sequence/string helpers shared by every module. */
module Common {

  /** A value that may be absent: JavaScript's `null`/`undefined` collapse to `None`. */
  datatype Option<+T> = None | Some(value: T) {
    function GetOr(default: T): T {
      match this
      case Some(v) => v
      case None => default
    }
  }

  /** A present, non-empty string: what JavaScript treats as a truthy `string | null`. */
  predicate TruthyStr(v: Option<string>) {
    v.Some? && v.value != ""
  }

  /** Success or failure with an error value: the model of a thrown exception. */
  datatype Result<+R, +E> = Success(value: R) | Failure(error: E)

  /** No element occurs twice. */
  ghost predicate Distinct<T>(s: seq<T>) {
    forall i, j :: 0 <= i < j < |s| ==> s[i] != s[j]
  }

  /** In a sequence without repetitions every element occurs at most once. */
  lemma {:induction false} DistinctCount<T>(s: seq<T>, x: T)
    requires Distinct(s)
    ensures multiset(s)[x] <= 1
  {
    if |s| > 0 {
      assert s == [s[0]] + s[1..];
      DistinctCount(s[1..], x);
      assert s[0] !in s[1..];
    }
  }

  /** A permutation of a sequence without repetitions has none either. */
  lemma DistinctPermutation<T>(a: seq<T>, b: seq<T>)
    requires Distinct(a) && multiset(a) == multiset(b)
    ensures Distinct(b)
  {
    forall i, j | 0 <= i < j < |b|
      ensures b[i] != b[j]
    {
      var x := b[i];
      DistinctCount(a, x);
      assert b == b[..j] + b[j..];
      assert x in b[..j];
      assert multiset(b[..j])[x] >= 1;
      assert multiset(b[j..])[x] == 0;
      assert b[j] in b[j..];
    }
  }

  /** `s.filter(y => y !== x)`: every occurrence of `x` removed, the rest kept in order. */
  function RemoveAll<T(==)>(s: seq<T>, x: T): (r: seq<T>)
    ensures x !in r
    ensures forall i :: 0 <= i < |r| ==> r[i] in s && r[i] != x
    ensures forall i :: 0 <= i < |s| && s[i] != x ==> s[i] in r
    ensures |r| <= |s|
    ensures x !in s ==> r == s
  {
    if |s| == 0 then []
    else if s[0] == x then RemoveAll(s[1..], x)
    else [s[0]] + RemoveAll(s[1..], x)
  }

  lemma {:induction false} RemoveAllDistinct<T>(s: seq<T>, x: T)
    requires Distinct(s)
    ensures Distinct(RemoveAll(s, x))
  {
    if |s| > 0 {
      RemoveAllDistinct(s[1..], x);
      assert s[0] !in s[1..];
    }
  }

  /** `a.startsWith(p)` on strings, `a[..|p|] == p` on sequences. */
  predicate StartsWith<T(==)>(s: seq<T>, p: seq<T>) {
    |p| <= |s| && s[..|p|] == p
  }

  /** `s.includes(sub)`: `sub` occurs as a contiguous infix of `s`. */
  predicate Contains<T(==)>(s: seq<T>, sub: seq<T>)
    decreases |s|
  {
    StartsWith(s, sub) || (|s| > 0 && Contains(s[1..], sub))
  }

  /** `sub` occurs in `s` starting at index `i`. */
  predicate InfixAt<T(==)>(s: seq<T>, sub: seq<T>, i: int) {
    0 <= i && i + |sub| <= |s| && s[i..i + |sub|] == sub
  }

  /** `Contains` agrees with the positional definition of an infix. */
  lemma {:induction false} ContainsMeansInfix<T>(s: seq<T>, sub: seq<T>)
    ensures Contains(s, sub) <==> exists i :: InfixAt(s, sub, i)
    decreases |s|
  {
    if exists i :: InfixAt(s, sub, i) {
      var i :| InfixAt(s, sub, i);
      if i == 0 {
        assert s[..|sub|] == s[0..0 + |sub|];
      } else {
        assert s[1..][i - 1..i - 1 + |sub|] == s[i..i + |sub|];
        assert InfixAt(s[1..], sub, i - 1);
        ContainsMeansInfix(s[1..], sub);
      }
    }
    if Contains(s, sub) {
      if StartsWith(s, sub) {
        assert InfixAt(s, sub, 0);
      } else {
        ContainsMeansInfix(s[1..], sub);
        var i :| InfixAt(s[1..], sub, i);
        assert s[i + 1..i + 1 + |sub|] == s[1..][i..i + |sub|];
        assert InfixAt(s, sub, i + 1);
      }
    }
  }

  /**
   * White space and line terminators as ECMAScript's `String.prototype.trim`
   * removes them: TAB, VT, FF, SP, NBSP, ZWNBSP, the Zs category, LF, CR, LS, PS.
   */
  predicate IsJsWhitespace(c: char) {
    || c == '\U{9}' || c == '\U{B}' || c == '\U{C}' || c == '\U{20}'
    || c == '\U{A0}' || c == '\U{FEFF}' || c == '\U{1680}'
    || ('\U{2000}' <= c <= '\U{200A}') || c == '\U{202F}' || c == '\U{205F}' || c == '\U{3000}'
    || c == '\U{A}' || c == '\U{D}' || c == '\U{2028}' || c == '\U{2029}'
  }

  function TrimStart(s: string): (r: string)
    ensures |r| <= |s| && r == s[|s| - |r|..]
    ensures |r| == 0 || !IsJsWhitespace(r[0])
    ensures forall i :: 0 <= i < |s| - |r| ==> IsJsWhitespace(s[i])
  {
    if |s| > 0 && IsJsWhitespace(s[0]) then TrimStart(s[1..]) else s
  }

  function TrimEnd(s: string): (r: string)
    ensures |r| <= |s| && r == s[..|r|]
    ensures |r| == 0 || !IsJsWhitespace(r[|r| - 1])
    ensures forall i :: |r| <= i < |s| ==> IsJsWhitespace(s[i])
  {
    if |s| > 0 && IsJsWhitespace(s[|s| - 1]) then TrimEnd(s[..|s| - 1]) else s
  }

  /** `s.trim()`. */
  function Trim(s: string): (r: string)
  {
    TrimEnd(TrimStart(s))
  }

  /** The trimmed string is an infix of the input with no white space at either end. */
  lemma TrimIsInfix(s: string)
    ensures exists i :: InfixAt(s, Trim(s), i)
    ensures |Trim(s)| > 0 ==> !IsJsWhitespace(Trim(s)[0]) && !IsJsWhitespace(Trim(s)[|Trim(s)| - 1])
  {
    var a := TrimStart(s);
    var t := TrimEnd(a);
    var i := |s| - |a|;
    assert a == s[i..];
    assert t == a[..|t|];
    assert s[i..i + |t|] == s[i..][..|t|];
    assert InfixAt(s, t, i);
    assert t == Trim(s);
  }

  /** Trimming leaves nothing exactly when the input is all white space. */
  lemma TrimEmptyIffBlank(s: string)
    ensures |Trim(s)| == 0 <==> forall i :: 0 <= i < |s| ==> IsJsWhitespace(s[i])
  {
    var a := TrimStart(s);
  }

  /** Trimming twice is trimming once. */
  lemma TrimIdempotent(s: string)
    ensures Trim(Trim(s)) == Trim(s)
  {
    var t := Trim(s);
    if |t| > 0 {
      TrimIsInfix(s);
    }
  }

  /** `pieces.join(sep)`. */
  function Join(pieces: seq<string>, sep: string): (r: string)
    ensures |pieces| == 0 ==> r == ""
    ensures |pieces| > 0 ==> |r| == SumLengths(pieces) + (|pieces| - 1) * |sep|
  {
    if |pieces| == 0 then ""
    else if |pieces| == 1 then pieces[0]
    else pieces[0] + sep + Join(pieces[1..], sep)
  }

  function SumLengths(pieces: seq<string>): nat {
    if |pieces| == 0 then 0 else |pieces[0]| + SumLengths(pieces[1..])
  }

  /** Joining with a non-empty separator is empty exactly when there is at most one piece and it is empty. */
  lemma {:induction false} JoinEmptyIff(pieces: seq<string>, sep: string)
    requires |sep| > 0
    ensures Join(pieces, sep) == "" <==> |pieces| == 0 || (|pieces| == 1 && pieces[0] == "")
  {
    if |pieces| > 1 {
      assert |Join(pieces, sep)| >= |sep|;
    }
  }

  /**
   * Joining one more piece appends the separator and the piece; with the
   * empty join this fixes the joined text's contents piece by piece.
   */
  lemma {:induction false} JoinAppend(pieces: seq<string>, p: string, sep: string)
    ensures Join(pieces + [p], sep) == if |pieces| == 0 then p else Join(pieces, sep) + sep + p
    decreases |pieces|
  {
    var longer := pieces + [p];
    if |pieces| == 0 {
      assert longer == [p];
    } else if |pieces| == 1 {
      assert longer[1..] == [p];
    } else {
      assert longer[1..] == pieces[1..] + [p];
      JoinAppend(pieces[1..], p, sep);
      assert Join(longer, sep) == pieces[0] + sep + (Join(pieces[1..], sep) + sep + p);
    }
  }

  /** ASCII upper-case letters mapped to lower case; everything else unchanged. */
  function ToLowerAscii(s: string): (r: string)
    ensures |r| == |s|
    ensures forall i :: 0 <= i < |s| ==> r[i] == LowerChar(s[i])
  {
    if |s| == 0 then "" else [LowerChar(s[0])] + ToLowerAscii(s[1..])
  }

  function LowerChar(c: char): char {
    if 'A' <= c <= 'Z' then (c as int + 32) as char else c
  }
}
