/**
 * The pieces of java.lang that the three stages call: String.indexOf,
 * String.split on a single literal character with limit -1, String.trim,
 * String.equalsIgnoreCase, and the numeric library routines, which are
 * taken as given functions.
 */
module JavaLang {
  import opened Wrappers

  /**
   * Double.parseDouble (None where it throws NumberFormatException),
   * Math.sqrt and the "%.6f" conversion of String.format. Their exact
   * behaviour (IEEE rounding, the decimal grammar, the locale) is not
   * modelled; every stage receives them as parameters.
   */
  datatype Numerics = Numerics(
    parseDouble: string -> Option<real>,
    sqrt: real -> real,
    formatFixed6: real -> string)

  /** String.indexOf(c, from), except that "not found" is |s| instead of -1. */
  function IndexOf(s: string, c: char, from: nat): (k: nat)
    requires from <= |s|
    ensures from <= k <= |s|
    ensures k < |s| ==> s[k] == c
    ensures forall j :: from <= j < k ==> s[j] != c
    decreases |s| - from
  {
    if from == |s| || s[from] == c then from else IndexOf(s, c, from + 1)
  }

  /** The first occurrence is unique: any index that satisfies IndexOf's contract is IndexOf. */
  lemma IndexOfIsFirst(s: string, c: char, from: nat, k: nat)
    requires from <= k <= |s|
    requires k < |s| ==> s[k] == c
    requires forall j :: from <= j < k ==> s[j] != c
    ensures IndexOf(s, c, from) == k
  {
  }

  /**
   * s.split(Pattern.quote(d), -1): the pieces between occurrences of d,
   * keeping leading and trailing empty pieces. A string without d splits
   * into itself.
   */
  function Split(s: string, d: char): (parts: seq<string>)
    ensures |parts| >= 1
    decreases |s|
  {
    var k := IndexOf(s, d, 0);
    if k == |s| then [s] else [s[..k]] + Split(s[k + 1..], d)
  }

  /** A split has more than one piece exactly when s holds the separator. */
  lemma SplitHasSeparator(s: string, d: char)
    ensures |Split(s, d)| >= 2 <==> d in s
  {
    var k := IndexOf(s, d, 0);
    if k < |s| {
      assert s[k] == d;
    } else {
      assert forall j :: 0 <= j < |s| ==> s[j] != d;
    }
  }

  /** String.join(d, parts), the inverse of Split. */
  function Join(parts: seq<string>, d: char): (s: string)
    decreases |parts|
  {
    if |parts| == 0 then ""
    else if |parts| == 1 then parts[0]
    else parts[0] + [d] + Join(parts[1..], d)
  }

  /** Every character of every piece of a split is a character of s other than d. */
  lemma {:induction false} SplitPiecesAvoid(s: string, d: char)
    ensures forall n, j :: 0 <= n < |Split(s, d)| && 0 <= j < |Split(s, d)[n]| ==>
      Split(s, d)[n][j] != d && Split(s, d)[n][j] in s
    decreases |s|
  {
    var k := IndexOf(s, d, 0);
    if k < |s| {
      SplitPiecesAvoid(s[k + 1..], d);
      var parts := Split(s, d);
      var rest := Split(s[k + 1..], d);
      assert parts == [s[..k]] + rest;
      forall n, j | 0 <= n < |parts| && 0 <= j < |parts[n]|
        ensures parts[n][j] != d && parts[n][j] in s
      {
        if n == 0 {
          assert parts[n][j] == s[j];
        } else {
          assert parts[n] == rest[n - 1];
          assert rest[n - 1][j] in s[k + 1..];
        }
      }
    }
  }

  /** A d-free first piece followed by d splits off as the first part. */
  lemma SplitCons(p: string, d: char, rest: string)
    requires d !in p
    ensures Split(p + [d] + rest, d) == [p] + Split(rest, d)
  {
    var s := p + [d] + rest;
    assert s[|p|] == d;
    assert forall j :: 0 <= j < |p| ==> s[j] == p[j] != d;
    IndexOfIsFirst(s, d, 0, |p|);
    assert s[..|p|] == p;
    assert s[|p| + 1..] == rest;
  }

  /** Splitting a joined sequence of d-free pieces gives the pieces back. */
  lemma {:induction false} SplitJoin(parts: seq<string>, d: char)
    requires |parts| >= 1
    requires forall i :: 0 <= i < |parts| ==> d !in parts[i]
    ensures Split(Join(parts, d), d) == parts
    decreases |parts|
  {
    if |parts| > 1 {
      var rest := parts[1..];
      assert forall i :: 0 <= i < |rest| ==> d !in rest[i] by {
        forall i | 0 <= i < |rest| ensures d !in rest[i] {
          assert rest[i] == parts[i + 1];
        }
      }
      SplitJoin(rest, d);
      assert Join(parts, d) == parts[0] + [d] + Join(rest, d);
      SplitCons(parts[0], d, Join(rest, d));
      assert parts == [parts[0]] + rest;
    } else {
      assert Join(parts, d) == parts[0];
      IndexOfIsFirst(parts[0], d, 0, |parts[0]|);
    }
  }

  /** Joining the pieces of a split with the same separator rebuilds the string. */
  lemma {:induction false} JoinSplit(s: string, d: char)
    ensures Join(Split(s, d), d) == s
    decreases |s|
  {
    var k := IndexOf(s, d, 0);
    if k < |s| {
      JoinSplit(s[k + 1..], d);
      var rest := Split(s[k + 1..], d);
      assert Split(s, d) == [s[..k]] + rest;
      assert Split(s, d)[1..] == rest;
      assert s == s[..k] + [d] + s[k + 1..];
    }
  }

  /** String.trim's notion of white space: every character at or below U+0020. */
  predicate IsTrimmed(c: char)
  {
    c <= ' '
  }

  /** No white space at either end, so String.trim leaves the string as it is. */
  predicate HasNoSurroundingSpace(s: string)
  {
    s == [] || (!IsTrimmed(s[0]) && !IsTrimmed(s[|s| - 1]))
  }

  function TrimLeading(s: string): (t: string)
    ensures |t| <= |s| && t == s[|s| - |t|..]
    ensures t == [] || !IsTrimmed(t[0])
    ensures forall i :: 0 <= i < |s| - |t| ==> IsTrimmed(s[i])
    decreases |s|
  {
    if |s| > 0 && IsTrimmed(s[0]) then TrimLeading(s[1..]) else s
  }

  function TrimTrailing(s: string): (t: string)
    ensures |t| <= |s| && t == s[..|t|]
    ensures t == [] || !IsTrimmed(t[|t| - 1])
    ensures forall i :: |t| <= i < |s| ==> IsTrimmed(s[i])
    decreases |s|
  {
    if |s| > 0 && IsTrimmed(s[|s| - 1]) then TrimTrailing(s[..|s| - 1]) else s
  }

  /** t is s less a white-space prefix of length a and a white-space suffix. */
  predicate IsMiddle(s: string, a: nat, t: string)
  {
    && a + |t| <= |s| && t == s[a..a + |t|]
    && (forall i :: 0 <= i < a ==> IsTrimmed(s[i]))
    && (forall i :: a + |t| <= i < |s| ==> IsTrimmed(s[i]))
  }

  /** A white-space prefix dropped, then a white-space suffix: what is left is a middle slice. */
  lemma TrimmedMiddle(s: string, l: string, t: string)
    requires |l| <= |s| && l == s[|s| - |l|..] && forall i :: 0 <= i < |s| - |l| ==> IsTrimmed(s[i])
    requires |t| <= |l| && t == l[..|t|] && forall i :: |t| <= i < |l| ==> IsTrimmed(l[i])
    ensures IsMiddle(s, |s| - |l|, t)
  {
    var a := |s| - |l|;
    assert t == s[a..a + |t|];
    forall i | a + |t| <= i < |s|
      ensures IsTrimmed(s[i])
    {
      assert s[i] == l[i - a];
    }
  }

  /**
   * String.trim returns the middle slice of s: what it drops at either end
   * is white space only.
   */
  lemma TrimIsMiddle(s: string)
    ensures exists a :: IsMiddle(s, a, Trim(s))
  {
    var l := TrimLeading(s);
    TrimmedMiddle(s, l, TrimTrailing(l));
    assert Trim(s) == TrimTrailing(l);
    assert IsMiddle(s, |s| - |l|, Trim(s));
  }

  /**
   * String.trim: drops the white space at both ends. The result has none
   * left at either end, keeps only characters of s, and is s itself when s
   * has no surrounding white space; TrimIsMiddle shows it is a middle slice.
   */
  function Trim(s: string): (t: string)
    ensures HasNoSurroundingSpace(t)
    ensures |t| <= |s| && forall c :: c in t ==> c in s
    ensures HasNoSurroundingSpace(s) ==> t == s
  {
    var l := TrimLeading(s);
    var t := TrimTrailing(l);
    assert forall c :: c in t ==> c in l;
    assert forall c :: c in l ==> c in s;
    t
  }

  function ToUpperAscii(c: char): char
  {
    if 'a' <= c <= 'z' then (c as int - 32) as char else c
  }

  /**
   * String.equalsIgnoreCase restricted to ASCII case folding: same length
   * and, position by position, equal characters or equal upper-case forms.
   */
  predicate EqualsIgnoreCase(a: string, b: string)
  {
    |a| == |b| && forall i :: 0 <= i < |a| ==> a[i] == b[i] || ToUpperAscii(a[i]) == ToUpperAscii(b[i])
  }

  /** String.valueOf(boolean), the text "%b" writes. */
  function BooleanText(b: bool): string
  {
    if b then "true" else "false"
  }

  /** "%b" text reads back as true, ignoring case, exactly when the flag was true. */
  lemma BooleanTextReadsBack(b: bool)
    ensures EqualsIgnoreCase(BooleanText(b), "true") <==> b
  {
  }

  function Abs(x: real): (r: real)
    ensures r >= 0.0 && (r == x || r == -x)
  {
    if x < 0.0 then -x else x
  }
}
