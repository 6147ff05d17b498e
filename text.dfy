/** String operations of the JavaScript standard library that the booking screens rely on. */
module Text {

  /** The code points ECMAScript calls WhiteSpace or LineTerminator: those `String.prototype.trim` removes. */
  const Spaces: set<char> := {
    '\t', '\n', '\U{000B}', '\U{000C}', '\r', ' ', '\U{00A0}', '\U{1680}',
    '\U{2000}', '\U{2001}', '\U{2002}', '\U{2003}', '\U{2004}', '\U{2005}', '\U{2006}',
    '\U{2007}', '\U{2008}', '\U{2009}', '\U{200A}',
    '\U{2028}', '\U{2029}', '\U{202F}', '\U{205F}', '\U{3000}', '\U{FEFF}'
  }

  predicate IsSpace(c: char) {
    c in Spaces
  }

  predicate AllSpace(s: string) {
    forall i :: 0 <= i < |s| ==> IsSpace(s[i])
  }

  /** `sub` occurs in `s` starting at index `i`. */
  predicate OccursAt(s: string, sub: string, i: int) {
    0 <= i <= |s| - |sub| && s[i..i + |sub|] == sub
  }

  /** JavaScript's includes: `sub` occurs somewhere in `s`. */
  function Contains(s: string, sub: string): (r: bool)
    ensures r <==> exists i :: OccursAt(s, sub, i)
    decreases |s|
  {
    if |s| < |sub| then false
    else if s[..|sub|] == sub then assert OccursAt(s, sub, 0); true
    else
      var r := Contains(s[1..], sub);
      assert forall i :: OccursAt(s[1..], sub, i) <==> OccursAt(s, sub, i + 1) by {
        forall i ensures OccursAt(s[1..], sub, i) <==> OccursAt(s, sub, i + 1) {
          if 0 <= i <= |s| - 1 - |sub| {
            assert s[1..][i..i + |sub|] == s[i + 1..i + 1 + |sub|];
          }
        }
      }
      assert !OccursAt(s, sub, 0);
      assert (exists i :: OccursAt(s, sub, i)) ==> exists j :: OccursAt(s[1..], sub, j) by {
        if i :| OccursAt(s, sub, i) {
          assert OccursAt(s[1..], sub, i - 1);
        }
      }
      r
  }

  /** JavaScript's trimStart: the suffix of `s` left after its leading white space. */
  function TrimStart(s: string): (r: string)
    ensures |r| <= |s| && r == s[|s| - |r|..]
    ensures AllSpace(s[..|s| - |r|])
    ensures r == [] || !IsSpace(r[0])
  {
    if s != [] && IsSpace(s[0]) then
      var r := TrimStart(s[1..]);
      assert s[..|s| - |r|] == [s[0]] + s[1..][..|s[1..]| - |r|];
      r
    else s
  }

  /** JavaScript's trimEnd: the prefix of `s` left before its trailing white space. */
  function TrimEnd(s: string): (r: string)
    ensures |r| <= |s| && r == s[..|r|]
    ensures AllSpace(s[|r|..])
    ensures r == [] || !IsSpace(r[|r| - 1])
  {
    if s != [] && IsSpace(s[|s| - 1]) then
      var r := TrimEnd(s[..|s| - 1]);
      assert s[|r|..] == s[..|s| - 1][|r|..] + [s[|s| - 1]];
      r
    else s
  }

  /**
   * JavaScript's trim: no longer than `s`, with white space at neither end, and empty exactly when
   * `s` is all white space. TrimCutsOnlySpace states which slice of `s` it is.
   */
  function Trim(s: string): (r: string)
    ensures |r| <= |s|
    ensures r == [] || (!IsSpace(r[0]) && !IsSpace(r[|r| - 1]))
    ensures r == [] <==> AllSpace(s)
  {
    var t := TrimStart(s);
    var r := TrimEnd(t);
    TrimStartEmptyIffAllSpace(s);
    r
  }

  /**
   * What Trim computes, trailing white space cut from the string left after the leading white
   * space: a slice of `s`, with only white space cut off before and after it.
   */
  lemma {:induction false} TrimCutsOnlySpace(s: string)
    ensures var k := |s| - |TrimStart(s)|; var r := TrimEnd(TrimStart(s));
      && k + |r| <= |s| && r == s[k..k + |r|]
      && AllSpace(s[..k]) && AllSpace(s[k + |r|..])
  {
    var t := TrimStart(s);
    var r := TrimEnd(t);
    SliceOfSlice(s, t, r);
    assert AllSpace(t[|r|..]);
  }

  /** `r`, a prefix of the suffix `t` of `s`, is a slice of `s`, and what follows it in `t` is what follows it in `s`. */
  lemma {:induction false} SliceOfSlice(s: string, t: string, r: string)
    requires |t| <= |s| && t == s[|s| - |t|..]
    requires |r| <= |t| && r == t[..|r|]
    ensures r == s[|s| - |t|..|s| - |t| + |r|] && s[|s| - |t| + |r|..] == t[|r|..]
  {
  }

  /** ASCII upper-casing of one character. */
  function UpperChar(c: char): char {
    if 'a' <= c <= 'z' then (c as int - 'a' as int + 'A' as int) as char else c
  }

  /** JavaScript's toUpperCase, for ASCII letters. */
  function Upper(s: string): string {
    seq(|s|, i requires 0 <= i < |s| => UpperChar(s[i]))
  }

  /** The first `n` characters of `s`, or all of it when it is shorter. */
  function Take(s: string, n: nat): (r: string)
    ensures |r| == (if n <= |s| then n else |s|)
    ensures r == s[..|r|]
  {
    if n <= |s| then s[..n] else s
  }

  /**
   * The non-empty parts, in order: a list without empty parts is kept whole, no empty part survives,
   * and (NonEmptyAppend) the filter works piece by piece.
   */
  function NonEmpty(parts: seq<string>): (r: seq<string>)
    ensures |r| <= |parts|
    ensures forall p :: p in r <==> p in parts && p != ""
    ensures (forall i :: 0 <= i < |parts| ==> parts[i] != "") ==> r == parts
  {
    if parts == [] then [] else (if parts[0] != "" then [parts[0]] else []) + NonEmpty(parts[1..])
  }

  lemma {:induction false} NonEmptyAppend(a: seq<string>, b: seq<string>)
    ensures NonEmpty(a + b) == NonEmpty(a) + NonEmpty(b)
    decreases |a|
  {
    if a == [] {
      assert a + b == b;
    } else {
      assert (a + b)[0] == a[0];
      assert (a + b)[1..] == a[1..] + b;
      NonEmptyAppend(a[1..], b);
    }
  }

  /** JavaScript's join: the parts with `sep` between neighbours. */
  function Join(parts: seq<string>, sep: string): string {
    if parts == [] then "" else if |parts| == 1 then parts[0] else parts[0] + sep + Join(parts[1..], sep)
  }

  // Facts about trimming that the payment description relies on.

  lemma TrimStartEmptyIffAllSpace(s: string)
    ensures TrimStart(s) == [] <==> AllSpace(s)
  {
    var r := TrimStart(s);
    if r == [] {
      assert s[..|s|] == s;
    } else {
      assert r[0] == s[|s| - |r|];
    }
  }

  lemma TrimEmptyIffAllSpace(s: string)
    ensures Trim(s) == [] <==> AllSpace(s)
  {
    TrimStartEmptyIffAllSpace(s);
  }

  /** Leading white space followed by more text trims to the trimmed rest. */
  lemma {:induction false} TrimStartAfterSpace(x: string, y: string)
    requires AllSpace(x)
    ensures TrimStart(x + y) == TrimStart(y)
  {
    if x != [] {
      assert (x + y)[1..] == x[1..] + y;
      assert AllSpace(x[1..]) by {
        forall i | 0 <= i < |x[1..]| ensures IsSpace(x[1..][i]) { assert x[1..][i] == x[i + 1]; }
      }
      assert (x + y)[0] == x[0];
      TrimStartAfterSpace(x[1..], y);
    } else {
      assert x + y == y;
    }
  }

  /** Text that survives trimStart keeps everything appended to it. */
  lemma {:induction false} TrimStartKeepsTail(x: string, y: string)
    requires TrimStart(x) != []
    ensures TrimStart(x + y) == TrimStart(x) + y
  {
    if x != [] && IsSpace(x[0]) {
      assert (x + y)[1..] == x[1..] + y;
      assert (x + y)[0] == x[0];
      TrimStartKeepsTail(x[1..], y);
    } else {
      assert x != [];
      assert (x + y)[0] == x[0];
    }
  }

  /** Text that ends in a character other than white space is left alone by trimEnd. */
  lemma TrimEndKeepsVisibleEnd(s: string)
    requires s != [] && !IsSpace(s[|s| - 1])
    ensures TrimEnd(s) == s
  {
  }

  /** Text with a visible start keeps a tail that ends visibly, through both trims. */
  lemma TrimKeepsVisibleTail(x: string, y: string)
    requires TrimStart(x) != []
    requires y != [] && !IsSpace(y[|y| - 1])
    ensures Trim(x + y) == TrimStart(x) + y
  {
    TrimStartKeepsTail(x, y);
    var s := TrimStart(x) + y;
    assert s[|s| - 1] == y[|y| - 1];
    TrimEndKeepsVisibleEnd(s);
  }

  /** Text that both starts and ends with visible characters is its own trim. */
  lemma TrimOfVisibleEnds(s: string)
    requires s != [] && !IsSpace(s[0]) && !IsSpace(s[|s| - 1])
    ensures Trim(s) == s
  {
  }
}
