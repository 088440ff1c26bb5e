/** The JavaScript built-ins that the editor's logic leans on, with the
    semantics the language gives them: a possibly-`undefined` value,
    `Math.ceil`, `Math.abs`, `Array.prototype.slice`,
    `String.prototype.includes`, `String.prototype.trim` and the decimal
    rendering of a non-negative integer by template literals. */
module Js {

  /** A value that may be `undefined`. */
  datatype Option<+T> = None | Some(value: T)

  /** `Math.ceil`: the least integer that is not below `x`. */
  function Ceil(x: real): (n: int)
    ensures x <= n as real < x + 1.0
  {
    -((-x).Floor)
  }

  /** `Math.abs` on a number. */
  function Abs(x: real): (r: real)
    ensures 0.0 <= r && (r == x || r == -x)
  {
    if x < 0.0 then -x else x
  }

  /** How `slice` reads one index argument against a length: a negative
      index counts back from the end, and the outcome is clamped to
      `[0, len]`. */
  function RelIndex(k: int, len: nat): (r: nat)
    ensures r <= len
    ensures 0 <= k <= len ==> r == k
    ensures len < k ==> r == len
    ensures k < 0 ==> r == if len + k < 0 then 0 else len + k
  {
    if k < 0 then (if len + k < 0 then 0 else len + k)
    else if k < len then k
    else len
  }

  /** `s.slice(b, e)`. */
  function Slice<T>(s: seq<T>, b: int, e: int): (r: seq<T>)
    ensures |r| <= |s|
    ensures RelIndex(b, |s|) < RelIndex(e, |s|) ==> r == s[RelIndex(b, |s|)..RelIndex(e, |s|)]
    ensures RelIndex(e, |s|) <= RelIndex(b, |s|) ==> r == []
  {
    var lo, hi := RelIndex(b, |s|), RelIndex(e, |s|);
    if lo < hi then s[lo..hi] else []
  }

  /** `s.slice(b)`. */
  function SliceFrom<T>(s: seq<T>, b: int): (r: seq<T>)
    ensures |r| == |s| - RelIndex(b, |s|)
    ensures r == s[RelIndex(b, |s|)..]
  {
    s[RelIndex(b, |s|)..]
  }

  /** Whatever the split index, `s.slice(0, k)` followed by `s.slice(k)`
      gives back `s`: the two halves partition the array. */
  lemma SliceSplit<T>(s: seq<T>, k: int)
    ensures Slice(s, 0, k) + SliceFrom(s, k) == s
  {
    var m := RelIndex(k, |s|);
    if m == 0 {
      assert Slice(s, 0, k) == [];
    } else {
      assert Slice(s, 0, k) == s[..m];
      assert s[..m] + s[m..] == s;
    }
  }

  /** `hay.includes(needle)`: `needle` occurs in `hay` as a contiguous piece. */
  predicate Includes(hay: string, needle: string)
    decreases |hay|
  {
    needle <= hay || (hay != [] && Includes(hay[1..], needle))
  }

  /** A string includes itself, and the empty string includes only the empty
      string. */
  lemma {:induction false} IncludesFacts(s: string, needle: string)
    ensures Includes(s, s)
    ensures Includes([], needle) <==> needle == []
  {
  }

  /** The characters `String.prototype.trim` removes: the ECMAScript
      WhiteSpace and LineTerminator code points. */
  predicate IsSpace(ch: char)
  {
    || ch == ' ' || ch == '\t' || ch == '\n' || ch == '\r'
    || ch == '\U{000B}' || ch == '\U{000C}' || ch == '\U{00A0}' || ch == '\U{1680}'
    || ('\U{2000}' <= ch <= '\U{200A}')
    || ch == '\U{2028}' || ch == '\U{2029}' || ch == '\U{202F}' || ch == '\U{205F}'
    || ch == '\U{3000}' || ch == '\U{FEFF}'
  }

  /** Drops leading white space. */
  function TrimStart(s: string): (r: string)
    ensures |r| <= |s| && r == s[|s| - |r|..]
    ensures forall i :: 0 <= i < |s| - |r| ==> IsSpace(s[i])
    ensures r == [] || !IsSpace(r[0])
    decreases |s|
  {
    if s != [] && IsSpace(s[0]) then TrimStart(s[1..]) else s
  }

  /** Drops trailing white space. */
  function TrimEnd(s: string): (r: string)
    ensures |r| <= |s| && r == s[..|r|]
    ensures forall i :: |r| <= i < |s| ==> IsSpace(s[i])
    ensures r == [] || !IsSpace(r[|r| - 1])
    decreases |s|
  {
    if s != [] && IsSpace(s[|s| - 1]) then TrimEnd(s[..|s| - 1]) else s
  }

  /** `s` is `r` with only white space before offset `k` and after the
      piece `s[k..k + |r|]`. */
  predicate Padded(s: string, r: string, k: nat)
  {
    && k + |r| <= |s| && s[k..k + |r|] == r
    && (forall i :: 0 <= i < k ==> IsSpace(s[i]))
    && (forall i :: k + |r| <= i < |s| ==> IsSpace(s[i]))
  }

  /** `s.trim()`: the result is a piece of `s` with no white space at
      either end, and only white space around it in `s`; it is empty
      exactly when `s` is all white space. */
  function Trim(s: string): (r: string)
    ensures r == [] || (!IsSpace(r[0]) && !IsSpace(r[|r| - 1]))
    ensures r == [] <==> forall i :: 0 <= i < |s| ==> IsSpace(s[i])
    ensures exists k: nat :: Padded(s, r, k)
    ensures Includes(s, r)
  {
    var r := TrimEnd(TrimStart(s));
    TrimFacts(s);
    TrimPadded(s);
    r
  }

  /** Only white space surrounds the piece `trim()` keeps, which starts
      where `TrimStart` stopped. */
  lemma TrimPadded(s: string)
    ensures Padded(s, TrimEnd(TrimStart(s)), |s| - |TrimStart(s)|)
  {
    var left := TrimStart(s);
    var r := TrimEnd(left);
    assert |left| <= |s| && left == s[|s| - |left|..];
    assert forall i :: 0 <= i < |s| - |left| ==> IsSpace(s[i]);
    assert |r| <= |left| && r == left[..|r|];
    assert forall i :: |r| <= i < |left| ==> IsSpace(left[i]);
    PaddedPieces(s, left, r);
  }

  /** White space before `left` in `s` and after `r` in `left` is white
      space around `r` in `s`. */
  lemma PaddedPieces(s: string, left: string, r: string)
    requires |left| <= |s| && left == s[|s| - |left|..]
    requires forall i :: 0 <= i < |s| - |left| ==> IsSpace(s[i])
    requires |r| <= |left| && r == left[..|r|]
    requires forall i :: |r| <= i < |left| ==> IsSpace(left[i])
    ensures Padded(s, r, |s| - |left|)
  {
    var k := |s| - |left|;
    forall i | k + |r| <= i < |s| ensures IsSpace(s[i]) {
      assert s[i] == left[i - k];
    }
  }

  /** What `Trim` promises, for its two-step definition: the piece kept
      starts where `TrimStart` stopped. */
  lemma TrimFacts(s: string)
    ensures var r := TrimEnd(TrimStart(s));
      && (r == [] || (!IsSpace(r[0]) && !IsSpace(r[|r| - 1])))
      && (r == [] <==> forall i :: 0 <= i < |s| ==> IsSpace(s[i]))
      && Includes(s, r)
  {
    var left := TrimStart(s);
    var r := TrimEnd(left);
    if r == [] {
      forall i | 0 <= i < |s| ensures IsSpace(s[i]) {
        if i >= |s| - |left| {
          assert s[i] == left[i - (|s| - |left|)];
        }
      }
    } else {
      assert r[0] == left[0];
      assert s[|s| - |left|] == r[0];
    }
    assert s[|s| - |left|..|s| - |left| + |r|] == r;
    IncludesPiece(s, |s| - |left|, r);
  }

  /** A piece taken at offset `k` is included. */
  lemma {:induction false} IncludesPiece(s: string, k: nat, piece: string)
    requires k + |piece| <= |s| && s[k..k + |piece|] == piece
    ensures Includes(s, piece)
    decreases k
  {
    if k == 0 {
      assert piece <= s;
    } else {
      assert s[1..][k - 1..k - 1 + |piece|] == piece;
      IncludesPiece(s[1..], k - 1, piece);
    }
  }

  /** The decimal digit for `d`. */
  function Digit(d: nat): (ch: char)
    requires d < 10
    ensures '0' <= ch <= '9' && ch as int == 48 + d
  {
    (48 + d) as char
  }

  /** The number a string of decimal digits denotes. */
  function DigitsValue(r: string): nat
    requires forall i :: 0 <= i < |r| ==> '0' <= r[i] <= '9'
  {
    if r == [] then 0 else DigitsValue(r[..|r| - 1]) * 10 + (r[|r| - 1] as int - 48)
  }

  /** `${n}` for a non-negative integer: the shortest string of decimal
      digits that denotes `n` (no leading zero unless `n` is 0). */
  function DecimalString(n: nat): (r: string)
    ensures |r| >= 1
    ensures forall i :: 0 <= i < |r| ==> '0' <= r[i] <= '9'
    ensures DigitsValue(r) == n
    ensures r[0] == '0' ==> r == "0"
  {
    if n < 10 then [Digit(n)]
    else
      var r := DecimalString(n / 10) + [Digit(n % 10)];
      assert r[..|r| - 1] == DecimalString(n / 10);
      r
  }
}
