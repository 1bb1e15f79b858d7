/** String helpers with the JavaScript semantics the screens rely on:
    `String.prototype.trim`, `split` on one character, `Array.prototype.join`,
    the decimal rendering of `Date.now().toString()` and ASCII upper-casing. */
module Text {

  /** JavaScript's WhiteSpace and LineTerminator characters, the set `trim` removes. */
  predicate IsWhitespace(c: char) {
    || c == ' ' || c == '\t' || c == '\n' || c == '\r'
    || c == '\U{000B}' || c == '\U{000C}' || c == '\U{00A0}' || c == '\U{1680}'
    || ('\U{2000}' <= c <= '\U{200A}')
    || c == '\U{2028}' || c == '\U{2029}' || c == '\U{202F}' || c == '\U{205F}'
    || c == '\U{3000}' || c == '\U{FEFF}'
  }

  predicate AllWhitespace(s: string) {
    forall i :: 0 <= i < |s| ==> IsWhitespace(s[i])
  }

  /** `s` without its leading whitespace. */
  function TrimStart(s: string): (r: string)
    ensures |r| <= |s| && r == s[|s| - |r|..]
    ensures AllWhitespace(s[..|s| - |r|])
    ensures r == [] || !IsWhitespace(r[0])
  {
    if s != [] && IsWhitespace(s[0]) then
      var r := TrimStart(s[1..]);
      var cut, cutTail := s[..|s| - |r|], s[1..][..|s[1..]| - |r|];
      forall i | 0 <= i < |cut| ensures IsWhitespace(cut[i]) {
        if i > 0 {
          assert cut[i] == cutTail[i - 1];
        }
      }
      r
    else s
  }

  /** `s` without its trailing whitespace. */
  function TrimEnd(s: string): (r: string)
    ensures |r| <= |s| && r == s[..|r|]
    ensures AllWhitespace(s[|r|..])
    ensures r == [] || !IsWhitespace(r[|r| - 1])
  {
    if s != [] && IsWhitespace(s[|s| - 1]) then
      var r := TrimEnd(s[..|s| - 1]);
      var cut, cutInit := s[|r|..], s[..|s| - 1][|r|..];
      forall i | 0 <= i < |cut| ensures IsWhitespace(cut[i]) {
        if i < |cutInit| {
          assert cut[i] == cutInit[i];
        }
      }
      r
    else s
  }

  /** `s.trim()`. */
  function Trim(s: string): string {
    TrimEnd(TrimStart(s))
  }

  /** The trimmed text is a contiguous piece of `s` that starts and ends with a
      non-whitespace character, and everything cut away on either side is whitespace. */
  lemma TrimIsInnerSlice(s: string)
    ensures exists i, j ::
      (0 <= i <= j <= |s| && Trim(s) == s[i..j] && AllWhitespace(s[..i]) && AllWhitespace(s[j..]))
    ensures Trim(s) == [] || (!IsWhitespace(Trim(s)[0]) && !IsWhitespace(Trim(s)[|Trim(s)| - 1]))
  {
    var i, j := TrimBounds(s);
    TrimEnds(s);
  }

  /** Where the trimmed text sits in `s`. */
  lemma TrimBounds(s: string) returns (i: nat, j: nat)
    ensures i <= j <= |s| && Trim(s) == s[i..j]
    ensures AllWhitespace(s[..i]) && AllWhitespace(s[j..])
  {
    var t := TrimStart(s);
    i := |s| - |t|;
    var r := TrimEnd(t);
    j := i + |r|;
    assert r == s[i..j] by {
      assert r == t[..|r|] && t == s[i..];
    }
    assert s[j..] == t[|r|..] by {
      assert t == s[i..];
    }
    assert AllWhitespace(t[|r|..]);
  }

  /** The trimmed text neither starts nor ends with whitespace. */
  lemma TrimEnds(s: string)
    ensures Trim(s) == [] || (!IsWhitespace(Trim(s)[0]) && !IsWhitespace(Trim(s)[|Trim(s)| - 1]))
  {
    var t := TrimStart(s);
    var r := TrimEnd(t);
    if r != [] {
      assert r[0] == t[0];
    }
  }

  /** `text.trim()` is falsy exactly when the text is made of whitespace only. */
  lemma TrimEmptyIffAllWhitespace(s: string)
    ensures Trim(s) == [] <==> AllWhitespace(s)
  {
    var t := TrimStart(s);
    var k := |s| - |t|;
    if Trim(s) == [] {
      assert s[..k] == s;
    } else {
      var r := Trim(s);
      assert r == t[..|r|];
      assert s[k] == r[0];
    }
  }

  /** Trimming twice changes nothing more. */
  lemma TrimIdempotent(s: string)
    ensures Trim(Trim(s)) == Trim(s)
  {
    var r := Trim(s);
    TrimIsInnerSlice(s);
    assert TrimStart(r) == r;
    assert TrimEnd(r) == r;
  }

  /** `segs.join(sep)`: the segments with `sep` between neighbours. */
  function Join(segs: seq<string>, sep: string): string {
    if segs == [] then ""
    else if |segs| == 1 then segs[0]
    else segs[0] + sep + Join(segs[1..], sep)
  }

  /** `s.split(d)` for one separator character, where `cur` is the segment read so far. */
  function SplitFrom(s: string, d: char, cur: string): (r: seq<string>)
    ensures |r| >= 1
    decreases |s|
  {
    if s == [] then [cur]
    else if s[0] == d then [cur] + SplitFrom(s[1..], d, "")
    else SplitFrom(s[1..], d, cur + [s[0]])
  }

  /** `s.split(d)`: the empty string splits into one empty segment. */
  function Split(s: string, d: char): seq<string> {
    SplitFrom(s, d, "")
  }

  lemma {:induction false} JoinSplitFrom(s: string, d: char, cur: string)
    ensures Join(SplitFrom(s, d, cur), [d]) == cur + s
    decreases |s|
  {
    if s == [] {
    } else if s[0] == d {
      var rest := SplitFrom(s[1..], d, "");
      JoinSplitFrom(s[1..], d, "");
      assert [cur] + rest == [cur] + rest;
      assert ([cur] + rest)[1..] == rest;
      assert Join([cur] + rest, [d]) == cur + [d] + Join(rest, [d]);
      assert cur + s == cur + [d] + s[1..];
    } else {
      JoinSplitFrom(s[1..], d, cur + [s[0]]);
      assert cur + s == (cur + [s[0]]) + s[1..];
    }
  }

  /** Splitting on `d` and joining with `d` gives back the original string. */
  lemma JoinSplit(s: string, d: char)
    ensures Join(Split(s, d), [d]) == s
  {
    JoinSplitFrom(s, d, "");
  }

  /** JavaScript's `toUpperCase` on one character, for the ASCII letters. */
  function UpperChar(c: char): char {
    if 'a' <= c <= 'z' then (c as int - 32) as char else c
  }

  /** The decimal digit for `d`. */
  function Digit(d: nat): char
    requires d < 10
  {
    ('0' as int + d) as char
  }

  /** `n.toString()` for a non-negative integer, as `Date.now().toString()` renders ids. */
  function NatToString(n: nat): (r: string)
    ensures |r| >= 1
    ensures forall i :: 0 <= i < |r| ==> '0' <= r[i] <= '9'
  {
    if n < 10 then [Digit(n)] else NatToString(n / 10) + [Digit(n % 10)]
  }

  /** Two different numbers never render to the same digits. */
  lemma {:induction false} NatToStringInjective(a: nat, b: nat)
    requires NatToString(a) == NatToString(b)
    ensures a == b
    decreases a
  {
    var ra, rb := NatToString(a), NatToString(b);
    if a < 10 || b < 10 {
    } else {
      assert ra[|ra| - 1] == Digit(a % 10);
      assert rb[|rb| - 1] == Digit(b % 10);
      assert a % 10 == b % 10;
      assert NatToString(a / 10) == ra[..|ra| - 1] == rb[..|rb| - 1] == NatToString(b / 10);
      NatToStringInjective(a / 10, b / 10);
    }
  }
}
