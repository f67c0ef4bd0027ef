/** The JavaScript string built-ins the core relies on: `startsWith`, `trim`,
    `split` on a one-character separator and `Array.prototype.join`. */
module JsStrings {

  /** ECMAScript WhiteSpace and LineTerminator code points: what `String.prototype.trim`
      removes and what `Number.parseInt` skips before the number. */
  predicate IsWhitespace(c: char) {
    var n := c as int;
    || 0x09 <= n <= 0x0D || n == 0x20 || n == 0xA0 || n == 0x1680
    || 0x2000 <= n <= 0x200A || n == 0x2028 || n == 0x2029 || n == 0x202F
    || n == 0x205F || n == 0x3000 || n == 0xFEFF
  }

  predicate AllWhitespace(s: string) {
    forall i :: 0 <= i < |s| ==> IsWhitespace(s[i])
  }

  predicate StartsWith(s: string, prefix: string) {
    |prefix| <= |s| && s[..|prefix|] == prefix
  }

  predicate EndsWith(s: string, suffix: string) {
    |suffix| <= |s| && s[|s| - |suffix|..] == suffix
  }

  /** `s.trimStart()`: the suffix of `s` left after its longest whitespace prefix
      (`TrimStartSpec`). */
  function TrimStart(s: string): (r: string)
    ensures |r| <= |s|
  {
    if s != [] && IsWhitespace(s[0]) then TrimStart(s[1..]) else s
  }

  /** `s.trimEnd()`: the prefix of `s` left before its longest whitespace suffix
      (`TrimEndSpec`). */
  function TrimEnd(s: string): (r: string)
    ensures |r| <= |s|
  {
    if s != [] && IsWhitespace(s[|s| - 1]) then TrimEnd(s[..|s| - 1]) else s
  }

  /** `trimStart` removes a prefix of whitespace, and no more than that: what is left
      does not start with whitespace. */
  lemma {:induction false} TrimStartSpec(s: string)
    ensures var r := TrimStart(s);
            && r == s[|s| - |r|..]
            && AllWhitespace(s[..|s| - |r|])
            && (r == [] || !IsWhitespace(r[0]))
  {
    if s != [] && IsWhitespace(s[0]) {
      TrimStartSpec(s[1..]);
      var r := TrimStart(s);
      var k := |s| - |r|;
      assert s[1..][..k - 1] == s[1..k];
      assert forall i :: 1 <= i < k ==> s[i] == s[1..k][i - 1];
    }
  }

  /** `trimEnd` removes a suffix of whitespace, and no more than that: what is left
      does not end with whitespace. */
  lemma {:induction false} TrimEndSpec(s: string)
    ensures var r := TrimEnd(s);
            && r == s[..|r|]
            && AllWhitespace(s[|r|..])
            && (r == [] || !IsWhitespace(r[|r| - 1]))
  {
    if s != [] && IsWhitespace(s[|s| - 1]) {
      var p := s[..|s| - 1];
      TrimEndSpec(p);
      var r := TrimEnd(s);
      assert p[..|r|] == s[..|r|];
      assert forall i :: |r| <= i < |s| - 1 ==> s[i] == p[|r|..][i - |r|];
    }
  }

  /** `s.trim()`. */
  function Trim(s: string): (r: string)
  {
    TrimEnd(TrimStart(s))
  }

  /** A trimmed string neither starts nor ends with whitespace. */
  lemma TrimmedEnds(s: string)
    ensures var r := Trim(s);
            r == [] || (!IsWhitespace(r[0]) && !IsWhitespace(r[|r| - 1]))
  {
    var t := TrimStart(s);
    var u := TrimEnd(t);
    TrimStartSpec(s);
    TrimEndSpec(t);
    if u != [] {
      assert u[0] == t[0];
    }
  }

  /** Trimming only removes whitespace: `s` is `Trim(s)` with whitespace on either side. */
  lemma TrimIsInfix(s: string) returns (lead: string, trail: string)
    ensures s == lead + Trim(s) + trail
    ensures AllWhitespace(lead) && AllWhitespace(trail)
  {
    var t := TrimStart(s);
    var u := TrimEnd(t);
    TrimStartSpec(s);
    TrimEndSpec(t);
    lead := s[..|s| - |t|];
    trail := t[|u|..];
    InfixSplit(s, t, u);
  }

  lemma InfixSplit(s: string, t: string, u: string)
    requires |t| <= |s| && t == s[|s| - |t|..]
    requires |u| <= |t| && u == t[..|u|]
    ensures s == s[..|s| - |t|] + u + t[|u|..]
  {
    assert s == s[..|s| - |t|] + t;
    assert t == u + t[|u|..];
  }

  lemma {:induction false} TrimStartConcat(p: string, t: string)
    ensures TrimStart(p + t) == if AllWhitespace(p) then TrimStart(t) else TrimStart(p) + t
  {
    if p != [] {
      assert (p + t)[0] == p[0];
      assert (p + t)[1..] == p[1..] + t;
      if IsWhitespace(p[0]) {
        TrimStartConcat(p[1..], t);
        assert AllWhitespace(p) <==> AllWhitespace(p[1..]) by {
          if AllWhitespace(p[1..]) {
            forall i | 0 <= i < |p| ensures IsWhitespace(p[i]) {
              if i > 0 { assert p[i] == p[1..][i - 1]; }
            }
          }
        }
      }
    } else {
      assert p + t == t;
    }
  }

  lemma {:induction false} TrimEndConcat(p: string, t: string)
    ensures TrimEnd(p + t) == if AllWhitespace(t) then TrimEnd(p) else p + TrimEnd(t)
  {
    if t != [] {
      assert (p + t)[|p + t| - 1] == t[|t| - 1];
      assert (p + t)[..|p + t| - 1] == p + t[..|t| - 1];
      if IsWhitespace(t[|t| - 1]) {
        TrimEndConcat(p, t[..|t| - 1]);
        assert AllWhitespace(t) <==> AllWhitespace(t[..|t| - 1]) by {
          if AllWhitespace(t[..|t| - 1]) {
            forall i | 0 <= i < |t| ensures IsWhitespace(t[i]) {
              if i < |t| - 1 { assert t[i] == t[..|t| - 1][i]; }
            }
          }
        }
      }
    } else {
      assert p + t == p;
    }
  }

  lemma ConcatAssoc(a: string, b: string, c: string)
    ensures a + b + c == a + (b + c)
  {
  }

  /** Whitespace before a non-whitespace character is all `trimStart` removes. */
  lemma TrimStartAfterWhitespace(lead: string, t: string)
    requires AllWhitespace(lead)
    requires t != [] && !IsWhitespace(t[0])
    ensures TrimStart(lead + t) == t
  {
    TrimStartConcat(lead, t);
  }

  /** Whitespace after a non-whitespace character is all `trimEnd` removes. */
  lemma TrimEndBeforeWhitespace(t: string, trail: string)
    requires AllWhitespace(trail)
    requires t != [] && !IsWhitespace(t[|t| - 1])
    ensures TrimEnd(t + trail) == t
  {
    TrimEndConcat(t, trail);
    assert t + [] == t;
  }

  /** `s.split(sep)` for a one-character separator. As in JavaScript, the empty
      string splits into one empty piece and adjacent separators give empty pieces. */
  function Split(s: string, sep: char): (r: seq<string>)
    ensures |r| >= 1
    ensures forall i :: 0 <= i < |r| ==> sep !in r[i]
  {
    if s == [] then [""]
    else
      var rest := Split(s[1..], sep);
      if s[0] == sep then [""] + rest else [[s[0]] + rest[0]] + rest[1..]
  }

  /** `xs.join(sep)`. */
  function Join(xs: seq<string>, sep: string): string {
    if |xs| == 0 then ""
    else if |xs| == 1 then xs[0]
    else xs[0] + sep + Join(xs[1..], sep)
  }

  function Count(s: string, c: char): nat {
    if s == [] then 0 else (if s[0] == c then 1 else 0) + Count(s[1..], c)
  }

  /** Splitting and re-joining on the same separator gives back the string. */
  lemma {:induction false} JoinSplit(s: string, sep: char)
    ensures Join(Split(s, sep), [sep]) == s
  {
    if s != [] {
      var rest := Split(s[1..], sep);
      JoinSplit(s[1..], sep);
      if s[0] != sep {
        var r := Split(s, sep);
        assert r[1..] == rest[1..];
        if |rest| == 1 {
          assert Join(r, [sep]) == [s[0]] + rest[0];
        } else {
          assert Join(rest, [sep]) == rest[0] + [sep] + Join(rest[1..], [sep]);
          assert Join(r, [sep]) == [s[0]] + rest[0] + [sep] + Join(rest[1..], [sep]);
        }
      }
    }
  }

  /** The number of pieces is one more than the number of separators. */
  lemma {:induction false} SplitLength(s: string, sep: char)
    ensures |Split(s, sep)| == Count(s, sep) + 1
  {
    if s != [] {
      SplitLength(s[1..], sep);
    }
  }

  lemma {:induction false} SplitPrefix(x: string, t: string, sep: char)
    requires sep !in x
    ensures Split(x + t, sep) == [x + Split(t, sep)[0]] + Split(t, sep)[1..]
  {
    if x != [] {
      assert (x + t)[0] == x[0];
      assert (x + t)[1..] == x[1..] + t;
      SplitPrefix(x[1..], t, sep);
      assert [x[0]] + (x[1..] + Split(t, sep)[0]) == x + Split(t, sep)[0];
    } else {
      var r := Split(t, sep);
      assert x + t == t;
      assert x + r[0] == r[0];
      assert [r[0]] + r[1..] == r;
    }
  }

  /** Joining pieces that do not contain the separator and splitting again gives
      back the pieces. */
  lemma {:induction false} SplitJoin(xs: seq<string>, sep: char)
    requires |xs| >= 1
    requires forall i :: 0 <= i < |xs| ==> sep !in xs[i]
    ensures Split(Join(xs, [sep]), sep) == xs
  {
    if |xs| == 1 {
      SplitPrefix(xs[0], "", sep);
      assert xs[0] + "" == xs[0];
    } else {
      var tail := Join(xs[1..], [sep]);
      SplitJoin(xs[1..], sep);
      assert Join(xs, [sep]) == xs[0] + ([sep] + tail);
      SplitPrefix(xs[0], [sep] + tail, sep);
      assert ([sep] + tail)[1..] == tail;
      assert Split([sep] + tail, sep) == [""] + xs[1..];
      assert xs[0] + "" == xs[0];
    }
  }
}
