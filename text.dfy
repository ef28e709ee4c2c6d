/** The parts of JavaScript's `String.prototype` that the chat front end relies on:
    `trim()` (for the blank-draft test), `includes()` with a two-character argument
    (`'**'` and `'긍정'`), and `split('**')`. */
module Text {

  /** The code points JavaScript's `trim()` removes: the WhiteSpace and
      LineTerminator productions of the ECMAScript grammar. */
  predicate IsWhiteSpace(c: char) {
    var n := c as int;
    n == 0x09 || n == 0x0A || n == 0x0B || n == 0x0C || n == 0x0D || n == 0x20
    || n == 0xA0 || n == 0x1680 || (0x2000 <= n <= 0x200A) || n == 0x2028 || n == 0x2029
    || n == 0x202F || n == 0x205F || n == 0x3000 || n == 0xFEFF
  }

  /** Removes leading white space: the result is a suffix of `s` that does not start
      with white space, and everything cut off is white space. */
  function TrimStart(s: string): (r: string)
    ensures |r| <= |s| && r == s[|s| - |r|..]
    ensures r == [] || !IsWhiteSpace(r[0])
    ensures forall i :: 0 <= i < |s| - |r| ==> IsWhiteSpace(s[i])
  {
    if |s| > 0 && IsWhiteSpace(s[0]) then TrimStart(s[1..]) else s
  }

  /** Removes trailing white space: the result is a prefix of `s` that does not end
      with white space, and everything cut off is white space. */
  function TrimEnd(s: string): (r: string)
    ensures |r| <= |s| && r == s[..|r|]
    ensures r == [] || !IsWhiteSpace(r[|r| - 1])
    ensures forall i :: |r| <= i < |s| ==> IsWhiteSpace(s[i])
  {
    if |s| > 0 && IsWhiteSpace(s[|s| - 1]) then TrimEnd(s[..|s| - 1]) else s
  }

  /** `s.trim()`: a slice of `s`, starting where the leading white space ends, with
      no white space at either end; everything cut off on either side is white space. */
  function Trim(s: string): (r: string)
    ensures |r| <= |TrimStart(s)| && r == s[|s| - |TrimStart(s)|..][..|r|]
    ensures r == [] || (!IsWhiteSpace(r[0]) && !IsWhiteSpace(r[|r| - 1]))
    ensures forall i :: 0 <= i < |s| - |TrimStart(s)| ==> IsWhiteSpace(s[i])
    ensures forall i :: |s| - |TrimStart(s)| + |r| <= i < |s| ==> IsWhiteSpace(s[i])
  {
    TrimmedTail(s, TrimStart(s));
    TrimEnd(TrimStart(s))
  }

  /** What `TrimEnd` cuts off a suffix `t` of `s` is white space at the end of `s`. */
  lemma TrimmedTail(s: string, t: string)
    requires |t| <= |s| && t == s[|s| - |t|..]
    ensures forall i :: |s| - |t| + |TrimEnd(t)| <= i < |s| ==> IsWhiteSpace(s[i])
  {
    var r := TrimEnd(t);
    forall i | |s| - |t| + |r| <= i < |s|
      ensures IsWhiteSpace(s[i])
    {
      assert s[i] == t[i - (|s| - |t|)];
    }
  }

  /** `!s.trim()`: the string is empty once trimmed, which is exactly when every
      character of it is white space. */
  function IsBlank(s: string): (b: bool)
    ensures b <==> forall i :: 0 <= i < |s| ==> IsWhiteSpace(s[i])
  {
    var t := TrimStart(s);
    assert Trim(s) == [] <==> t == [] by {
      if t != [] { assert !IsWhiteSpace(t[0]); }
    }
    Trim(s) == []
  }

  /** `s.includes(w)` for the two-character string `w == [x, y]`. */
  predicate IncludesPair(s: string, x: char, y: char) {
    |s| >= 2 && ((s[0] == x && s[1] == y) || IncludesPair(s[1..], x, y))
  }

  /** The recursive test above agrees with the positional definition of an occurrence. */
  lemma {:induction false} IncludesPairAt(s: string, x: char, y: char)
    ensures IncludesPair(s, x, y) <==> exists i :: 0 <= i < |s| - 1 && s[i] == x && s[i + 1] == y
  {
    if |s| >= 2 {
      IncludesPairAt(s[1..], x, y);
      if exists i :: 0 <= i < |s| - 1 && s[i] == x && s[i + 1] == y {
        var i :| 0 <= i < |s| - 1 && s[i] == x && s[i + 1] == y;
        if i > 0 {
          assert s[1..][i - 1] == x && s[1..][i] == y;
        }
      }
      if IncludesPair(s[1..], x, y) {
        var i :| 0 <= i < |s[1..]| - 1 && s[1..][i] == x && s[1..][i + 1] == y;
        assert s[i + 1] == x && s[i + 2] == y;
      }
    }
  }

  /** An occurrence in `a + b` lies in `a`, in `b`, or straddles the seam. */
  lemma {:induction false} IncludesPairConcat(a: string, b: string, x: char, y: char)
    ensures IncludesPair(a + b, x, y) <==>
      IncludesPair(a, x, y) || IncludesPair(b, x, y)
      || (|a| > 0 && |b| > 0 && a[|a| - 1] == x && b[0] == y)
  {
    if a == [] {
      assert a + b == b;
    } else if |a| == 1 {
      assert (a + b)[1..] == b;
    } else {
      assert (a + b)[1..] == a[1..] + b;
      IncludesPairConcat(a[1..], b, x, y);
    }
  }

  /** A string in which `x` never occurs has no occurrence of a pair starting with `x`. */
  lemma {:induction false} NoFirstNoPair(s: string, x: char, y: char)
    requires x !in s
    ensures !IncludesPair(s, x, y)
  {
    if |s| >= 2 {
      assert s[0] != x;
      NoFirstNoPair(s[1..], x, y);
    }
  }

  /** `s.split('**')`: the pieces between the non-overlapping occurrences of `**`
      found scanning from the left. The first piece is a prefix of `s`, and no piece
      contains `**`. */
  function SplitMarker(s: string): (parts: seq<string>)
    ensures |parts| >= 1 && parts[0] <= s
    ensures forall k :: 0 <= k < |parts| ==> !IncludesPair(parts[k], '*', '*')
  {
    if |s| >= 2 && s[0] == '*' && s[1] == '*' then
      [""] + SplitMarker(s[2..])
    else if s == [] then
      [""]
    else
      var rest := SplitMarker(s[1..]);
      var first := [s[0]] + rest[0];
      assert rest[0] != [] ==> rest[0][0] == s[1];
      assert |first| >= 2 ==> first[1..] == rest[0];
      [first] + rest[1..]
  }

  /** `parts.join('**')`. */
  function JoinMarker(parts: seq<string>): string
    requires |parts| >= 1
  {
    if |parts| == 1 then parts[0] else parts[0] + "**" + JoinMarker(parts[1..])
  }

  /** Splitting loses nothing: joining the pieces again gives back the string. */
  lemma {:induction false} JoinSplit(s: string)
    ensures JoinMarker(SplitMarker(s)) == s
  {
    if |s| >= 2 && s[0] == '*' && s[1] == '*' {
      JoinSplit(s[2..]);
      assert s == "" + "**" + s[2..];
    } else if s != [] {
      var rest := SplitMarker(s[1..]);
      JoinSplit(s[1..]);
      if |rest| == 1 {
        assert s == [s[0]] + s[1..];
      } else {
        assert JoinMarker(rest) == rest[0] + "**" + JoinMarker(rest[1..]);
        assert s == [s[0]] + s[1..];
      }
    }
  }

  /** A string without `**` splits into itself alone. */
  lemma {:induction false} SplitWithoutMarker(s: string)
    requires !IncludesPair(s, '*', '*')
    ensures SplitMarker(s) == [s]
  {
    if s != [] {
      SplitWithoutMarker(s[1..]);
      assert s == [s[0]] + s[1..];
    }
  }

  /** A piece that holds no `**` and does not end in `*`, followed by `**`, comes
      off as the first piece of the split. (A piece ending in `*` would lose that `*`
      to the marker: see `Render.StarEndingLabelIsCut`.) */
  lemma {:induction false} SplitAfterPiece(a: string, rest: string)
    requires !IncludesPair(a, '*', '*')
    requires a == [] || a[|a| - 1] != '*'
    ensures SplitMarker(a + "**" + rest) == [a] + SplitMarker(rest)
  {
    var s := a + "**" + rest;
    if a == [] {
      assert s == "**" + rest && s[2..] == rest;
    } else {
      var tail := a[1..];
      assert s[1..] == tail + "**" + rest;
      assert [a[0]] + tail == a;
      assert !(s[0] == '*' && s[1] == '*') by {
        if |a| == 1 {
          assert s[0] == a[0] != '*';
        } else {
          assert s[0] == a[0] && s[1] == a[1];
        }
      }
      assert tail == [] || tail[|tail| - 1] != '*' by {
        if tail != [] {
          assert tail[|tail| - 1] == a[|a| - 1];
        }
      }
      SplitAfterPiece(tail, rest);
      var inner := SplitMarker(s[1..]);
      assert inner == [tail] + SplitMarker(rest);
      assert SplitMarker(s) == [[s[0]] + inner[0]] + inner[1..];
    }
  }

  /** Three pieces joined by `**` split back into those three pieces when the first
      two hold no `**` and do not end in `*` and the last holds no `**`. */
  lemma SplitThree(a: string, b: string, c: string)
    requires !IncludesPair(a, '*', '*') && (a == [] || a[|a| - 1] != '*')
    requires !IncludesPair(b, '*', '*') && (b == [] || b[|b| - 1] != '*')
    requires !IncludesPair(c, '*', '*')
    ensures SplitMarker(a + "**" + b + "**" + c) == [a, b, c]
  {
    var bc := b + "**" + c;
    var s := a + "**" + b + "**" + c;
    assert s == a + "**" + bc;
    SplitWithoutMarker(c);
    SplitAfterPiece(b, c);
    SplitAfterPiece(a, bc);
    calc {
      SplitMarker(s);
      SplitMarker(a + "**" + bc);
      [a] + SplitMarker(bc);
      [a] + ([b] + [c]);
    }
  }

  /** A string that splits into exactly three pieces is those pieces joined by `**`. */
  lemma JoinThree(s: string)
    ensures |SplitMarker(s)| == 3 ==> SplitMarker(s)[0] + "**" + SplitMarker(s)[1] + "**" + SplitMarker(s)[2] == s
  {
    var parts := SplitMarker(s);
    JoinSplit(s);
    if |parts| == 3 {
      assert JoinMarker(parts[2..]) == parts[2];
      assert JoinMarker(parts[1..]) == parts[1] + "**" + parts[2];
    }
  }

  /** A string with `**` somewhere in the middle includes `**`. */
  lemma IncludesMarker(a: string, rest: string)
    ensures IncludesPair(a + "**" + rest, '*', '*')
  {
    var s := a + "**" + rest;
    assert s[|a|] == '*' && s[|a| + 1] == '*';
    IncludesPairAt(s, '*', '*');
  }

  /** When `x` occurs neither in `a` nor in `c` and neither `x` nor `y` is `*`, the
      pair occurs in `a + "**" + b + "**" + c` exactly when it occurs in `b`. */
  lemma PairOnlyInMiddle(a: string, b: string, c: string, x: char, y: char)
    requires x !in a && x !in c && x != '*' && y != '*'
    ensures IncludesPair(a + "**" + b + "**" + c, x, y) <==> IncludesPair(b, x, y)
  {
    NoFirstNoPair(a + "**", x, y);
    NoFirstNoPair("**", x, y);
    NoFirstNoPair(c, x, y);
    IncludesPairConcat(a + "**", b, x, y);
    IncludesPairConcat(a + "**" + b, "**", x, y);
    IncludesPairConcat(a + "**" + b + "**", c, x, y);
  }
}
