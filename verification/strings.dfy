/** The JavaScript string methods the dashboard uses, on `seq<char>`:
    `toLowerCase`/`toUpperCase` (ASCII letters only), `includes`,
    `startsWith`, `replace` with a one-character pattern (first occurrence
    only), `split`/`join` on one character, `trim`, the `<=` ordering of
    strings, and decimal rendering of natural numbers. */
module Strings {

  function Lower(c: char): char
  {
    if 'A' <= c <= 'Z' then (c as int + 32) as char else c
  }

  function Upper(c: char): char
  {
    if 'a' <= c <= 'z' then (c as int - 32) as char else c
  }

  /** `s.toLowerCase()`. */
  function LowerStr(s: string): (r: string)
    ensures |r| == |s|
  {
    seq(|s|, i requires 0 <= i < |s| => Lower(s[i]))
  }

  /** `s.startsWith(t)`. */
  predicate StartsWith(s: string, t: string)
  {
    |t| <= |s| && s[..|t|] == t
  }

  /** `s.includes(t)`: `t` occurs somewhere in `s`. */
  predicate Contains(s: string, t: string)
    decreases |s|
  {
    StartsWith(s, t) || (|s| > 0 && Contains(s[1..], t))
  }

  /** The empty string is contained in every string, so an empty search term
      matches everything. */
  lemma ContainsEmpty(s: string)
    ensures Contains(s, "")
  {
  }

  /** A string that contains `t + u` contains `t`. */
  lemma {:induction false} ContainsPrefix(s: string, t: string, u: string)
    ensures Contains(s, t + u) ==> Contains(s, t)
    decreases |s|
  {
    if StartsWith(s, t + u) {
      assert s[..|t|] == (t + u)[..|t|] == t;
    } else if |s| > 0 {
      ContainsPrefix(s[1..], t, u);
    }
  }

  lemma LowerConcat(t: string, u: string)
    ensures LowerStr(t + u) == LowerStr(t) + LowerStr(u)
  {
  }

  /** `t` occurs in `s` at position `i`. */
  predicate OccursAt(s: string, t: string, i: int)
  {
    0 <= i <= |s| - |t| && s[i..][..|t|] == t
  }

  /** An occurrence found by `Contains` has a position. */
  lemma {:induction false} ContainsHasPosition(s: string, t: string) returns (i: int)
    requires Contains(s, t)
    ensures OccursAt(s, t, i)
    decreases |s|
  {
    if StartsWith(s, t) {
      assert s[0..] == s;
      i := 0;
    } else {
      var j := ContainsHasPosition(s[1..], t);
      assert s[j+1..] == s[1..][j..];
      i := j + 1;
    }
  }

  /** An occurrence at any position is found by `Contains`. */
  lemma {:induction false} PositionContains(s: string, t: string, i: int)
    requires OccursAt(s, t, i)
    ensures Contains(s, t)
    decreases i
  {
    if i == 0 {
      assert s[0..] == s;
    } else {
      assert s[1..][i-1..] == s[i..];
      PositionContains(s[1..], t, i - 1);
    }
  }

  /** `Contains` agrees with the positional definition of a substring. */
  lemma ContainsAt(s: string, t: string)
    ensures Contains(s, t) <==> exists i :: OccursAt(s, t, i)
  {
    if Contains(s, t) {
      var i := ContainsHasPosition(s, t);
    }
    if exists i :: OccursAt(s, t, i) {
      var i :| OccursAt(s, t, i);
      PositionContains(s, t, i);
    }
  }

  /** Index of the first occurrence of `c`. */
  function IndexOf(s: string, c: char): (r: nat)
    requires c in s
    ensures r < |s| && s[r] == c
    ensures forall j :: 0 <= j < r ==> s[j] != c
  {
    if s[0] == c then 0 else 1 + IndexOf(s[1..], c)
  }

  /** The first occurrence is the one with no earlier one. */
  lemma IndexOfFirst(s: string, c: char, i: nat)
    requires i < |s| && s[i] == c
    requires forall j :: 0 <= j < i ==> s[j] != c
    ensures IndexOf(s, c) == i
  {
  }

  /** `s.replace(a, b)` for one-character strings: only the first occurrence
      of `a` is replaced. */
  function ReplaceFirst(s: string, a: char, b: char): (r: string)
    ensures |r| == |s|
    ensures a !in s ==> r == s
    ensures a in s ==> r[IndexOf(s, a)] == b
    ensures a in s ==> forall j :: 0 <= j < |s| && j != IndexOf(s, a) ==> r[j] == s[j]
  {
    if a in s then s[..IndexOf(s, a)] + [b] + s[IndexOf(s, a) + 1..] else s
  }

  /** Replacing the first `c` of a string that has none before a given
      one replaces that one. */
  lemma ReplaceFirstSplit(a: string, b: string, c: char, d: char)
    requires c !in a
    ensures ReplaceFirst(a + [c] + b, c, d) == a + [d] + b
  {
    var s := a + [c] + b;
    IndexOfFirst(s, c, |a|);
    assert s[..|a|] == a && s[|a| + 1..] == b;
  }

  /** `s.split(sep)` on a one-character separator: always at least one piece. */
  function Split(s: string, sep: char): (r: seq<string>)
    ensures |r| >= 1
    decreases |s|
  {
    if sep !in s then [s]
    else
      var i := IndexOf(s, sep);
      [s[..i]] + Split(s[i + 1..], sep)
  }

  /** `ws.join(sep)`. */
  function Join(ws: seq<string>, sep: char): string
  {
    if |ws| == 0 then ""
    else if |ws| == 1 then ws[0]
    else ws[0] + [sep] + Join(ws[1..], sep)
  }

  /** `w.charAt(0).toUpperCase() + w.slice(1)`. */
  function Capitalize(w: string): (r: string)
    ensures |r| == |w|
  {
    if |w| == 0 then w else [Upper(w[0])] + w[1..]
  }

  /** `ws.map(Capitalize)`. */
  function CapitalizeAll(ws: seq<string>): (r: seq<string>)
    ensures |r| == |ws|
    ensures forall i :: 0 <= i < |ws| ==> r[i] == Capitalize(ws[i])
  {
    if |ws| == 0 then [] else [Capitalize(ws[0])] + CapitalizeAll(ws[1..])
  }

  /** Reference definition of "capitalise every space-separated word": the
      first character and every character after a space are upper-cased. */
  function TitleCase(s: string): (r: string)
    ensures |r| == |s|
  {
    seq(|s|, i requires 0 <= i < |s| => if i == 0 || s[i - 1] == ' ' then Upper(s[i]) else s[i])
  }

  lemma CapitalizeWord(w: string)
    requires ' ' !in w
    ensures Capitalize(w) == TitleCase(w)
  {
  }

  /** `TitleCase` restarts after each space, so it works piece by piece
      around one. */
  lemma TitleCaseAround(s: string, i: nat)
    requires i < |s| && s[i] == ' '
    ensures TitleCase(s) == TitleCase(s[..i]) + [' '] + TitleCase(s[i + 1..])
  {
    var a, b := s[..i], s[i + 1..];
    var lhs := TitleCase(a) + [' '] + TitleCase(b);
    forall k | 0 <= k < |s|
      ensures lhs[k] == TitleCase(s)[k]
    {
      if k < i {
        assert lhs[k] == TitleCase(a)[k];
      } else if k > i {
        assert lhs[k] == TitleCase(b)[k - i - 1];
        assert s[k] == b[k - i - 1];
        if k > i + 1 {
          assert s[k - 1] == b[k - i - 2];
        }
      }
    }
  }

  /** One step of split, capitalise and join: the first piece, a space,
      and the rest done the same way. */
  lemma SplitCapitalizeJoinStep(s: string)
    requires ' ' in s
    ensures var i := IndexOf(s, ' ');
      Join(CapitalizeAll(Split(s, ' ')), ' ')
        == Capitalize(s[..i]) + [' '] + Join(CapitalizeAll(Split(s[i + 1..], ' ')), ' ')
  {
    var i := IndexOf(s, ' ');
    var ws := Split(s[i + 1..], ' ');
    assert Split(s, ' ') == [s[..i]] + ws;
    var cs := CapitalizeAll([s[..i]] + ws);
    assert cs == [Capitalize(s[..i])] + CapitalizeAll(ws);
    assert cs[1..] == CapitalizeAll(ws);
  }

  /** Splitting on spaces, capitalising each piece and joining with spaces is
      the same as `TitleCase`. */
  lemma {:induction false} SplitCapitalizeJoin(s: string)
    ensures Join(CapitalizeAll(Split(s, ' ')), ' ') == TitleCase(s)
    decreases |s|
  {
    if ' ' !in s {
      CapitalizeWord(s);
    } else {
      var i := IndexOf(s, ' ');
      SplitCapitalizeJoinStep(s);
      SplitCapitalizeJoin(s[i + 1..]);
      assert ' ' !in s[..i];
      CapitalizeWord(s[..i]);
      TitleCaseAround(s, i);
    }
  }

  predicate IsSpace(c: char)
  {
    c == ' ' || c == '\t' || c == '\n' || c == '\r'
  }

  function TrimStart(s: string): (r: string)
    ensures |r| <= |s| && r == s[|s| - |r|..]
    ensures |r| > 0 ==> !IsSpace(r[0])
    ensures forall i :: 0 <= i < |s| - |r| ==> IsSpace(s[i])
  {
    if |s| > 0 && IsSpace(s[0]) then TrimStart(s[1..]) else s
  }

  function TrimEnd(s: string): (r: string)
    ensures |r| <= |s| && r == s[..|r|]
    ensures |r| > 0 ==> !IsSpace(r[|r| - 1])
    ensures forall i :: |r| <= i < |s| ==> IsSpace(s[i])
  {
    if |s| > 0 && IsSpace(s[|s| - 1]) then TrimEnd(s[..|s| - 1]) else s
  }

  /** `s.trim()`. */
  function Trim(s: string): string
  {
    TrimEnd(TrimStart(s))
  }

  /** A string trims to nothing exactly when it is all whitespace. */
  lemma TrimEmpty(s: string)
    ensures Trim(s) == "" <==> forall i :: 0 <= i < |s| ==> IsSpace(s[i])
  {
  }

  /** `s.split(c)[0]`: the part of `s` before the first `c`. */
  function BeforeFirst(s: string, c: char): (r: string)
    ensures |r| <= |s| && r == s[..|r|]
    ensures c !in r
    ensures |r| < |s| ==> s[|r|] == c
  {
    if c in s then s[..IndexOf(s, c)] else s
  }

  /** `a <= b` on strings: lexicographic order of the characters. */
  predicate StrLe(a: string, b: string)
  {
    if |a| == 0 then true
    else if |b| == 0 then false
    else if a[0] != b[0] then a[0] < b[0]
    else StrLe(a[1..], b[1..])
  }

  function Digit(d: nat): (c: char)
    requires d < 10
    ensures '0' <= c <= '9' && c as int - '0' as int == d
  {
    ('0' as int + d) as char
  }

  /** `n.toString()` for natural numbers. */
  function NatToString(n: nat): (r: string)
    ensures |r| >= 1
    ensures forall i :: 0 <= i < |r| ==> '0' <= r[i] <= '9'
  {
    if n < 10 then [Digit(n)] else NatToString(n / 10) + [Digit(n % 10)]
  }
}
