/** The JavaScript string operations the core relies on, on `seq<char>`. */
module Strings {

  /** `toLowerCase`, restricted to ASCII: 'A'..'Z' become 'a'..'z'. */
  function LowerChar(c: char): (r: char)
    ensures !('A' <= r <= 'Z')
    ensures r == c || 'a' <= r <= 'z'
  {
    if 'A' <= c <= 'Z' then (c as int - 'A' as int + 'a' as int) as char else c
  }

  function Lower(s: string): (r: string)
    ensures |r| == |s|
    ensures forall i :: 0 <= i < |s| ==> r[i] == LowerChar(s[i])
    ensures IsLower(r)
  {
    seq(|s|, i requires 0 <= i < |s| => LowerChar(s[i]))
  }

  predicate IsLower(s: string) {
    forall i :: 0 <= i < |s| ==> !('A' <= s[i] <= 'Z')
  }

  /** The characters `String.prototype.trim` removes: white space and line terminators. */
  predicate IsWhitespace(c: char) {
    || c == '\t' || c == '\n' || c == '\U{000B}' || c == '\U{000C}' || c == '\r' || c == ' '
    || c == '\U{00A0}' || c == '\U{1680}' || ('\U{2000}' <= c <= '\U{200A}')
    || c == '\U{2028}' || c == '\U{2029}' || c == '\U{202F}' || c == '\U{205F}'
    || c == '\U{3000}' || c == '\U{FEFF}'
  }

  function TrimStart(s: string): (r: string)
    ensures |r| <= |s| && r == s[|s| - |r|..]
    ensures forall i :: 0 <= i < |s| - |r| ==> IsWhitespace(s[i])
    ensures |r| > 0 ==> !IsWhitespace(r[0])
  {
    if |s| > 0 && IsWhitespace(s[0]) then TrimStart(s[1..]) else s
  }

  function TrimEnd(s: string): (r: string)
    ensures |r| <= |s| && r == s[..|r|]
    ensures forall i :: |r| <= i < |s| ==> IsWhitespace(s[i])
    ensures |r| > 0 ==> !IsWhitespace(r[|r| - 1])
  {
    if |s| > 0 && IsWhitespace(s[|s| - 1]) then TrimEnd(s[..|s| - 1]) else s
  }

  predicate IsTrimmed(s: string) {
    |s| == 0 || (!IsWhitespace(s[0]) && !IsWhitespace(s[|s| - 1]))
  }

  /** `s.trim()`: the longest middle part of `s` without white space at either end. */
  function Trim(s: string): (r: string)
    ensures IsTrimmed(r)
    ensures |r| <= |s|
  {
    TrimEnd(TrimStart(s))
  }

  lemma TrimOfTrimmed(s: string)
    requires IsTrimmed(s)
    ensures Trim(s) == s
  {
  }

  /** `xs.join(sep)` */
  function Join(xs: seq<string>, sep: string): string
  {
    if |xs| == 0 then "" else if |xs| == 1 then xs[0] else xs[0] + sep + Join(xs[1..], sep)
  }

  /** Joining with an empty last piece ends the text with the separator. */
  lemma {:induction false} JoinTrailingEmpty(xs: seq<string>, sep: string)
    requires xs != []
    ensures Join(xs + [""], sep) == Join(xs, sep) + sep
  {
    if |xs| > 1 {
      assert (xs + [""])[1..] == xs[1..] + [""];
      JoinTrailingEmpty(xs[1..], sep);
    }
  }

  /** `s.split(c)` for a one-character separator: the pieces between the
      occurrences of `c`, always at least one. */
  function Split(s: string, c: char): (r: seq<string>)
    ensures |r| >= 1
    ensures forall i :: 0 <= i < |r| ==> c !in r[i]
  {
    if |s| == 0 then [""]
    else
      var rest := Split(s[1..], c);
      if s[0] == c then [""] + rest
      else [[s[0]] + rest[0]] + rest[1..]
  }

  lemma {:induction false} SplitWithout(a: string, c: char)
    requires c !in a
    ensures Split(a, c) == [a]
  {
    if |a| > 0 {
      SplitWithout(a[1..], c);
      assert [a[0]] + a[1..] == a;
    }
  }

  lemma {:induction false} SplitAfterPiece(a: string, c: char, b: string)
    requires c !in a
    ensures Split(a + [c] + b, c) == [a] + Split(b, c)
  {
    if |a| == 0 {
      assert a + [c] + b == [c] + b;
      assert ([c] + b)[1..] == b;
    } else {
      assert (a + [c] + b)[1..] == a[1..] + [c] + b;
      SplitAfterPiece(a[1..], c, b);
      assert [a[0]] + a[1..] == a;
    }
  }

  /** Splitting a joined list gives the list back, when no piece holds the separator. */
  lemma {:induction false} SplitJoin(xs: seq<string>, c: char)
    requires |xs| >= 1
    requires forall i :: 0 <= i < |xs| ==> c !in xs[i]
    ensures Split(Join(xs, [c]), c) == xs
  {
    if |xs| == 1 {
      SplitWithout(xs[0], c);
    } else {
      SplitJoin(xs[1..], c);
      SplitAfterPiece(xs[0], c, Join(xs[1..], [c]));
      assert [xs[0]] + xs[1..] == xs;
    }
  }

  lemma {:induction false} JoinConsPiece(x: char, r: seq<string>, c: char)
    requires |r| >= 1
    ensures Join([[x] + r[0]] + r[1..], [c]) == [x] + Join(r, [c])
  {
    var l := [[x] + r[0]] + r[1..];
    assert l[1..] == r[1..];
  }

  /** Joining the pieces of a split with the separator gives the string back. */
  lemma {:induction false} JoinSplit(s: string, c: char)
    ensures Join(Split(s, c), [c]) == s
  {
    if |s| > 0 {
      var rest := Split(s[1..], c);
      JoinSplit(s[1..], c);
      if s[0] == c {
        assert ([""] + rest)[1..] == rest;
      } else {
        JoinConsPiece(s[0], rest, c);
      }
      assert [s[0]] + s[1..] == s;
    }
  }

  predicate StartsWith(s: string, prefix: string) {
    |prefix| <= |s| && s[..|prefix|] == prefix
  }

  predicate OccursAt(s: string, p: string, i: int) {
    0 <= i <= |s| - |p| && s[i..i + |p|] == p
  }

  /** `s.includes(p)` */
  predicate Contains(s: string, p: string) {
    exists i | 0 <= i <= |s| - |p| :: OccursAt(s, p, i)
  }

  /** Removes every trailing occurrence of `c` (the regular expression `c+$`). */
  function DropTrailing(s: string, c: char): (r: string)
    ensures |r| <= |s| && r == s[..|r|]
    ensures forall i :: |r| <= i < |s| ==> s[i] == c
    ensures |r| > 0 ==> r[|r| - 1] != c
  {
    if |s| > 0 && s[|s| - 1] == c then DropTrailing(s[..|s| - 1], c) else s
  }

  /** Removes every leading occurrence of `c` (the regular expression `^c+`). */
  function DropLeading(s: string, c: char): (r: string)
    ensures |r| <= |s| && r == s[|s| - |r|..]
    ensures forall i :: 0 <= i < |s| - |r| ==> s[i] == c
    ensures |r| > 0 ==> r[0] != c
  {
    if |s| > 0 && s[0] == c then DropLeading(s[1..], c) else s
  }

  function DigitChar(d: nat): char
    requires d < 10
  {
    "0123456789"[d]
  }

  /** Decimal rendering of a natural number, as a template literal shows it. */
  function NatToString(n: nat): (r: string)
    ensures |r| >= 1
    ensures forall i :: 0 <= i < |r| ==> '0' <= r[i] <= '9'
  {
    if n < 10 then [DigitChar(n)] else NatToString(n / 10) + [DigitChar(n % 10)]
  }

  /** Where the trimmed text sits inside the original. */
  lemma TrimBounds(s: string) returns (a: nat, b: nat)
    ensures a <= b <= |s| && Trim(s) == s[a..b]
  {
    var t := TrimStart(s);
    var u := TrimEnd(t);
    a := |s| - |t|;
    b := a + |u|;
    PrefixOfSuffix(s, a, |u|);
  }

  lemma PrefixOfSuffix<X>(s: seq<X>, a: nat, n: nat)
    requires a + n <= |s|
    ensures s[a..][..n] == s[a..a + n]
  {
  }

  lemma TrimKeepsAbsent(s: string, c: char)
    requires c !in s
    ensures c !in Trim(s)
  {
    var a, b := TrimBounds(s);
  }

  /** A non-blank trimmed text keeps its shape when one space is put before it. */
  lemma TrimSpaceLed(x: string)
    requires x != "" && IsTrimmed(x)
    ensures Trim(" " + x) == x
  {
    assert (" " + x)[1..] == x;
    assert TrimStart(" " + x) == TrimStart(x);
  }

  /** The pieces of a list joined with `", "`, when cut at each comma: the
      first item, then every later item behind the space of its separator. */
  function SpaceLed(xs: seq<string>): (r: seq<string>)
    ensures |r| == |xs|
  {
    seq(|xs|, i requires 0 <= i < |xs| => " " + xs[i])
  }

  lemma {:induction false} SplitCommaSpace(xs: seq<string>)
    requires |xs| >= 1
    requires forall i :: 0 <= i < |xs| ==> ',' !in xs[i]
    ensures Split(Join(xs, ", "), ',') == [xs[0]] + SpaceLed(xs[1..])
  {
    if |xs| == 1 {
      SplitWithout(xs[0], ',');
    } else {
      var j1 := Join(xs[1..], ", ");
      SplitCommaSpace(xs[1..]);
      assert xs[0] + ", " + j1 == xs[0] + [','] + (" " + j1);
      SplitAfterPiece(xs[0], ',', " " + j1);
      assert (" " + j1)[1..] == j1;
      var r := Split(j1, ',');
      assert Split(" " + j1, ',') == [" " + r[0]] + r[1..];
      assert r[1..] == SpaceLed(xs[2..]);
      assert SpaceLed(xs[1..]) == [" " + xs[1]] + SpaceLed(xs[2..]);
    }
  }

  /** `.map((item) => item.trim()).filter(Boolean)` */
  function TrimAndKeep(ps: seq<string>): (r: seq<string>)
    ensures |r| <= |ps|
    ensures forall i :: 0 <= i < |r| ==> r[i] != "" && IsTrimmed(r[i])
  {
    if ps == [] then []
    else
      var t := Trim(ps[0]);
      var rest := TrimAndKeep(ps[1..]);
      if t == "" then rest
      else
        var r := [t] + rest;
        assert forall i :: 0 <= i < |r| ==> r[i] != "" && IsTrimmed(r[i]) by {
          forall i | 0 <= i < |r| ensures r[i] != "" && IsTrimmed(r[i]) {
            if i > 0 {
              assert r[i] == rest[i - 1];
            }
          }
        }
        r
  }

  /** `s.split(',').map((item) => item.trim()).filter(Boolean)`: the
      non-blank comma-separated items of `s`, trimmed. */
  function ParseCommaList(s: string): (r: seq<string>)
    ensures forall i :: 0 <= i < |r| ==> r[i] != "" && IsTrimmed(r[i])
  {
    TrimAndKeep(Split(s, ','))
  }

  lemma {:induction false} TrimAndKeepClean(ps: seq<string>)
    requires forall i :: 0 <= i < |ps| ==> ',' !in ps[i]
    ensures forall i :: 0 <= i < |TrimAndKeep(ps)| ==> ',' !in TrimAndKeep(ps)[i]
  {
    if ps != [] {
      AbsentFromTail(ps, ',');
      TrimAndKeepClean(ps[1..]);
      TrimKeepsAbsent(ps[0], ',');
      if Trim(ps[0]) != "" {
        AbsentFromCons(Trim(ps[0]), TrimAndKeep(ps[1..]), ',');
      }
    }
  }

  /** A character missing from every piece is missing from every piece of the tail. */
  lemma AbsentFromTail(ps: seq<string>, c: char)
    requires ps != []
    requires forall i :: 0 <= i < |ps| ==> c !in ps[i]
    ensures forall i :: 0 <= i < |ps[1..]| ==> c !in ps[1..][i]
  {
    forall i | 0 <= i < |ps[1..]| ensures c !in ps[1..][i] {
      assert ps[1..][i] == ps[i + 1];
    }
  }

  /** A character missing from a piece and from every later piece is missing from every piece. */
  lemma AbsentFromCons(t: string, rest: seq<string>, c: char)
    requires c !in t
    requires forall i :: 0 <= i < |rest| ==> c !in rest[i]
    ensures forall i :: 0 <= i < |[t] + rest| ==> c !in ([t] + rest)[i]
  {
    forall i | 0 <= i < |[t] + rest| ensures c !in ([t] + rest)[i] {
      if i > 0 {
        assert ([t] + rest)[i] == rest[i - 1];
      }
    }
  }

  /** The items of a parsed list hold no comma. */
  lemma ParseCommaListClean(s: string)
    ensures forall i :: 0 <= i < |ParseCommaList(s)| ==> ',' !in ParseCommaList(s)[i]
  {
    TrimAndKeepClean(Split(s, ','));
  }

  lemma {:induction false} TrimAndKeepSpaceLed(xs: seq<string>)
    requires forall i :: 0 <= i < |xs| ==> xs[i] != "" && IsTrimmed(xs[i])
    ensures TrimAndKeep(SpaceLed(xs)) == xs
  {
    if xs != [] {
      var ps := SpaceLed(xs);
      var tail := xs[1..];
      TailItems(xs);
      SpaceLedCons(xs);
      TrimSpaceLed(xs[0]);
      TrimAndKeepSpaceLed(tail);
      TrimAndKeepHead(ps);
      ConsTail(xs);
    }
  }

  /** The items after the first keep the items' shape. */
  lemma TailItems(xs: seq<string>)
    requires xs != []
    requires forall i :: 0 <= i < |xs| ==> xs[i] != "" && IsTrimmed(xs[i])
    ensures forall i :: 0 <= i < |xs[1..]| ==> xs[1..][i] != "" && IsTrimmed(xs[1..][i])
  {
    forall i | 0 <= i < |xs[1..]| ensures xs[1..][i] != "" && IsTrimmed(xs[1..][i]) {
      assert xs[1..][i] == xs[i + 1];
    }
  }

  lemma SpaceLedCons(xs: seq<string>)
    requires xs != []
    ensures SpaceLed(xs)[0] == " " + xs[0] && SpaceLed(xs)[1..] == SpaceLed(xs[1..])
  {
  }

  /** A first piece that trims to something is kept, trimmed. */
  lemma TrimAndKeepHead(ps: seq<string>)
    requires ps != [] && Trim(ps[0]) != ""
    ensures TrimAndKeep(ps) == [Trim(ps[0])] + TrimAndKeep(ps[1..])
  {
  }

  lemma ParseEmptyText()
    ensures ParseCommaList("") == []
  {
    assert Split("", ',') == [""];
    assert Trim("") == "";
  }

  lemma TrimAndKeepCons(x: string, t: seq<string>)
    requires x != "" && IsTrimmed(x)
    ensures TrimAndKeep([x] + t) == [x] + TrimAndKeep(t)
  {
    TrimOfTrimmed(x);
    assert ([x] + t)[1..] == t;
  }

  lemma ParseJoinNonEmpty(xs: seq<string>)
    requires xs != []
    requires forall i :: 0 <= i < |xs| ==> xs[i] != "" && IsTrimmed(xs[i]) && ',' !in xs[i]
    ensures ParseCommaList(Join(xs, ", ")) == xs
  {
    var tail := xs[1..];
    var rest := SpaceLed(tail);
    assert forall i :: 0 <= i < |tail| ==> tail[i] != "" && IsTrimmed(tail[i]) by {
      forall i | 0 <= i < |tail| ensures tail[i] != "" && IsTrimmed(tail[i]) {
        assert tail[i] == xs[i + 1];
      }
    }
    SplitCommaSpace(xs);
    assert Split(Join(xs, ", "), ',') == [xs[0]] + rest;
    TrimAndKeepSpaceLed(tail);
    assert TrimAndKeep(rest) == tail;
    TrimAndKeepCons(xs[0], rest);
    assert TrimAndKeep([xs[0]] + rest) == [xs[0]] + tail;
    ConsTail(xs);
  }

  lemma ConsTail<X>(xs: seq<X>)
    requires xs != []
    ensures [xs[0]] + xs[1..] == xs
  {
  }

  /** Showing a list with `join(', ')` and parsing it back gives the list,
      when its items are trimmed, non-blank and free of commas. */
  lemma ParseJoinRoundTrip(xs: seq<string>)
    requires forall i :: 0 <= i < |xs| ==> xs[i] != "" && IsTrimmed(xs[i]) && ',' !in xs[i]
    ensures ParseCommaList(Join(xs, ", ")) == xs
  {
    if xs == [] {
      ParseEmptyText();
    } else {
      ParseJoinNonEmpty(xs);
    }
  }

  /** Parsing is stable: a parsed list, joined and parsed again, is unchanged. */
  lemma ParseJoinParse(s: string)
    ensures ParseCommaList(Join(ParseCommaList(s), ", ")) == ParseCommaList(s)
  {
    ParseCommaListClean(s);
    ParseJoinRoundTrip(ParseCommaList(s));
  }
}
