/**
 * The string operations of Go's standard library that command/base.go relies on:
 * the `[\s]+` whitespace collapse, strings.Split / strings.Join on "\n",
 * strings.Repeat of a space, strings.TrimRight(s, "\n") and the `<` order on strings.
 */
module Text {

  /** A member of RE2's `\s` class: tab, newline, form feed, carriage return or space. */
  predicate IsSpace(c: char) {
    c == ' ' || c == '\t' || c == '\n' || c == '\U{000C}' || c == '\r'
  }

  /** Everything of `s` after its leading run of whitespace. */
  function DropSpaces(s: string): (r: string)
    ensures |r| <= |s| && r == s[|s| - |r|..]
    ensures r == [] || !IsSpace(r[0])
    ensures forall i :: 0 <= i < |s| - |r| ==> IsSpace(s[i])
  {
    if s != [] && IsSpace(s[0]) then DropSpaces(s[1..]) else s
  }

  /** No whitespace but plain spaces, and never two of them side by side. */
  predicate Collapsed(s: string) {
    && (forall i :: 0 <= i < |s| && IsSpace(s[i]) ==> s[i] == ' ')
    && (forall i :: 0 <= i < |s| - 1 ==> !(IsSpace(s[i]) && IsSpace(s[i + 1])))
  }

  /** The effect of `reRemoveWhitespace.ReplaceAllString(s, " ")`: every maximal run of whitespace becomes one space. */
  function CollapseWhitespace(s: string): (r: string)
    ensures Collapsed(r)
    ensures |r| <= |s|
    ensures r == [] <==> s == []
    ensures r != [] ==> (IsSpace(r[0]) <==> IsSpace(s[0]))
    decreases |s|
  {
    if s == [] then []
    else if IsSpace(s[0]) then " " + CollapseWhitespace(DropSpaces(s[1..]))
    else [s[0]] + CollapseWhitespace(s[1..])
  }

  /** The non-whitespace characters of `s`, in order. */
  function Ink(s: string): string {
    if s == [] then [] else (if IsSpace(s[0]) then [] else [s[0]]) + Ink(s[1..])
  }

  lemma {:induction false} InkDropSpaces(s: string)
    ensures Ink(DropSpaces(s)) == Ink(s)
  {
    if s != [] && IsSpace(s[0]) {
      InkDropSpaces(s[1..]);
    }
  }

  /** Collapsing whitespace keeps every other character, in order. */
  lemma {:induction false} CollapseKeepsInk(s: string)
    ensures Ink(CollapseWhitespace(s)) == Ink(s)
  {
    if s != [] {
      var r := CollapseWhitespace(s);
      if IsSpace(s[0]) {
        var t := DropSpaces(s[1..]);
        CollapseKeepsInk(t);
        InkDropSpaces(s[1..]);
        assert r == " " + CollapseWhitespace(t);
        assert r[1..] == CollapseWhitespace(t);
      } else {
        CollapseKeepsInk(s[1..]);
        assert r[1..] == CollapseWhitespace(s[1..]);
      }
    }
  }

  /** A collapsed string is left as it is. */
  lemma {:induction false} CollapseFixesCollapsed(s: string)
    requires Collapsed(s)
    ensures CollapseWhitespace(s) == s
  {
    if s != [] {
      assert Collapsed(s[1..]) by {
        forall i | 0 <= i < |s[1..]| - 1
          ensures !(IsSpace(s[1..][i]) && IsSpace(s[1..][i + 1]))
        {
          assert s[1..][i] == s[i + 1] && s[1..][i + 1] == s[i + 2];
        }
      }
      CollapseFixesCollapsed(s[1..]);
      if IsSpace(s[0]) {
        assert s[1..] == [] || !IsSpace(s[1..][0]);
        assert DropSpaces(s[1..]) == s[1..];
        assert s == " " + s[1..];
      } else {
        assert s == [s[0]] + s[1..];
      }
    }
  }

  /** Collapsing twice is collapsing once. */
  lemma CollapseIdempotent(s: string)
    ensures CollapseWhitespace(CollapseWhitespace(s)) == CollapseWhitespace(s)
  {
    CollapseFixesCollapsed(CollapseWhitespace(s));
  }

  /** A trailing non-space keeps DropSpaces from reaching into what follows. */
  lemma {:induction false} DropSpacesAppend(a: string, b: string)
    requires a != [] && !IsSpace(a[|a| - 1])
    ensures DropSpaces(a + b) == DropSpaces(a) + b
  {
    if IsSpace(a[0]) {
      assert (a + b)[1..] == a[1..] + b;
      DropSpacesAppend(a[1..], b);
    }
  }

  /** DropSpaces removes a whole leading run of whitespace and stops at the next character. */
  lemma {:induction false} DropSpacesRun(ws: string, y: string)
    requires forall i :: 0 <= i < |ws| ==> IsSpace(ws[i])
    requires y == [] || !IsSpace(y[0])
    ensures DropSpaces(ws + y) == y
  {
    if ws == [] {
      assert ws + y == y;
    } else {
      assert (ws + y)[1..] == ws[1..] + y;
      DropSpacesRun(ws[1..], y);
    }
  }

  lemma ConsAppend(a: string, b: string)
    requires a != []
    ensures (a + b)[0] == a[0] && (a + b)[1..] == a[1..] + b
  {
  }

  lemma CollapseSpaceHead(s: string)
    requires s != [] && IsSpace(s[0])
    ensures CollapseWhitespace(s) == " " + CollapseWhitespace(DropSpaces(s[1..]))
  {
  }

  lemma CollapseCharHead(s: string)
    requires s != [] && !IsSpace(s[0])
    ensures CollapseWhitespace(s) == [s[0]] + CollapseWhitespace(s[1..])
  {
  }

  /** Text that is empty or ends in a non-space collapses independently of what follows it. */
  lemma {:induction false} CollapseAppend(x: string, y: string)
    requires x == [] || !IsSpace(x[|x| - 1])
    ensures CollapseWhitespace(x + y) == CollapseWhitespace(x) + CollapseWhitespace(y)
    decreases |x|
  {
    if x == [] {
      assert x + y == y;
    } else if IsSpace(x[0]) {
      var t := DropSpaces(x[1..]);
      assert CollapseWhitespace(x + y) == " " + CollapseWhitespace(t + y) by {
        ConsAppend(x, y);
        DropSpacesAppend(x[1..], y);
        CollapseSpaceHead(x + y);
      }
      assert CollapseWhitespace(t + y) == CollapseWhitespace(t) + CollapseWhitespace(y) by {
        assert t != [] && t[|t| - 1] == x[|x| - 1];
        CollapseAppend(t, y);
      }
      CollapseSpaceHead(x);
      SeqAssoc(" ", CollapseWhitespace(t), CollapseWhitespace(y));
    } else {
      assert CollapseWhitespace(x + y) == [x[0]] + CollapseWhitespace(x[1..] + y) by {
        ConsAppend(x, y);
        CollapseCharHead(x + y);
      }
      assert CollapseWhitespace(x[1..] + y) == CollapseWhitespace(x[1..]) + CollapseWhitespace(y) by {
        CollapseAppend(x[1..], y);
      }
      CollapseCharHead(x);
      SeqAssoc([x[0]], CollapseWhitespace(x[1..]), CollapseWhitespace(y));
    }
  }

  /** A non-empty run of whitespace collapses to exactly one space. */
  lemma CollapseAllSpace(ws: string)
    requires ws != [] && forall i :: 0 <= i < |ws| ==> IsSpace(ws[i])
    ensures CollapseWhitespace(ws) == " "
  {
    DropSpacesRun(ws[1..], []);
    assert ws[1..] + [] == ws[1..];
  }

  /** A single non-space character is kept. */
  lemma CollapseKeepsChar(c: char)
    requires !IsSpace(c)
    ensures CollapseWhitespace([c]) == [c]
  {
  }

  /**
   * A run of whitespace between two pieces of text becomes exactly one space at that
   * place: x + ws + y collapses to the collapse of x, one space, the collapse of y.
   */
  lemma CollapseRun(x: string, ws: string, y: string)
    requires x == [] || !IsSpace(x[|x| - 1])
    requires ws != [] && forall i :: 0 <= i < |ws| ==> IsSpace(ws[i])
    requires y == [] || !IsSpace(y[0])
    ensures CollapseWhitespace(x + ws + y) == CollapseWhitespace(x) + " " + CollapseWhitespace(y)
  {
    var w := ws + y;
    ConsAppend(ws, y);
    DropSpacesRun(ws[1..], y);
    CollapseSpaceHead(w);
    assert CollapseWhitespace(w) == " " + CollapseWhitespace(y);
    CollapseAppend(x, w);
    SeqAssoc(x, ws, y);
  }

  /** strings.Split(s, string(sep)): the pieces between the separators; "" splits into [""]. */
  function Split(s: string, sep: char): (r: seq<string>)
    ensures |r| >= 1
    ensures forall i :: 0 <= i < |r| ==> sep !in r[i]
  {
    if s == [] then [""]
    else
      var rest := Split(s[1..], sep);
      if s[0] == sep then [""] + rest else [[s[0]] + rest[0]] + rest[1..]
  }

  /** strings.Join(lines, string(sep)). */
  function Join(lines: seq<string>, sep: char): string {
    if |lines| == 0 then ""
    else if |lines| == 1 then lines[0]
    else lines[0] + [sep] + Join(lines[1..], sep)
  }

  lemma {:induction false} SplitWithoutSep(s: string, sep: char)
    requires sep !in s
    ensures Split(s, sep) == [s]
  {
    if s != [] {
      SplitWithoutSep(s[1..], sep);
      assert s == [s[0]] + s[1..];
    }
  }

  /** A separator splits a string into the lines before it followed by the lines after it. */
  lemma {:induction false} SplitAround(a: string, b: string, sep: char)
    ensures Split(a + [sep] + b, sep) == Split(a, sep) + Split(b, sep)
  {
    if a == [] {
      assert a + [sep] + b == [sep] + b;
      assert ([sep] + b)[1..] == b;
    } else {
      var s := a + [sep] + b;
      assert s[0] == a[0] && s[1..] == a[1..] + [sep] + b;
      SplitAround(a[1..], b, sep);
    }
  }

  /** Splitting undoes joining whenever no line holds the separator. */
  lemma {:induction false} SplitJoin(lines: seq<string>, sep: char)
    requires |lines| >= 1
    requires forall i :: 0 <= i < |lines| ==> sep !in lines[i]
    ensures Split(Join(lines, sep), sep) == lines
  {
    SplitWithoutSep(lines[0], sep);
    if |lines| > 1 {
      SplitJoin(lines[1..], sep);
      SplitAround(lines[0], Join(lines[1..], sep), sep);
      assert lines == [lines[0]] + lines[1..];
    }
  }

  /** Joining undoes splitting. */
  lemma {:induction false} JoinSplit(s: string, sep: char)
    ensures Join(Split(s, sep), sep) == s
  {
    if s != [] {
      JoinSplit(s[1..], sep);
      var rest := Split(s[1..], sep);
      if s[0] == sep {
        assert Split(s, sep)[1..] == rest;
        assert s == [sep] + s[1..];
      } else {
        var r := Split(s, sep);
        if |rest| == 1 {
          assert s == [s[0]] + s[1..];
        } else {
          assert r[1..] == rest[1..];
          assert s == [s[0]] + s[1..];
        }
      }
    }
  }

  /** Concatenation of sequences is associative. */
  lemma SeqAssoc<T>(a: seq<T>, b: seq<T>, c: seq<T>)
    ensures (a + b) + c == a + (b + c)
  {
  }

  /** strings.Repeat(" ", n). */
  function Spaces(n: nat): (r: string)
    ensures |r| == n
    ensures forall i :: 0 <= i < n ==> r[i] == ' '
  {
    seq(n, _ => ' ')
  }

  /** strings.TrimRight(s, "\n"): `s` without its trailing newlines. */
  function TrimRightNewlines(s: string): (r: string)
    ensures r <= s
    ensures r == [] || r[|r| - 1] != '\n'
    ensures forall i :: |r| <= i < |s| ==> s[i] == '\n'
  {
    if s != [] && s[|s| - 1] == '\n' then TrimRightNewlines(s[..|s| - 1]) else s
  }

  /** Go's `<` on strings. Go compares the UTF-8 bytes, and byte order on UTF-8 is code-point order. */
  predicate Less(a: string, b: string) {
    if a == [] then b != []
    else if b == [] then false
    else if a[0] != b[0] then a[0] < b[0]
    else Less(a[1..], b[1..])
  }

  lemma {:induction false} LessTransitive(a: string, b: string, c: string)
    requires Less(a, b) && Less(b, c)
    ensures Less(a, c)
  {
    if a != [] && b != [] && c != [] && a[0] == b[0] == c[0] {
      LessTransitive(a[1..], b[1..], c[1..]);
    }
  }

  /** Any two different strings are ordered one way or the other, and never both. */
  lemma {:induction false} LessTotal(a: string, b: string)
    ensures a == b || Less(a, b) || Less(b, a)
    ensures !(Less(a, b) && Less(b, a))
  {
    if a != [] && b != [] && a[0] == b[0] {
      LessTotal(a[1..], b[1..]);
      assert a == [a[0]] + a[1..] && b == [b[0]] + b[1..];
    }
  }

  /** Strings that agree before index k are ordered by their characters at k. */
  lemma {:induction false} LessAt(a: string, b: string, k: nat)
    requires k < |a| && k < |b| && a[k] < b[k]
    requires forall i :: 0 <= i < k ==> a[i] == b[i]
    ensures Less(a, b)
  {
    if k > 0 {
      assert a[0] == b[0];
      LessAt(a[1..], b[1..], k - 1);
    }
  }
}
