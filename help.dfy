/**
 * Help text layout of command/base.go: printFlagTitle, printFlagDetail, wrapAtLength
 * and the layout FlagSets.Help produces from its groups and hidden names.
 */
module HelpText {
  import Text
  import Flags

  /** maxLineLength: the widest line the help text aims for. */
  const MaxLineLength: int := 78

  /** Left padding of every usage line. */
  const UsagePad: nat := 6

  /**
   * kr/text.Wrap(s, lim), which this model does not look inside: it returns `s`
   * with line breaks placed for the limit `lim`.
   */
  type Wrapper = (string, int) -> string

  /** printFlagTitle: the title followed by a blank line. */
  function PrintFlagTitle(s: string): (r: string)
    ensures |r| == |s| + 2 && r[..|s|] == s && r[|s|..] == "\n\n"
  {
    s + "\n\n"
  }

  lemma TitleLines(s: string)
    requires '\n' !in s
    ensures Text.Split(PrintFlagTitle(s), '\n') == [s, "", ""]
  {
    assert PrintFlagTitle(s) == s + ['\n'] + ("" + ['\n'] + "");
    Text.SplitAround(s, "" + ['\n'] + "", '\n');
    Text.SplitAround("", "", '\n');
    Text.SplitWithoutSep(s, '\n');
  }

  /** Every line prefixed by `pad` spaces. */
  function PadLines(lines: seq<string>, pad: nat): (r: seq<string>)
    ensures |r| == |lines|
    ensures forall i :: 0 <= i < |lines| ==> r[i] == Text.Spaces(pad) + lines[i]
  {
    seq(|lines|, i requires 0 <= i < |lines| => Text.Spaces(pad) + lines[i])
  }

  /** What wrapAtLength(s, pad) returns. */
  function Indented(s: string, pad: nat, wrap: Wrapper): string {
    Text.Join(PadLines(Text.Split(wrap(s, MaxLineLength - pad), '\n'), pad), '\n')
  }

  /**
   * The lines of wrapAtLength(s, pad) are the lines of the wrap of `s` at width
   * 78 - pad, one for one, each behind `pad` spaces (the first line too).
   */
  lemma IndentedLines(s: string, pad: nat, wrap: Wrapper)
    ensures Text.Split(Indented(s, pad, wrap), '\n') == PadLines(Text.Split(wrap(s, MaxLineLength - pad), '\n'), pad)
  {
    var lines := Text.Split(wrap(s, MaxLineLength - pad), '\n');
    var padded := PadLines(lines, pad);
    forall i | 0 <= i < |padded| ensures '\n' !in padded[i] {
      assert padded[i] == Text.Spaces(pad) + lines[i];
    }
    Text.SplitJoin(padded, '\n');
  }

  /** wrapAtLength: wraps `s` at 78 - pad columns and pads every resulting line in place. */
  method WrapAtLength(s: string, pad: nat, wrap: Wrapper) returns (r: string)
    ensures r == Indented(s, pad, wrap)
  {
    var wrapped := wrap(s, MaxLineLength - pad);
    var parts := Text.Split(wrapped, '\n');
    var lines := new string[|parts|](i => if 0 <= i < |parts| then parts[i] else "");
    for i := 0 to lines.Length
      invariant forall k :: 0 <= k < i ==> lines[k] == Text.Spaces(pad) + parts[k]
      invariant forall k :: i <= k < lines.Length ==> lines[k] == parts[k]
    {
      lines[i] := Text.Spaces(pad) + lines[i];
    }
    assert lines[..] == PadLines(parts, pad);
    r := Text.Join(lines[..], '\n');
  }

  /** The first line printFlagDetail writes: `  -name`, or `  -name=<example>` when there is an example. */
  function FlagHeader(f: Flags.Flag): string {
    if f.example != "" then "  -" + f.name + "=<" + f.example + ">" else "  -" + f.name
  }

  /** printFlagDetail: the header, the whitespace-collapsed usage wrapped and padded, then a blank line. */
  function PrintFlagDetail(f: Flags.Flag, wrap: Wrapper): (r: string)
    ensures FlagHeader(f) + "\n" <= r
    ensures |r| >= |FlagHeader(f)| + 3 && r[|r| - 2..] == "\n\n"
  {
    FlagHeader(f) + "\n" + Indented(Text.CollapseWhitespace(f.usage), UsagePad, wrap) + "\n\n"
  }

  /**
   * The lines of one flag's entry: its header, then each line of the width-72 wrap of
   * its collapsed usage behind six spaces, then an empty line and the empty rest.
   */
  lemma FlagDetailLines(f: Flags.Flag, wrap: Wrapper)
    requires '\n' !in f.name && '\n' !in f.example
    ensures Text.Split(PrintFlagDetail(f, wrap), '\n')
         == [FlagHeader(f)] + PadLines(Text.Split(wrap(Text.CollapseWhitespace(f.usage), 72), '\n'), 6) + ["", ""]
  {
    var head := FlagHeader(f);
    var body := Indented(Text.CollapseWhitespace(f.usage), UsagePad, wrap);
    assert PrintFlagDetail(f, wrap) == head + ['\n'] + (body + ['\n'] + ("" + ['\n'] + ""));
    Text.SplitAround(head, body + ['\n'] + ("" + ['\n'] + ""), '\n');
    Text.SplitAround(body, "" + ['\n'] + "", '\n');
    Text.SplitAround("", "", '\n');
    assert '\n' !in head;
    Text.SplitWithoutSep(head, '\n');
    IndentedLines(Text.CollapseWhitespace(f.usage), UsagePad, wrap);
  }

  /** The strings `f` gives for the elements of `xs`, written one after the other. */
  function ConcatMap<T>(xs: seq<T>, f: T -> string): string {
    if xs == [] then "" else ConcatMap(xs[..|xs| - 1], f) + f(xs[|xs| - 1])
  }

  lemma {:induction false} ConcatMapAppend<T>(a: seq<T>, b: seq<T>, f: T -> string)
    ensures ConcatMap(a + b, f) == ConcatMap(a, f) + ConcatMap(b, f)
  {
    if b == [] {
      assert a + b == a;
    } else {
      var ab := a + b;
      assert ab[..|ab| - 1] == a + b[..|b| - 1];
      assert ab[|ab| - 1] == b[|b| - 1];
      ConcatMapAppend(a, b[..|b| - 1], f);
    }
  }

  /** What one flag adds to the help: nothing when its name is hidden, its detail otherwise. */
  function FlagEntry(f: Flags.Flag, hidden: set<string>, wrap: Wrapper): string {
    if f.name in hidden then "" else PrintFlagDetail(f, wrap)
  }

  /** The entries of the flags of `fs`, in the order of `fs`. */
  function RenderFlags(fs: seq<Flags.Flag>, hidden: set<string>, wrap: Wrapper): string {
    ConcatMap(fs, f => FlagEntry(f, hidden, wrap))
  }

  /** One group: its title `<name>:` and the entries of its flags in VisitAll order. */
  function RenderGroup(g: Flags.Group, hidden: set<string>, wrap: Wrapper): string {
    PrintFlagTitle(g.name + ":") + RenderFlags(Flags.SortByName(g.flags), hidden, wrap)
  }

  /** The groups one after the other, before trimming. */
  function RenderGroups(gs: seq<Flags.Group>, hidden: set<string>, wrap: Wrapper): string {
    ConcatMap(gs, g => RenderGroup(g, hidden, wrap))
  }

  /** The text FlagSets.Help returns: the rendered groups without their trailing newlines. */
  function RenderHelp(gs: seq<Flags.Group>, hidden: set<string>, wrap: Wrapper): (r: string)
    ensures r <= RenderGroups(gs, hidden, wrap)
    ensures r == [] || r[|r| - 1] != '\n'
    ensures forall i :: |r| <= i < |RenderGroups(gs, hidden, wrap)| ==> RenderGroups(gs, hidden, wrap)[i] == '\n'
  {
    Text.TrimRightNewlines(RenderGroups(gs, hidden, wrap))
  }

  lemma RenderFlagsStep(fs: seq<Flags.Flag>, j: nat, hidden: set<string>, wrap: Wrapper)
    requires j < |fs|
    ensures RenderFlags(fs[..j + 1], hidden, wrap) == RenderFlags(fs[..j], hidden, wrap) + FlagEntry(fs[j], hidden, wrap)
  {
    assert fs[..j + 1][..j] == fs[..j];
  }

  lemma RenderGroupsStep(gs: seq<Flags.Group>, i: nat, hidden: set<string>, wrap: Wrapper)
    requires i < |gs|
    ensures RenderGroups(gs[..i + 1], hidden, wrap) == RenderGroups(gs[..i], hidden, wrap) + RenderGroup(gs[i], hidden, wrap)
  {
    assert gs[..i + 1][..i] == gs[..i];
  }

  /** Appending groups appends their sections. */
  lemma RenderGroupsAppend(a: seq<Flags.Group>, b: seq<Flags.Group>, hidden: set<string>, wrap: Wrapper)
    ensures RenderGroups(a + b, hidden, wrap) == RenderGroups(a, hidden, wrap) + RenderGroups(b, hidden, wrap)
  {
    ConcatMapAppend(a, b, g => RenderGroup(g, hidden, wrap));
  }

  /**
   * The title of group i starts exactly where the sections of the groups before it
   * end, so titles appear in the order the groups were added.
   */
  lemma TitlesInOrder(gs: seq<Flags.Group>, hidden: set<string>, wrap: Wrapper, i: nat)
    requires i < |gs|
    ensures RenderGroups(gs[..i], hidden, wrap) + PrintFlagTitle(gs[i].name + ":") <= RenderGroups(gs, hidden, wrap)
    ensures |RenderGroups(gs[..i], hidden, wrap)| < |RenderGroups(gs[..i + 1], hidden, wrap)|
  {
    assert gs == gs[..i + 1] + gs[i + 1..];
    RenderGroupsAppend(gs[..i + 1], gs[i + 1..], hidden, wrap);
    assert gs[..i + 1][..i] == gs[..i];
  }

  /** The flags of `fs` whose names are not hidden. */
  function Visible(fs: seq<Flags.Flag>, hidden: set<string>): (r: seq<Flags.Flag>)
    ensures forall i :: 0 <= i < |r| ==> r[i].name !in hidden && r[i] in fs
    ensures forall f :: f in r <==> f in fs && f.name !in hidden
  {
    if fs == [] then []
    else
      var last := fs[|fs| - 1];
      Visible(fs[..|fs| - 1], hidden) + (if last.name in hidden then [] else [last])
  }

  /** One flag is kept exactly when its name is not hidden. */
  lemma VisibleOne(f: Flags.Flag, hidden: set<string>)
    ensures Visible([f], hidden) == if f.name in hidden then [] else [f]
  {
    assert [f][..0] == [];
  }

  lemma VisibleSnoc(fs: seq<Flags.Flag>, hidden: set<string>)
    requires fs != []
    ensures Visible(fs, hidden) == Visible(fs[..|fs| - 1], hidden) +
      (if fs[|fs| - 1].name in hidden then [] else [fs[|fs| - 1]])
  {
  }

  lemma SnocAppend<T>(a: seq<T>, b: seq<T>)
    requires b != []
    ensures (a + b)[..|a + b| - 1] == a + b[..|b| - 1] && (a + b)[|a + b| - 1] == b[|b| - 1]
  {
  }

  /** Filtering keeps the order: the visible flags of a + b are those of a, then those of b. */
  lemma {:induction false} VisibleAppend(a: seq<Flags.Flag>, b: seq<Flags.Flag>, hidden: set<string>)
    ensures Visible(a + b, hidden) == Visible(a, hidden) + Visible(b, hidden)
  {
    if b == [] {
      assert a + b == a;
    } else {
      var init, last := b[..|b| - 1], b[|b| - 1];
      SnocAppend(a, b);
      VisibleSnoc(a + b, hidden);
      VisibleSnoc(b, hidden);
      VisibleAppend(a, init, hidden);
      Text.SeqAssoc(Visible(a, hidden), Visible(init, hidden), if last.name in hidden then [] else [last]);
    }
  }

  /** A hidden flag contributes nothing: the entries are those of the visible flags alone. */
  lemma {:induction false} HiddenOmitted(fs: seq<Flags.Flag>, hidden: set<string>, wrap: Wrapper)
    ensures RenderFlags(fs, hidden, wrap) == RenderFlags(Visible(fs, hidden), {}, wrap)
  {
    if fs != [] {
      var init := fs[..|fs| - 1];
      var last := fs[|fs| - 1];
      HiddenOmitted(init, hidden, wrap);
      var v := Visible(init, hidden);
      assert RenderFlags(fs, hidden, wrap) == RenderFlags(init, hidden, wrap) + FlagEntry(last, hidden, wrap);
      if last.name !in hidden {
        var vl := v + [last];
        assert vl[..|vl| - 1] == v;
        assert RenderFlags(vl, {}, wrap) == RenderFlags(v, {}, wrap) + FlagEntry(last, {}, wrap);
      } else {
        assert Visible(fs, hidden) == v;
      }
    }
  }
}
