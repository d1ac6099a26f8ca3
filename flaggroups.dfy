/**
 * FlagSet and FlagSets of command/base.go: named groups of flags, the ordered list of
 * groups a command registers, the names hidden from help, and the help text.
 */
module FlagGroups {
  import Text
  import Flags
  import HelpText

  /** A named group of flags, filled in registration order. */
  class FlagSet {
    const name: string
    var flags: seq<Flags.Flag>

    /** NewFlagSet(name): an empty group with that name. */
    constructor (name: string)
      ensures this.name == name && flags == []
    {
      this.name := name;
      flags := [];
    }

    /** The name the group was created with. */
    function Name(): (r: string)
      ensures r == name
    {
      name
    }

    /**
     * What registering one binding (StringVar, BoolVar, DurationVar) does to the group:
     * the flag joins it. The flag package refuses a name it already holds.
     */
    method Define(f: Flags.Flag)
      requires Flags.NameFree(flags, f.name)
      modifies this
      ensures flags == old(flags) + [f]
      ensures Flags.DistinctNames(old(flags)) ==> Flags.DistinctNames(flags)
    {
      flags := flags + [f];
    }

    /** The flags in the order VisitAll visits them: every flag once, sorted by name. */
    function VisitAll(): (r: seq<Flags.Flag>)
      reads this
      ensures multiset(r) == multiset(flags)
      ensures Flags.SortedByName(r)
    {
      Flags.SortByNameSorted(flags);
      Flags.SortByName(flags)
    }
  }

  /** The name and registered flags of each group, in order. */
  function GroupsOf(gs: seq<FlagSet>): (r: seq<Flags.Group>)
    reads gs
    ensures |r| == |gs|
    ensures forall i :: 0 <= i < |gs| ==> r[i] == Flags.Group(gs[i].name, gs[i].flags)
  {
    if gs == [] then [] else GroupsOf(gs[..|gs| - 1]) + [Flags.Group(gs[|gs| - 1].name, gs[|gs| - 1].flags)]
  }

  /** The groups of one command, sharing one set of hidden names. */
  class FlagSets {
    var flagSets: seq<FlagSet>
    var hiddens: set<string>

    /** NewFlagSets: no groups and nothing hidden. */
    constructor ()
      ensures flagSets == [] && hiddens == {}
    {
      flagSets := [];
      hiddens := {};
    }

    /** The groups as they stand, in the order they were added. */
    function Groups(): seq<Flags.Group>
      reads this, flagSets
    {
      GroupsOf(flagSets)
    }

    /** NewFlagSet: a fresh empty group with the given name, added after the others. */
    method NewFlagSet(name: string) returns (group: FlagSet)
      modifies this
      ensures fresh(group) && group.name == name && group.flags == []
      ensures flagSets == old(flagSets) + [group] && hiddens == old(hiddens)
    {
      group := new FlagSet(name);
      AddFlagSet(group);
    }

    /** AddFlagSet: the group goes after the ones already added. */
    method AddFlagSet(group: FlagSet)
      modifies this
      ensures flagSets == old(flagSets) + [group] && hiddens == old(hiddens)
    {
      flagSets := flagSets + [group];
    }

    /** HiddenFlag: whether the name is hidden from help. */
    predicate HiddenFlag(n: string)
      reads this
      ensures HiddenFlag(n) <==> n in hiddens
    {
      n in hiddens
    }

    /**
     * HideFlag: afterwards `n` is hidden and no other name changed; hiding a name that
     * is already hidden changes nothing.
     */
    method HideFlag(n: string)
      modifies this
      ensures HiddenFlag(n)
      ensures forall m :: m != n ==> (HiddenFlag(m) <==> old(HiddenFlag(m)))
      ensures old(HiddenFlag(n)) ==> hiddens == old(hiddens)
      ensures hiddens == old(hiddens) + {n} && flagSets == old(flagSets)
    {
      if n !in hiddens {
        hiddens := hiddens + {n};
      }
    }

    /**
     * Help: for each group in order its title and the details of its visible flags in
     * VisitAll order, with the trailing newlines cut off.
     */
    method Help(wrap: HelpText.Wrapper) returns (s: string)
      ensures s == HelpText.RenderHelp(Groups(), hiddens, wrap)
    {
      var out := "";
      var i := 0;
      while i < |flagSets|
        invariant 0 <= i <= |flagSets|
        invariant out == HelpText.RenderGroups(Groups()[..i], hiddens, wrap)
      {
        var section := GroupHelp(flagSets[i], wrap);
        assert Groups()[i] == Flags.Group(flagSets[i].name, flagSets[i].flags);
        HelpText.RenderGroupsStep(Groups(), i, hiddens, wrap);
        out := out + section;
        i := i + 1;
      }
      assert Groups()[..i] == Groups();
      s := Text.TrimRightNewlines(out);
    }

    /** One pass of Help's loop: the group's title, then each visible flag VisitAll yields. */
    method GroupHelp(group: FlagSet, wrap: HelpText.Wrapper) returns (out: string)
      ensures out == HelpText.RenderGroup(Flags.Group(group.name, group.flags), hiddens, wrap)
    {
      var title := HelpText.PrintFlagTitle(group.name + ":");
      out := title;
      var visit := group.VisitAll();
      var j := 0;
      while j < |visit|
        invariant 0 <= j <= |visit|
        invariant out == title + HelpText.RenderFlags(visit[..j], hiddens, wrap)
      {
        var f := visit[j];
        ghost var entry := HelpText.FlagEntry(f, hiddens, wrap);
        HelpText.RenderFlagsStep(visit, j, hiddens, wrap);
        Text.SeqAssoc(title, HelpText.RenderFlags(visit[..j], hiddens, wrap), entry);
        if !HiddenFlag(f.name) {
          out := out + HelpText.PrintFlagDetail(f, wrap);
        } else {
          assert entry == "";
          assert out + entry == out;
        }
        j := j + 1;
      }
      assert visit[..j] == visit;
    }
  }
}
