/**
 * One command-line option as the flag groups of command/base.go hold it, and the
 * order in which Go's flag.FlagSet.VisitAll hands a group's flags out: sorted by name.
 */
module Flags {
  import Text

  /** The typed default a binding registers: StringVar, BoolVar or DurationVar (a duration in nanoseconds). */
  datatype FlagValue = StringValue(s: string) | BoolValue(b: bool) | DurationValue(d: int)

  /**
   * A registered option. `example` is the text its value type offers through the
   * FlagExample capability, "" when it offers none.
   */
  datatype Flag = Flag(name: string, default: FlagValue, envVar: string, usage: string, example: string)

  /** A named group of flags. */
  datatype Group = Group(name: string, flags: seq<Flag>)

  /** No name is registered twice (Go's flag package refuses a redefinition). */
  predicate DistinctNames(fs: seq<Flag>) {
    forall i, j :: 0 <= i < j < |fs| ==> fs[i].name != fs[j].name
  }

  /** No flag of `fs` is called `name`. */
  predicate NameFree(fs: seq<Flag>, name: string) {
    forall i :: 0 <= i < |fs| ==> fs[i].name != name
  }

  /** Names never decrease. */
  predicate SortedByName(fs: seq<Flag>) {
    forall i, j :: 0 <= i < j < |fs| ==> !Text.Less(fs[j].name, fs[i].name)
  }

  /** Puts `f` into the sorted `fs` after every flag whose name is smaller. */
  function Insert(f: Flag, fs: seq<Flag>): (r: seq<Flag>)
    ensures multiset(r) == multiset(fs) + multiset{f}
    ensures |r| == |fs| + 1
  {
    if fs == [] then [f]
    else if Text.Less(fs[0].name, f.name) then
      assert fs == [fs[0]] + fs[1..];
      [fs[0]] + Insert(f, fs[1..])
    else [f] + fs
  }

  /** No flag of `fs` has a name below `lo`. */
  predicate NoneBelow(fs: seq<Flag>, lo: string) {
    forall k :: 0 <= k < |fs| ==> !Text.Less(fs[k].name, lo)
  }

  lemma NotLessTransitive(a: string, b: string, c: string)
    requires !Text.Less(b, a) && !Text.Less(c, b)
    ensures !Text.Less(c, a)
  {
    Text.LessTotal(a, b);
    Text.LessTotal(b, c);
    if Text.Less(a, b) && Text.Less(b, c) {
      Text.LessTransitive(a, b, c);
      Text.LessTotal(a, c);
    }
  }

  lemma SortedCons(x: Flag, fs: seq<Flag>)
    requires SortedByName(fs) && NoneBelow(fs, x.name)
    ensures SortedByName([x] + fs)
  {
    var r := [x] + fs;
    forall i, j | 0 <= i < j < |r| ensures !Text.Less(r[j].name, r[i].name) {
      assert r[j] == fs[j - 1];
      if i > 0 {
        assert r[i] == fs[i - 1];
      }
    }
  }

  lemma SortedUncons(fs: seq<Flag>)
    requires fs != [] && SortedByName(fs)
    ensures SortedByName(fs[1..]) && NoneBelow(fs[1..], fs[0].name)
  {
    var tail := fs[1..];
    forall i, j | 0 <= i < j < |tail| ensures !Text.Less(tail[j].name, tail[i].name) {
      assert tail[i] == fs[i + 1] && tail[j] == fs[j + 1];
    }
    forall k | 0 <= k < |tail| ensures !Text.Less(tail[k].name, fs[0].name) {
      assert tail[k] == fs[k + 1];
    }
  }

  lemma {:induction false} InsertNoneBelow(f: Flag, fs: seq<Flag>, lo: string)
    requires NoneBelow(fs, lo) && !Text.Less(f.name, lo)
    ensures NoneBelow(Insert(f, fs), lo)
  {
    if fs != [] && Text.Less(fs[0].name, f.name) {
      var tail := fs[1..];
      assert NoneBelow(tail, lo) by {
        forall k | 0 <= k < |tail| ensures !Text.Less(tail[k].name, lo) {
          assert tail[k] == fs[k + 1];
        }
      }
      InsertNoneBelow(f, tail, lo);
      var r := [fs[0]] + Insert(f, tail);
      forall k | 0 <= k < |r| ensures !Text.Less(r[k].name, lo) {
        if k > 0 {
          assert r[k] == Insert(f, tail)[k - 1];
        }
      }
    } else if fs != [] {
      var r := [f] + fs;
      forall k | 0 <= k < |r| ensures !Text.Less(r[k].name, lo) {
        if k > 0 {
          assert r[k] == fs[k - 1];
        }
      }
    }
  }

  lemma {:induction false} InsertSorted(f: Flag, fs: seq<Flag>)
    requires SortedByName(fs)
    ensures SortedByName(Insert(f, fs))
  {
    if fs == [] {
    } else if Text.Less(fs[0].name, f.name) {
      SortedUncons(fs);
      InsertSorted(f, fs[1..]);
      Text.LessTotal(fs[0].name, f.name);
      InsertNoneBelow(f, fs[1..], fs[0].name);
      SortedCons(fs[0], Insert(f, fs[1..]));
    } else {
      SortedUncons(fs);
      forall k | 0 <= k < |fs| ensures !Text.Less(fs[k].name, f.name) {
        if k > 0 {
          assert fs[k] == fs[1..][k - 1];
          NotLessTransitive(f.name, fs[0].name, fs[k].name);
        }
      }
      SortedCons(f, fs);
    }
  }

  /** The order of flag.FlagSet.VisitAll: the flags sorted by name (insertion sort). */
  function SortByName(fs: seq<Flag>): (r: seq<Flag>)
    ensures multiset(r) == multiset(fs)
    ensures |r| == |fs|
  {
    if fs == [] then []
    else
      assert fs == [fs[0]] + fs[1..];
      Insert(fs[0], SortByName(fs[1..]))
  }

  /** VisitAll hands the flags out sorted by name. */
  lemma {:induction false} SortByNameSorted(fs: seq<Flag>)
    ensures SortedByName(SortByName(fs))
  {
    if fs != [] {
      SortByNameSorted(fs[1..]);
      InsertSorted(fs[0], SortByName(fs[1..]));
    }
  }

  lemma SortedPermutationHeads(a: seq<Flag>, b: seq<Flag>)
    requires a != [] && multiset(a) == multiset(b)
    requires DistinctNames(a)
    requires SortedByName(a) && SortedByName(b)
    ensures b != [] && a[0] == b[0]
  {
    assert a[0] in multiset(b);
    var i :| 0 <= i < |b| && b[i] == a[0];
    assert b[0] in multiset(a);
    var j :| 0 <= j < |a| && a[j] == b[0];
    if i != 0 {
      assert !Text.Less(a[0].name, b[0].name);
      assert !Text.Less(b[0].name, a[0].name);
      Text.LessTotal(a[0].name, b[0].name);
      assert a[j].name == a[0].name;
    }
  }

  lemma MultisetTail(a: seq<Flag>, b: seq<Flag>)
    requires a != [] && b != [] && a[0] == b[0] && multiset(a) == multiset(b)
    ensures multiset(a[1..]) == multiset(b[1..])
  {
    assert a == [a[0]] + a[1..] && b == [b[0]] + b[1..];
    assert multiset(a) == multiset([a[0]]) + multiset(a[1..]);
    assert multiset(b) == multiset([b[0]]) + multiset(b[1..]);
    forall x ensures multiset(a[1..])[x] == multiset(b[1..])[x] {
      assert multiset(a)[x] == multiset([a[0]])[x] + multiset(a[1..])[x];
      assert multiset(b)[x] == multiset([b[0]])[x] + multiset(b[1..])[x];
    }
  }

  lemma DistinctTail(a: seq<Flag>)
    requires a != [] && DistinctNames(a)
    ensures DistinctNames(a[1..])
  {
    forall i, j | 0 <= i < j < |a[1..]| ensures a[1..][i].name != a[1..][j].name {
      assert a[1..][i] == a[i + 1] && a[1..][j] == a[j + 1];
    }
  }

  /**
   * With distinct names there is only one sorted arrangement, so any sort the flag
   * package uses gives the flags in the order SortByName does.
   */
  lemma {:induction false} SortedPermutationUnique(a: seq<Flag>, b: seq<Flag>)
    requires multiset(a) == multiset(b)
    requires DistinctNames(a)
    requires SortedByName(a) && SortedByName(b)
    ensures a == b
  {
    if a == [] {
      assert |b| == |multiset(b)| == 0;
    } else {
      SortedPermutationHeads(a, b);
      MultisetTail(a, b);
      SortedUncons(a);
      SortedUncons(b);
      DistinctTail(a);
      assert a == [a[0]] + a[1..] && b == [b[0]] + b[1..];
      SortedPermutationUnique(a[1..], b[1..]);
    }
  }

  lemma {:induction false} InsertBeforeLarger(f: Flag, fs: seq<Flag>)
    requires fs != [] && Text.Less(f.name, fs[0].name)
    ensures Insert(f, fs) == [f] + fs
  {
    Text.LessTotal(f.name, fs[0].name);
  }

  /** Flags registered in a strictly increasing name order are visited in registration order. */
  lemma {:induction false} SortByNameKeepsSorted(fs: seq<Flag>)
    requires forall i :: 0 <= i < |fs| - 1 ==> Text.Less(fs[i].name, fs[i + 1].name)
    ensures SortByName(fs) == fs
  {
    if fs != [] {
      SortByNameKeepsSorted(fs[1..]);
      if |fs| > 1 {
        InsertBeforeLarger(fs[0], fs[1..]);
      }
    }
  }
}
