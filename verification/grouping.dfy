/**
  * Grouping rows by name into an insertion-ordered `dict`, the way the table-details
  * formatter collects primary-key and index columns: a name gets its entry the first time it
  * is seen, and every row appends its column to its name's entry.
  */
module Grouping {

  /** The names of `names` without repeats, each where it first appears. */
  function FirstAppearance(names: seq<string>): (order: seq<string>)
    ensures forall x :: x in order <==> x in names
  {
    if names == [] then []
    else
      var order := FirstAppearance(names[..|names| - 1]);
      var last := names[|names| - 1];
      assert forall x :: x in names <==> x in names[..|names| - 1] || x == last;
      if last in order then order else order + [last]
  }

  /** The position of the first `x` in `s`. */
  function FirstIndex(s: seq<string>, x: string): (i: nat)
    requires x in s
    ensures i < |s| && s[i] == x && x !in s[..i]
  {
    if s[0] == x then 0
    else
      var i := FirstIndex(s[1..], x);
      assert s[..1 + i] == [s[0]] + s[1..][..i];
      1 + i
  }

  /** The names of a list of `(name, column)` rows. */
  function NamesOf(pairs: seq<(string, string)>): (names: seq<string>)
    ensures |names| == |pairs|
    ensures forall i :: 0 <= i < |pairs| ==> names[i] == pairs[i].0
  {
    if pairs == [] then [] else NamesOf(pairs[..|pairs| - 1]) + [pairs[|pairs| - 1].0]
  }

  /** The columns of the rows named `name`, in input order. */
  function ColumnsOf(pairs: seq<(string, string)>, name: string): seq<string> {
    if pairs == [] then []
    else
      var last := pairs[|pairs| - 1];
      ColumnsOf(pairs[..|pairs| - 1], name) + (if last.0 == name then [last.1] else [])
  }

  predicate Distinct(s: seq<string>) {
    forall i, j :: 0 <= i < j < |s| ==> s[i] != s[j]
  }

  /** No name is listed twice. */
  lemma {:induction false} FirstAppearanceDistinct(names: seq<string>)
    ensures Distinct(FirstAppearance(names))
  {
    if names != [] {
      var prev := FirstAppearance(names[..|names| - 1]);
      var last := names[|names| - 1];
      FirstAppearanceDistinct(names[..|names| - 1]);
      if last !in prev {
        var order := prev + [last];
        forall i, j | 0 <= i < j < |order|
          ensures order[i] != order[j]
        {
          assert order[i] == prev[i];
          if j == |prev| {
            assert prev[i] in prev;
          } else {
            assert order[j] == prev[j];
          }
        }
      }
    }
  }

  lemma {:induction false} FirstIndexOfPrefix(s: seq<string>, n: nat, x: string)
    requires n <= |s| && x in s[..n]
    ensures FirstIndex(s, x) == FirstIndex(s[..n], x)
  {
    var i := FirstIndex(s[..n], x);
    var f := FirstIndex(s, x);
    assert s[..n][..i] == s[..i];
    assert s[i] == x;
  }

  /** Every name of `order` occurs in `names`, and earlier in `order` means earlier first occurrence. */
  predicate InFirstAppearanceOrder(names: seq<string>, order: seq<string>) {
    (forall i :: 0 <= i < |order| ==> order[i] in names) &&
    forall i, j :: 0 <= i < j < |order| && order[i] in names && order[j] in names ==>
      FirstIndex(names, order[i]) < FirstIndex(names, order[j])
  }

  /** Names are listed in the order of their first appearance. */
  lemma {:induction false} FirstAppearanceOrder(names: seq<string>)
    ensures InFirstAppearanceOrder(names, FirstAppearance(names))
  {
    if names != [] {
      var init := names[..|names| - 1];
      var last := names[|names| - 1];
      var prev := FirstAppearance(init);
      FirstAppearanceOrder(init);
      forall x | x in init
        ensures FirstIndex(names, x) == FirstIndex(init, x) && FirstIndex(init, x) < |init|
      {
        assert names[..|names| - 1] == init;
        FirstIndexOfPrefix(names, |names| - 1, x);
      }
      var order := FirstAppearance(names);
      assert forall i :: 0 <= i < |prev| ==> prev[i] in init;
      if last !in prev {
        assert last !in init;
        assert names[..|init|] == init;
        assert FirstIndex(names, last) == |init|;
        assert order == prev + [last];
      } else {
        assert order == prev;
      }
      forall i, j | 0 <= i < j < |order|
        ensures FirstIndex(names, order[i]) < FirstIndex(names, order[j])
      {
        assert order[i] == prev[i];
        assert prev[i] in init;
        if j < |prev| {
          assert order[j] == prev[j];
          assert prev[j] in init;
        }
      }
    }
  }

  /** A name has columns exactly when some row carries it. */
  lemma {:induction false} ColumnsOfPresent(pairs: seq<(string, string)>, name: string)
    ensures ColumnsOf(pairs, name) != [] <==> name in NamesOf(pairs)
  {
    if pairs != [] {
      var init := pairs[..|pairs| - 1];
      ColumnsOfPresent(init, name);
      assert NamesOf(pairs) == NamesOf(init) + [pairs[|pairs| - 1].0];
    }
  }

  /** `names` and `groups` are the key order and the contents of the `dict` grouping `pairs`. */
  ghost predicate Grouped(pairs: seq<(string, string)>, names: seq<string>, groups: map<string, seq<string>>) {
    && names == FirstAppearance(NamesOf(pairs))
    && (forall n :: n in groups <==> n in names)
    && (forall n :: n in groups ==> groups[n] == ColumnsOf(pairs, n))
  }

  /** The `dict` after one more row: a new name starts an empty entry, then the row's column is appended. */
  function AddColumn(groups: map<string, seq<string>>, x: (string, string)): map<string, seq<string>> {
    var base := if x.0 in groups then groups else groups[x.0 := []];
    base[x.0 := base[x.0] + [x.1]]
  }

  /** One turn of the grouping loop keeps the `dict` in step with the rows seen so far. */
  lemma {:induction false} GroupedSnoc(pairs: seq<(string, string)>, x: (string, string),
                                       names: seq<string>, groups: map<string, seq<string>>)
    requires Grouped(pairs, names, groups)
    ensures Grouped(pairs + [x], if x.0 in groups then names else names + [x.0], AddColumn(groups, x))
  {
    NamesOfSnoc(pairs, x);
    FirstAppearanceSnoc(NamesOf(pairs), x.0);
    var g := AddColumn(groups, x);
    forall n | n in g
      ensures g[n] == ColumnsOf(pairs + [x], n)
    {
      GroupEntrySnoc(pairs, x, names, groups, n);
    }
  }

  /** One turn of the grouping loop, for the entry of one name. */
  lemma {:induction false} GroupEntrySnoc(pairs: seq<(string, string)>, x: (string, string),
                                          names: seq<string>, groups: map<string, seq<string>>, n: string)
    requires Grouped(pairs, names, groups)
    requires n in AddColumn(groups, x)
    ensures AddColumn(groups, x)[n] == ColumnsOf(pairs + [x], n)
  {
    ColumnsOfSnoc(pairs, x, n);
    if n == x.0 && n !in groups {
      ColumnsOfPresent(pairs, n);
    }
  }

  /** The turn of the grouping loop for row `i`, stated on prefixes of the rows. */
  lemma {:induction false} GroupedTurn(pairs: seq<(string, string)>, i: nat, names: seq<string>, groups: map<string, seq<string>>)
    requires i < |pairs|
    requires Grouped(pairs[..i], names, groups)
    ensures Grouped(pairs[..i + 1], if pairs[i].0 in groups then names else names + [pairs[i].0], AddColumn(groups, pairs[i]))
  {
    assert pairs[..i + 1] == pairs[..i] + [pairs[i]];
    GroupedSnoc(pairs[..i], pairs[i], names, groups);
  }

  /** The two dictionary updates of one turn of the grouping loop are `AddColumn`. */
  lemma {:induction false} AddColumnUpdates(groups: map<string, seq<string>>, base: map<string, seq<string>>, x: (string, string))
    requires base == if x.0 in groups then groups else groups[x.0 := []]
    ensures base[x.0 := base[x.0] + [x.1]] == AddColumn(groups, x)
  {
  }

  /** Every grouped name has at least one column. */
  lemma {:induction false} GroupsNotEmpty(pairs: seq<(string, string)>)
    ensures forall j :: 0 <= j < |FirstAppearance(NamesOf(pairs))| ==>
      ColumnsOf(pairs, FirstAppearance(NamesOf(pairs))[j]) != []
  {
    var names := FirstAppearance(NamesOf(pairs));
    forall j | 0 <= j < |names|
      ensures ColumnsOf(pairs, names[j]) != []
    {
      assert names[j] in names;
      ColumnsOfPresent(pairs, names[j]);
    }
  }

  /**
    * The grouping loop of `format_table_details_markdown` for primary keys: `names` is the
    * key order of the `dict`, `groups` its contents.
    */
  method GroupColumns(pairs: seq<(string, string)>) returns (names: seq<string>, groups: map<string, seq<string>>)
    ensures names == FirstAppearance(NamesOf(pairs))
    ensures forall n :: n in groups <==> n in names
    ensures forall n :: n in groups ==> groups[n] == ColumnsOf(pairs, n)
  {
    names := [];
    groups := map[];
    for i := 0 to |pairs|
      invariant Grouped(pairs[..i], names, groups)
    {
      var name, column := pairs[i].0, pairs[i].1;
      ghost var names0, groups0 := names, groups;
      if name !in groups {
        groups := groups[name := []];
        names := names + [name];
      }
      ghost var base := groups;
      groups := groups[name := groups[name] + [column]];
      AddColumnUpdates(groups0, base, pairs[i]);
      GroupedTurn(pairs, i, names0, groups0);
    }
    assert pairs[..|pairs|] == pairs;
  }

  lemma {:induction false} NamesOfSnoc(pairs: seq<(string, string)>, x: (string, string))
    ensures NamesOf(pairs + [x]) == NamesOf(pairs) + [x.0]
  {
    assert (pairs + [x])[..|pairs|] == pairs;
  }

  lemma {:induction false} ColumnsOfSnoc(pairs: seq<(string, string)>, x: (string, string), name: string)
    ensures ColumnsOf(pairs + [x], name) == ColumnsOf(pairs, name) + (if x.0 == name then [x.1] else [])
  {
    assert (pairs + [x])[..|pairs|] == pairs;
  }

  lemma {:induction false} FirstAppearanceSnoc(names: seq<string>, x: string)
    ensures FirstAppearance(names + [x]) == if x in names then FirstAppearance(names) else FirstAppearance(names) + [x]
  {
    assert (names + [x])[..|names|] == names;
  }

  /** The value of the first row named `name`, or "" when there is none. */
  function FirstValue(pairs: seq<(string, string)>, name: string): string {
    if pairs == [] then ""
    else
      var init, last := pairs[..|pairs| - 1], pairs[|pairs| - 1];
      if name in NamesOf(init) then FirstValue(init, name)
      else if last.0 == name then last.1
      else ""
  }

  /** `FirstValue` is the value at the first occurrence of the name. */
  lemma {:induction false} FirstValueIsFirst(pairs: seq<(string, string)>, name: string)
    requires name in NamesOf(pairs)
    ensures FirstValue(pairs, name) == pairs[FirstIndex(NamesOf(pairs), name)].1
  {
    var init := pairs[..|pairs| - 1];
    var names := NamesOf(pairs);
    NamesOfSnoc(init, pairs[|pairs| - 1]);
    assert init + [pairs[|pairs| - 1]] == pairs;
    assert names[..|pairs| - 1] == NamesOf(init);
    if name in NamesOf(init) {
      FirstValueIsFirst(init, name);
      FirstIndexOfPrefix(names, |pairs| - 1, name);
    } else {
      assert FirstIndex(names, name) == |pairs| - 1;
    }
  }

  lemma {:induction false} FirstValueSnoc(pairs: seq<(string, string)>, x: (string, string), name: string)
    ensures FirstValue(pairs + [x], name) ==
      if name in NamesOf(pairs) then FirstValue(pairs, name) else if x.0 == name then x.1 else ""
  {
    assert (pairs + [x])[..|pairs|] == pairs;
  }
}
