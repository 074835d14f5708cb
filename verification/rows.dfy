/**
  * Result rows as the driver delivers them and as the formatters read them: a row is a
  * Python `dict` from column name to value, kept as its entries in insertion order.
  */
module Rows {

  /** A value as rendered: `None`, or the text `str(value)`. */
  datatype Cell = Null | Val(text: string)

  /** A `dict` in insertion order; its keys are distinct. */
  type Row = seq<(string, Cell)>

  function Keys(r: Row): (ks: seq<string>)
    ensures |ks| == |r|
    ensures forall i :: 0 <= i < |r| ==> ks[i] == r[i].0
  {
    if r == [] then [] else [r[0].0] + Keys(r[1..])
  }

  /** `row[key]` */
  function Get(r: Row, k: string): Cell
    requires k in Keys(r)
  {
    if r[0].0 == k then r[0].1 else Get(r[1..], k)
  }

  /** `d[k] = v`: an existing key keeps its position and takes the new value, a new key goes last. */
  function Put(r: Row, k: string, v: Cell): (r': Row)
    ensures Keys(r') == if k in Keys(r) then Keys(r) else Keys(r) + [k]
    ensures k in Keys(r') && Get(r', k) == v
  {
    if r == [] then [(k, v)]
    else if r[0].0 == k then
      KeysCons(r[0], r[1..]);
      KeysCons((k, v), r[1..]);
      [(k, v)] + r[1..]
    else
      var rest := Put(r[1..], k, v);
      KeysCons(r[0], r[1..]);
      KeysCons(r[0], rest);
      [r[0]] + rest
  }

  lemma {:induction false} KeysCons(x: (string, Cell), rest: Row)
    ensures Keys([x] + rest) == [x.0] + Keys(rest)
  {
    assert ([x] + rest)[1..] == rest;
  }

  /** `dict(zip(columns, values))`: pairs up to the shorter length, later duplicates overwrite. */
  function FromZip(columns: seq<string>, values: seq<Cell>): Row
    decreases |columns|
  {
    var n := if |columns| < |values| then |columns| else |values|;
    if n == 0 then []
    else Put(FromZip(columns[..n - 1], values[..n - 1]), columns[n - 1], values[n - 1])
  }

  /**
    * In a zipped row a column holds the value paired with it, provided no later pair (within
    * the shorter length) names the same column again; with distinct columns that is every pair.
    */
  lemma {:induction false} FromZipGet(columns: seq<string>, values: seq<Cell>, k: nat)
    requires k < |columns| && k < |values|
    requires forall j :: k < j < |columns| && j < |values| ==> columns[j] != columns[k]
    ensures columns[k] in Keys(FromZip(columns, values))
    ensures Get(FromZip(columns, values), columns[k]) == values[k]
    decreases |columns|
  {
    var n := if |columns| < |values| then |columns| else |values|;
    var cs, vs := columns[..n - 1], values[..n - 1];
    var prev := FromZip(cs, vs);
    var r := Put(prev, columns[n - 1], values[n - 1]);
    assert FromZip(columns, values) == r;
    if k < n - 1 {
      assert cs[k] == columns[k] && vs[k] == values[k];
      forall j | k < j < |cs| && j < |vs|
        ensures cs[j] != cs[k]
      {
        assert cs[j] == columns[j];
      }
      FromZipGet(cs, vs, k);
      assert Get(prev, columns[k]) == values[k];
      PutKeepsOther(prev, columns[n - 1], values[n - 1], columns[k]);
      assert Get(r, columns[k]) == values[k];
    } else {
      assert k == n - 1;
      assert Get(r, columns[k]) == values[k];
    }
  }

  /** `d[k] = v` leaves the value of every other key as it was. */
  lemma {:induction false} PutKeepsOther(r: Row, k: string, v: Cell, j: string)
    requires j in Keys(r) && j != k
    ensures j in Keys(Put(r, k, v)) && Get(Put(r, k, v), j) == Get(r, j)
  {
    if r[0].0 != j {
      assert Keys(r) == [r[0].0] + Keys(r[1..]);
      PutKeepsOther(r[1..], k, v, j);
    }
  }

  /** The keys of a zipped row depend only on the column names it was zipped over. */
  lemma {:induction false} FromZipKeys(columns: seq<string>, v1: seq<Cell>, v2: seq<Cell>)
    requires |v1| == |columns| && |v2| == |columns|
    ensures Keys(FromZip(columns, v1)) == Keys(FromZip(columns, v2))
    decreases |columns|
  {
    var n := |columns|;
    if n > 0 {
      FromZipKeys(columns[..n - 1], v1[..n - 1], v2[..n - 1]);
    }
  }
}
