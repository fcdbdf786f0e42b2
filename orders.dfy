/**
 * The split at the end of `OrderService.customer_details_for_orders`: after
 * the orders have been left-joined with the customer master on `name_key`,
 * the rows that got no latitude or longitude are reported as missing and
 * the others become the stops handed to the route planner, renumbered
 * `0..m-1`.
 */
module Orders {
  import opened Wrappers

  /**
   * One row of the joined table: the coordinates taken from the customer
   * master (`None` where pandas holds NaN, which includes every order whose
   * name key matched no customer) and the rest of the row.
   */
  datatype Joined<T> = Joined(lat: Option<real>, lon: Option<real>, data: T)

  /** A row that `dropna(subset=["lat", "lon"])` keeps. */
  predicate Located<T>(row: Joined<T>)
  {
    row.lat.Some? && row.lon.Some?
  }

  /** The row labels `0..|rows|-1` whose location status is `located`, in ascending order. */
  function Where<T>(rows: seq<Joined<T>>, located: bool): (r: seq<nat>)
    ensures forall t :: 0 <= t < |r| ==> r[t] < |rows| && Located(rows[r[t]]) == located
    ensures forall t, u :: 0 <= t < u < |r| ==> r[t] < r[u]
    ensures forall i :: 0 <= i < |rows| && Located(rows[i]) == located ==> i in r
  {
    if rows == [] then []
    else
      var init := Where(rows[..|rows| - 1], located);
      assert forall t :: 0 <= t < |init| ==> rows[init[t]] == rows[..|rows| - 1][init[t]];
      if Located(rows[|rows| - 1]) == located then init + [|rows| - 1] else init
  }

  /**
   * `merged_df.dropna(subset=["lat", "lon"]).reset_index(drop=True)`: the
   * located rows in their original order, the `t`-th of them now labelled `t`.
   */
  function Matched<T>(rows: seq<Joined<T>>): (r: seq<Joined<T>>)
    ensures forall t :: 0 <= t < |r| ==> Located(r[t])
    ensures |r| == |Where(rows, true)|
    ensures forall t :: 0 <= t < |r| ==> r[t] == rows[Where(rows, true)[t]]
  {
    var pos := Where(rows, true);
    seq(|pos|, t requires 0 <= t < |pos| => rows[pos[t]])
  }

  /**
   * `merged_df[merged_df["lat"].isna() | merged_df["lon"].isna()]`: the rows
   * without a location, each still carrying its label in the joined table.
   */
  function Missing<T>(rows: seq<Joined<T>>): (r: seq<(nat, Joined<T>)>)
    ensures forall t :: 0 <= t < |r| ==> r[t].0 < |rows| && rows[r[t].0] == r[t].1 && !Located(r[t].1)
    ensures forall t, u :: 0 <= t < u < |r| ==> r[t].0 < r[u].0
  {
    var pos := Where(rows, false);
    seq(|pos|, t requires 0 <= t < |pos| => (pos[t], rows[pos[t]]))
  }

  /** `customer_details_for_orders` after the join: the matched stops and the missing customers. */
  function CustomerDetails<T>(rows: seq<Joined<T>>): (r: (seq<Joined<T>>, seq<(nat, Joined<T>)>))
    ensures |r.0| + |r.1| == |rows|
  {
    WhereCounts(rows);
    (Matched(rows), Missing(rows))
  }

  /** Every row label is located or not, so the two selections together have all the rows. */
  lemma {:induction false} WhereCounts<T>(rows: seq<Joined<T>>)
    ensures |Where(rows, true)| + |Where(rows, false)| == |rows|
  {
    if rows != [] {
      WhereCounts(rows[..|rows| - 1]);
    }
  }

  /**
   * Every row of the joined table lands in exactly one of the two outputs:
   * a located row among the matched stops, any other among the missing
   * customers.
   */
  lemma SplitPartitions<T>(rows: seq<Joined<T>>, i: nat)
    requires i < |rows|
    ensures Located(rows[i]) <==> exists t :: 0 <= t < |Matched(rows)| && Where(rows, true)[t] == i
    ensures !Located(rows[i]) <==> exists t :: 0 <= t < |Missing(rows)| && Missing(rows)[t].0 == i
  {
    var yes := Where(rows, true);
    var no := Where(rows, false);
    assert |Matched(rows)| == |yes| && |Missing(rows)| == |no|;
    if Located(rows[i]) {
      var t :| 0 <= t < |yes| && yes[t] == i;
      assert 0 <= t < |Matched(rows)| && Where(rows, true)[t] == i;
      forall t | 0 <= t < |Missing(rows)| ensures Missing(rows)[t].0 != i {
        assert Missing(rows)[t].0 == no[t];
      }
    } else {
      var t :| 0 <= t < |no| && no[t] == i;
      assert Missing(rows)[t].0 == i;
    }
  }

  /** When every row has the same location status, `Where` selects every label or none. */
  lemma {:induction false} WhereUniform<T>(rows: seq<Joined<T>>, located: bool)
    requires forall i :: 0 <= i < |rows| ==> Located(rows[i]) == located
    ensures |Where(rows, located)| == |rows| && forall t :: 0 <= t < |rows| ==> Where(rows, located)[t] == t
    ensures Where(rows, !located) == []
  {
    if rows != [] {
      WhereUniform(rows[..|rows| - 1], located);
    }
  }

  /** When every row is located nothing is missing and the stops are the rows themselves. */
  lemma AllLocated<T>(rows: seq<Joined<T>>)
    requires forall i :: 0 <= i < |rows| ==> Located(rows[i])
    ensures Matched(rows) == rows && Missing(rows) == []
  {
    WhereUniform(rows, true);
  }
}
