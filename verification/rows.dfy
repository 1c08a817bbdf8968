/**
 * The lazy row sequence the query engine returns, and the forward-only enumerator over it.
 * Asynchrony is dropped: each advance is one step. A fetch failure or a cancellation is modelled
 * as a stream that fails from a given advance on.
 */
module Rows {
  import opened Results
  import opened Json

  /** The rows a query produces and, optionally, the advance (counted from 0) from which fetching fails. */
  datatype RowStream = RowStream(rows: seq<Json>, failAt: Option<nat>)

  /** Advance number `k` throws instead of producing a row. */
  predicate Faults(s: RowStream, k: nat)
  {
    s.failAt.Some? && s.failAt.value <= k
  }

  /** How many rows the stream hands out before it ends or fails. */
  function Delivered(s: RowStream): (n: nat)
    ensures n <= |s.rows|
    ensures forall k: nat :: k < n ==> !Faults(s, k)
    ensures n < |s.rows| ==> Faults(s, n)
  {
    match s.failAt
    case None => |s.rows|
    case Some(f) => if f < |s.rows| then f else |s.rows|
  }

  /** Every row wrapped as a present value. */
  function Lift(xs: seq<Json>): (r: seq<Option<Json>>)
    ensures |r| == |xs|
    ensures forall i :: 0 <= i < |xs| ==> r[i] == Some(xs[i])
  {
    seq(|xs|, i requires 0 <= i < |xs| => Some(xs[i]))
  }

  /** Lifting a non-empty sequence lifts its head, then its tail. */
  lemma LiftCons(xs: seq<Json>)
    requires |xs| > 0
    ensures Lift(xs) == [Some(xs[0])] + Lift(xs[1..])
  {
  }

  /** An enumerator: its source, how many advances were made, and `Current` (None for C# default). */
  datatype Enumerator = Enumerator(source: RowStream, steps: nat, current: Option<Json>)

  /** `Current` is the row produced by the last advance when that advance produced one, and nothing otherwise. */
  predicate Valid(e: Enumerator)
  {
    e.current == if 0 < e.steps <= Delivered(e.source) then Some(e.source.rows[e.steps - 1]) else None
  }

  /** A fresh enumerator, positioned before the first row. */
  function Start(s: RowStream): (e: Enumerator)
    ensures Valid(e) && e.source == s && e.steps == 0 && e.current.None?
  {
    Enumerator(s, 0, None)
  }

  /** What one `MoveNextAsync` produced: true/false or the exception it threw, and the advanced enumerator. */
  datatype Advance = Advance(moved: Result<bool>, next: Enumerator)

  /** One `MoveNextAsync`: true exactly when another row is delivered; a failing stream throws. */
  function MoveNext(e: Enumerator): (a: Advance)
    ensures a.next.source == e.source && a.next.steps == e.steps + 1
    ensures Valid(a.next)
    ensures a.moved == Ok(true) <==> e.steps < Delivered(e.source)
    ensures a.moved.Err? <==> Faults(e.source, e.steps)
    ensures a.moved.Err? ==> a.moved.error == FetchFailed
  {
    var k := e.steps;
    if Faults(e.source, k) then
      Advance(Err(FetchFailed), Enumerator(e.source, k + 1, None))
    else if k < |e.source.rows| then
      Advance(Ok(true), Enumerator(e.source, k + 1, Some(e.source.rows[k])))
    else
      Advance(Ok(false), Enumerator(e.source, k + 1, None))
  }
}
