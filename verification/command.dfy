/**
 * The command: query text plus parameters, executed in one of three modes — mutation count, scalar,
 * or reader. Creating a command from a connection lives here too, since it builds a command.
 */
module Command {
  import opened Results
  import opened Json
  import opened Rows
  import opened Coercer
  import opened Parameters
  import opened DataReader
  import opened Connection
  import NameOrder

  /** A command: its connection (None for C# null), its text, and its parameter collection. */
  datatype Command = Command(connection: Option<Connection>, commandText: string, parameters: ParameterCollection)

  /** The constructor: no connection yet, an unset text, an empty parameter collection. */
  function NewCommand(): (cmd: Command)
    ensures cmd.connection.None? && cmd.parameters.items == []
  {
    Command(None, "", Empty)
  }

  /**
   * The guard of the non-query and reader modes: a connection is set and reports Open. Since every
   * connection reports Open, the guard passes exactly when a connection is set.
   */
  function IsOpen(cmd: Command): (r: bool)
    ensures r <==> cmd.connection.Some?
    ensures r ==> State(cmd.connection.value) == Open
  {
    cmd.connection.Some? && State(cmd.connection.value) == Open
  }

  /** CreateDbCommand: a fresh command bound to this connection, which therefore passes the guard. */
  function CreateCommand(conn: Connection): (cmd: Command)
    ensures cmd.connection == Some(conn) && IsOpen(cmd)
    ensures cmd.parameters.items == []
  {
    NewCommand().(connection := Some(conn))
  }

  /** What the engine answers for this command: its text verbatim with its parameters bound. */
  function Submitted(cmd: Command): QueryResult
    requires cmd.connection.Some?
  {
    cmd.connection.value.cluster(cmd.commandText, Bindings(Some(cmd.parameters)))
  }

  /** The unchecked `(int)` cast of a uint: the int32 with the same 32 bits. */
  function ToInt32(count: uint32): (r: int)
    ensures Int32Min <= r <= Int32Max
    ensures (r - count) % 0x1_0000_0000 == 0
    ensures count <= Int32Max ==> r == count
  {
    if count <= Int32Max then count else count - 0x1_0000_0000
  }

  /** ExecuteNonQueryAsync: the guard, then the engine's mutation count cast to int. */
  method ExecuteNonQuery(cmd: Command) returns (r: Result<int>)
    ensures !IsOpen(cmd) <==> r == Err(InvalidOperation)
    ensures IsOpen(cmd) ==> r == Ok(ToInt32(Submitted(cmd).mutationCount))
    ensures IsOpen(cmd) && Submitted(cmd).mutationCount <= Int32Max ==> r == Ok(Submitted(cmd).mutationCount)
  {
    if cmd.connection.None? || State(cmd.connection.value) != Open {
      return Err(InvalidOperation);
    }
    var mutations := SqlPlusPlusCommand(cmd.connection.value, cmd.commandText, Some(cmd.parameters));
    return Ok(ToInt32(mutations));
  }

  /** FirstOrDefaultAsync: one advance of a fresh enumerator; a fetch failure propagates. */
  function FirstOrDefault(s: RowStream): (r: Result<Option<Json>>)
    ensures Faults(s, 0) <==> r == Err(FetchFailed)
    ensures !Faults(s, 0) && |s.rows| == 0 ==> r == Ok(None)
    ensures !Faults(s, 0) && |s.rows| > 0 ==> r == Ok(Some(s.rows[0]))
  {
    var a := MoveNext(Start(s));
    match a.moved
    case Err(e) => Err(e)
    case Ok(_) => Ok(a.next.current)
  }

  /** .NET primitive types among the row values: booleans, longs and doubles (strings are not primitive). */
  predicate IsPrimitive(j: Json)
  {
    j.JBool? || (j.JInt? && Int64Min <= j.n <= Int64Max) || j.JFloat?
  }

  /**
   * The scalar of a first row: null for no row or a JSON null; a primitive as it is; otherwise the
   * value of the member whose name sorts first. A row with no member names has nothing to read.
   */
  function ScalarOf(first: Option<Json>): (r: Result<Option<Json>>)
    ensures first.None? || first == Some(JNull) ==> r == Ok(None)
    ensures first.Some? && IsPrimitive(first.value) ==> r == Ok(first)
    ensures first.Some? && first.value.JObject? && |first.value.members| > 0 ==>
              r.Ok? && r.value.Some? && (NameOrder.Least(Keys(first.value.members)), r.value.value) in first.value.members
    ensures r.Err? <==> first.Some? && first.value != JNull && !IsPrimitive(first.value) && MemberNames(first) == []
    ensures r.Err? ==> r.error == RuntimeBinder
  {
    if first.None? || first.value.JNull? then Ok(None)
    else if IsPrimitive(first.value) then Ok(first)
    else
      var names := MemberNames(first);
      if |names| == 0 then Err(RuntimeBinder)
      else Ok(Find(first.value.members, NameOrder.Least(names)))
  }

  /** The scalar is the value of a member whose name sorts no later than every other member name. */
  lemma ScalarIsLeastNamedMember(members: seq<Member>)
    requires |members| > 0
    ensures var r := ScalarOf(Some(JObject(members)));
            r.Ok? && r.value.Some? &&
            exists m :: m in members && m.1 == r.value.value && forall k :: k in Keys(members) ==> NameOrder.LexLe(m.0, k)
  {
    var r := ScalarOf(Some(JObject(members)));
    var m := (NameOrder.Least(Keys(members)), r.value.value);
    assert m in members;
  }

  /** The scalar of an object row does not depend on the order of its members. */
  lemma ScalarIgnoresMemberOrder(a: seq<Member>, b: seq<Member>)
    requires DistinctKeys(a) && DistinctKeys(b)
    requires forall m :: m in a <==> m in b
    ensures ScalarOf(Some(JObject(a))) == ScalarOf(Some(JObject(b)))
  {
    if |a| > 0 {
      assert a[0] in b;
      assert forall n :: n in Keys(a) <==> n in Keys(b) by {
        forall n
          ensures n in Keys(a) <==> n in Keys(b)
        {
          if n in Keys(a) {
            var i :| 0 <= i < |a| && Keys(a)[i] == n;
            assert a[i] in b;
            var j :| 0 <= j < |b| && b[j] == a[i];
            assert Keys(b)[j] == n;
          }
          if n in Keys(b) {
            var j :| 0 <= j < |b| && Keys(b)[j] == n;
            assert b[j] in a;
            var i :| 0 <= i < |a| && a[i] == b[j];
            assert Keys(a)[i] == n;
          }
        }
      }
      NameOrder.LeastDependsOnlyOnNames(Keys(a), Keys(b));
      var k := NameOrder.Least(Keys(a));
      var v := Find(a, k).value;
      FindDistinct(b, k, v);
    }
  }

  /** Example: for {"b": 2, "a": 1} the scalar is 1, from the alphabetically first name. */
  lemma ScalarTieBreakExample()
    ensures ScalarOf(Some(JObject([("b", JInt(2)), ("a", JInt(1))]))) == Ok(Some(JInt(1)))
  {
    var ms := [("b", JInt(2)), ("a", JInt(1))];
    assert Keys(ms) == ["b", "a"];
    assert NameOrder.LexLe("a", "b");
    assert !NameOrder.LexLe("b", "a");
  }

  /** What ExecuteScalarAsync answers for a result stream: its first row, if any, reduced to its scalar. */
  function Scalar(s: RowStream): (r: Result<Option<Json>>)
    ensures Faults(s, 0) ==> r == Err(FetchFailed)
    ensures !Faults(s, 0) && |s.rows| == 0 ==> r == Ok(None)
    ensures !Faults(s, 0) && |s.rows| > 0 ==> r == ScalarOf(Some(s.rows[0]))
  {
    match FirstOrDefault(s)
    case Err(e) => Err(e)
    case Ok(row) => ScalarOf(row)
  }

  /**
   * Only the first row is consulted: two result streams that agree on their first advance give the
   * same ExecuteScalarAsync answer, whatever they deliver afterwards.
   */
  lemma ScalarReadsOnlyFirstRow(s: RowStream, t: RowStream)
    requires Faults(s, 0) == Faults(t, 0)
    requires |s.rows| > 0 <==> |t.rows| > 0
    requires |s.rows| > 0 ==> s.rows[0] == t.rows[0]
    ensures Scalar(s) == Scalar(t)
  {
  }

  /**
   * ExecuteScalarAsync: no open-guard (a missing connection fails on use); the first row, if any,
   * reduced to its scalar. A failing first fetch propagates.
   */
  method ExecuteScalar(cmd: Command) returns (r: Result<Option<Json>>)
    ensures r != Err(InvalidOperation)
    ensures cmd.connection.None? ==> r == Err(NullReference)
    ensures cmd.connection.Some? && Faults(Submitted(cmd).rows, 0) ==> r == Err(FetchFailed)
    ensures cmd.connection.Some? && !Faults(Submitted(cmd).rows, 0) && |Submitted(cmd).rows.rows| == 0 ==> r == Ok(None)
    ensures cmd.connection.Some? && !Faults(Submitted(cmd).rows, 0) && |Submitted(cmd).rows.rows| > 0 ==>
              r == ScalarOf(Some(Submitted(cmd).rows.rows[0]))
    ensures cmd.connection.Some? ==> r == Scalar(Submitted(cmd).rows)
  {
    if cmd.connection.None? {
      return Err(NullReference);
    }
    var query := SqlPlusPlus(cmd.connection.value, cmd.commandText, Some(cmd.parameters));
    var first := FirstOrDefault(query);
    match first
    case Err(e) =>
      return Err(e);
    case Ok(row) =>
      return ScalarOf(row);
  }

  /**
   * ExecuteDbDataReaderAsync: the guard, then one preloading advance whose result is discarded, then a
   * fresh reader over that same enumerator. A failing preload propagates.
   */
  method ExecuteReader(cmd: Command, behavior: CommandBehavior) returns (r: Result<Reader>)
    ensures !IsOpen(cmd) ==> r == Err(InvalidOperation)
    ensures IsOpen(cmd) ==> (r.Err? <==> Faults(Submitted(cmd).rows, 0))
    ensures r.Err? ==> r.error == InvalidOperation || r.error == FetchFailed
    ensures r.Ok? ==> r.value.enumerator.source == Submitted(cmd).rows && r.value.enumerator.steps == 1
    ensures r.Ok? ==> Valid(r.value.enumerator)
    ensures r.Ok? ==> !r.value.preloadProcessed && r.value.names.None? && r.value.behavior == behavior
  {
    if cmd.connection.None? || State(cmd.connection.value) != Open {
      return Err(InvalidOperation);
    }
    var query := SqlPlusPlus(cmd.connection.value, cmd.commandText, Some(cmd.parameters));
    var enumerator := Start(query);
    var preload := MoveNext(enumerator);
    if preload.moved.Err? {
      return Err(preload.moved.error);
    }
    r := Ok(NewReader(preload.next, behavior));
  }

  /**
   * What a reader fresh from the command still has to show: the preloaded current, then the rest of
   * the delivered rows — which is every delivered row, or a lone absent row when there are none.
   */
  lemma PendingAfterPreload(reader: Reader)
    requires Valid(reader.enumerator) && reader.enumerator.steps == 1 && !reader.preloadProcessed
    ensures Delivered(reader.enumerator.source) == 0 ==> Pending(reader) == [None]
    ensures Delivered(reader.enumerator.source) > 0 ==>
              Pending(reader) == Lift(reader.enumerator.source.rows[..Delivered(reader.enumerator.source)])
  {
    var s := reader.enumerator.source;
    var d := Delivered(s);
    if d > 0 {
      LiftCons(s.rows[..d]);
      assert s.rows[..d][1..] == s.rows[1..d];
      assert Pending(reader) == [Some(s.rows[0])] + Remaining(s, 1);
    } else {
      assert Pending(reader) == [None] + Remaining(s, 1);
    }
  }

  /**
   * On an empty result, a reader fresh from the command still reports a first row, and that row has
   * no columns: there is no current document to take names from.
   */
  lemma EmptyResultHasNoColumns(reader: Reader)
    requires Valid(reader.enumerator) && reader.enumerator.steps == 1 && !reader.preloadProcessed
    requires reader.names.None? && Delivered(reader.enumerator.source) == 0
    ensures ReadAsync(reader).0
    ensures FieldCount(ReadAsync(reader).1).0 == 0
  {
  }

  /**
   * Executing a reader and reading it to the end shows every row the stream delivers, in order. An
   * empty result still shows one row with no current document: the first read reports the preload
   * as a row whatever the preload found.
   */
  method ExecuteReaderAndReadAll(cmd: Command, behavior: CommandBehavior) returns (r: Result<seq<Option<Json>>>)
    ensures IsOpen(cmd) && !Faults(Submitted(cmd).rows, 0) <==> r.Ok?
    ensures r.Ok? && Delivered(Submitted(cmd).rows) == 0 ==> r.value == [None]
    ensures r.Ok? && Delivered(Submitted(cmd).rows) > 0 ==>
              r.value == Lift(Submitted(cmd).rows.rows[..Delivered(Submitted(cmd).rows)])
  {
    var reader := ExecuteReader(cmd, behavior);
    if reader.Err? {
      return Err(reader.error);
    }
    PendingAfterPreload(reader.value);
    var seen, _ := ReadAll(reader.value);
    r := Ok(seen);
  }
}
