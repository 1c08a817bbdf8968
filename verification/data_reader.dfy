/**
 * The forward-only reader over the row enumerator. The command has already advanced the enumerator
 * once ("preload") before the reader is built, so the first read reports a row without advancing.
 * Column names are taken once, from whatever row is current at the first metadata call.
 */
module DataReader {
  import opened Results
  import opened Json
  import opened Rows
  import opened Coercer
  import Lists

  /** The CommandBehavior flags the reader is built with; kept, never consulted. */
  datatype CommandBehavior = CommandBehavior(flags: nat)

  datatype Reader = Reader(
    enumerator: Enumerator,
    behavior: CommandBehavior,
    preloadProcessed: bool,
    names: Option<seq<string>>)

  /** The constructor: it wraps the enumerator as it is, with the preload not yet reported and no names. */
  function NewReader(enumerator: Enumerator, behavior: CommandBehavior): (r: Reader)
    ensures r.enumerator == enumerator && r.behavior == behavior
    ensures !r.preloadProcessed && r.names.None?
  {
    Reader(enumerator, behavior, false, None)
  }

  /**
   * ReadAsync. The first call reports the preloaded row without touching the enumerator; every later
   * call advances it and reports true exactly when the stream delivers another row. A failed advance
   * reports false instead of throwing.
   */
  function ReadAsync(r: Reader): (out: (bool, Reader))
    ensures out.1.preloadProcessed
    ensures out.1.names == r.names && out.1.behavior == r.behavior
    ensures !r.preloadProcessed ==> out.0 && out.1.enumerator == r.enumerator
    ensures r.preloadProcessed ==> out.1.enumerator == MoveNext(r.enumerator).next
    ensures r.preloadProcessed ==> (out.0 <==> r.enumerator.steps < Delivered(r.enumerator.source))
  {
    if !r.preloadProcessed then
      (true, r.(preloadProcessed := true))
    else
      var a := MoveNext(r.enumerator);
      var more := match a.moved
        case Ok(b) => b
        case Err(_) => false;
      (more, r.(enumerator := a.next))
  }

  /** PopulateNames: computes the names from the current row unless they are already set. */
  function PopulateNames(r: Reader): (r': Reader)
    ensures r'.names.Some?
    ensures r.names.Some? ==> r' == r
    ensures r.names.None? ==> r' == r.(names := Some(MemberNames(r.enumerator.current)))
  {
    if r.names.Some? then r
    else r.(names := Some(MemberNames(r.enumerator.current)))
  }

  /** GetName: populates the names if needed and returns the name at `ordinal`. */
  function GetName(r: Reader, ordinal: int): (out: (Result<string>, Reader))
    ensures out.1 == PopulateNames(r)
    ensures 0 <= ordinal < |out.1.names.value| ==> out.0 == Ok(out.1.names.value[ordinal])
    ensures !(0 <= ordinal < |out.1.names.value|) ==> out.0 == Err(ArgumentOutOfRange)
  {
    var r' := PopulateNames(r);
    var names := r'.names.value;
    if 0 <= ordinal < |names| then (Ok(names[ordinal]), r') else (Err(ArgumentOutOfRange), r')
  }

  /** FieldCount: populates the names if needed and returns how many there are. */
  function FieldCount(r: Reader): (out: (nat, Reader))
    ensures out.1 == PopulateNames(r)
    ensures out.0 == |out.1.names.value|
  {
    var r' := PopulateNames(r);
    (|r'.names.value|, r')
  }

  /** The dynamic member get on the current row: the object indexer, or a binder failure on anything else. */
  function Lookup(current: Option<Json>, name: string): (v: Result<Option<Json>>)
    ensures v.Err? <==> !(current.Some? && current.value.JObject?)
    ensures v.Err? ==> v.error == RuntimeBinder
    ensures v.Ok? ==> v.value == Find(current.value.members, name)
  {
    match current
    case Some(JObject(members)) => Ok(Find(members, name))
    case _ => Err(RuntimeBinder)
  }

  /** The token for column `ordinal` of the current row; the names are indexed without being populated. */
  function Cell(r: Reader, ordinal: int): (v: Result<Option<Json>>)
    ensures r.names.None? ==> v == Err(NullReference)
    ensures r.names.Some? && !(0 <= ordinal < |r.names.value|) ==> v == Err(ArgumentOutOfRange)
    ensures r.names.Some? && 0 <= ordinal < |r.names.value| ==> v == Lookup(r.enumerator.current, r.names.value[ordinal])
  {
    match r.names
    case None => Err(NullReference)
    case Some(names) =>
      if 0 <= ordinal < |names| then Lookup(r.enumerator.current, names[ordinal])
      else Err(ArgumentOutOfRange)
  }

  /** The ordinal names a column of the populated names. */
  predicate InRange(r: Reader, ordinal: int)
  {
    r.names.Some? && 0 <= ordinal < |r.names.value|
  }

  /** The current row is a JSON object. */
  predicate ObjectRow(r: Reader)
  {
    r.enumerator.current.Some? && r.enumerator.current.value.JObject?
  }

  /**
   * GetFieldType: the column type inferred from the current row's member for that column. The names
   * are indexed without being populated; a row that is not an object cannot be read by name.
   */
  function GetFieldType(r: Reader, ordinal: int): (t: Result<FieldType>)
    ensures r.names.None? ==> t == Err(NullReference)
    ensures r.names.Some? && !InRange(r, ordinal) ==> t == Err(ArgumentOutOfRange)
    ensures InRange(r, ordinal) && !ObjectRow(r) ==> t == Err(RuntimeBinder)
    ensures InRange(r, ordinal) && ObjectRow(r) && r.names.value[ordinal] !in Keys(r.enumerator.current.value.members) ==>
              t == Ok(FieldType.Object)
    ensures InRange(r, ordinal) && ObjectRow(r) && DistinctKeys(r.enumerator.current.value.members) ==>
              forall j :: 0 <= j < |r.enumerator.current.value.members| &&
                          r.enumerator.current.value.members[j].0 == r.names.value[ordinal] ==>
                          t == FieldTypeOf(Some(r.enumerator.current.value.members[j].1))
  {
    match Cell(r, ordinal)
    case Err(e) => Err(e)
    case Ok(token) => FieldTypeOf(token)
  }

  /**
   * GetValue: the current row's member for that column, materialised. A member the row lacks fails,
   * unlike in GetFieldType.
   */
  function GetValue(r: Reader, ordinal: int): (v: Result<Cell>)
    ensures r.names.None? ==> v == Err(NullReference)
    ensures r.names.Some? && !InRange(r, ordinal) ==> v == Err(ArgumentOutOfRange)
    ensures InRange(r, ordinal) && !ObjectRow(r) ==> v == Err(RuntimeBinder)
    ensures InRange(r, ordinal) && ObjectRow(r) && r.names.value[ordinal] !in Keys(r.enumerator.current.value.members) ==>
              v == Err(RuntimeBinder)
    ensures InRange(r, ordinal) && ObjectRow(r) && DistinctKeys(r.enumerator.current.value.members) ==>
              forall j :: 0 <= j < |r.enumerator.current.value.members| &&
                          r.enumerator.current.value.members[j].0 == r.names.value[ordinal] ==>
                          v == ValueOf(Some(r.enumerator.current.value.members[j].1))
  {
    match Cell(r, ordinal)
    case Err(e) => Err(e)
    case Ok(token) => ValueOf(token)
  }

  /** NextResult and NextResultAsync: there is only ever one result set. */
  function NextResult(r: Reader): (more: bool)
    ensures !more
  {
    false
  }

  /** A column the current object row lacks: GetFieldType reports object, GetValue fails. */
  lemma MissingColumn(r: Reader, ordinal: int)
    requires r.names.Some? && 0 <= ordinal < |r.names.value|
    requires r.enumerator.current.Some? && r.enumerator.current.value.JObject?
    requires r.names.value[ordinal] !in Keys(r.enumerator.current.value.members)
    ensures GetFieldType(r, ordinal) == Ok(FieldType.Object)
    ensures GetValue(r, ordinal) == Err(RuntimeBinder)
  {
  }

  /**
   * For a column the row has, a successfully read value (bar the "" case) is assignable to the type
   * GetFieldType reports: that very type, or `object` for a handed-out JValue or JObject token.
   */
  lemma ColumnTypeMatchesValue(r: Reader, ordinal: int)
    requires GetValue(r, ordinal).Ok?
    requires !(Cell(r, ordinal).Ok? && IsUntypedArray(Cell(r, ordinal).value))
    ensures GetFieldType(r, ordinal).Ok? && AssignableTo(CellType(GetValue(r, ordinal).value), GetFieldType(r, ordinal).value)
    ensures !GetValue(r, ordinal).value.CToken? ==> GetFieldType(r, ordinal) == Ok(CellType(GetValue(r, ordinal).value))
    ensures GetValue(r, ordinal).value.CToken? ==> GetFieldType(r, ordinal) == Ok(FieldType.Object)
  {
    TypeAndValueAgree(Cell(r, ordinal).value);
  }

  // ---------------------------------------------------------------------------------------------
  // Sequences of calls on one reader.

  /** A call a consumer can make on the reader. */
  datatype Call = Read | Name(ordinal: int) | Count | FieldTypeAt(ordinal: int) | ValueAt(ordinal: int) | NextResultCall

  /** The calls that populate the names. */
  predicate IsMetadata(c: Call)
  {
    c.Name? || c.Count?
  }

  /** The reader after one call. */
  function Apply(r: Reader, c: Call): Reader
  {
    match c
    case Read => ReadAsync(r).1
    case Name(i) => GetName(r, i).1
    case Count => FieldCount(r).1
    case FieldTypeAt(_) => r
    case ValueAt(_) => r
    case NextResultCall => r
  }

  /** The reader after a sequence of calls. */
  function Run(r: Reader, calls: seq<Call>): Reader
    decreases |calls|
  {
    if |calls| == 0 then r else Run(Apply(r, calls[0]), calls[1..])
  }

  /** How many reads a sequence of calls makes. */
  function Reads(calls: seq<Call>): nat
    decreases |calls|
  {
    if |calls| == 0 then 0 else (if calls[0].Read? then 1 else 0) + Reads(calls[1..])
  }

  /** Once set, the names never change, whatever calls follow. */
  lemma {:induction false} NamesWriteOnce(r: Reader, calls: seq<Call>)
    requires r.names.Some?
    ensures Run(r, calls).names == r.names
    decreases |calls|
  {
    if |calls| > 0 {
      NamesWriteOnce(Apply(r, calls[0]), calls[1..]);
    }
  }

  /**
   * Unset names are set by the first GetName or FieldCount call, from the row current at that call,
   * and by nothing else.
   */
  lemma {:induction false} NamesFromFirstMetadataCall(r: Reader, calls: seq<Call>)
    requires r.names.None?
    ensures Lists.FirstIndex(calls, IsMetadata) == -1 ==> Run(r, calls).names.None?
    ensures var k := Lists.FirstIndex(calls, IsMetadata);
            k >= 0 ==> Run(r, calls).names == Some(MemberNames(Run(r, calls[..k]).enumerator.current))
    decreases |calls|
  {
    if |calls| > 0 {
      var r1 := Apply(r, calls[0]);
      if IsMetadata(calls[0]) {
        assert Lists.FirstIndex(calls, IsMetadata) == 0;
        assert calls[..0] == [];
        NamesWriteOnce(r1, calls[1..]);
      } else {
        assert r1.names.None?;
        NamesFromFirstMetadataCall(r1, calls[1..]);
        var k := Lists.FirstIndex(calls, IsMetadata);
        if k >= 0 {
          assert Lists.FirstIndex(calls[1..], IsMetadata) == k - 1;
          assert calls[..k][1..] == calls[1..][..k - 1];
          assert calls[..k][0] == calls[0];
        } else {
          assert Lists.FirstIndex(calls[1..], IsMetadata) == -1;
        }
      }
    }
  }

  /** Once the names are set, every later GetName and FieldCount answers the same. */
  lemma SchemaStable(r: Reader, calls: seq<Call>, ordinal: int)
    requires r.names.Some?
    ensures GetName(Run(r, calls), ordinal).0 == GetName(r, ordinal).0
    ensures FieldCount(Run(r, calls)).0 == FieldCount(r).0
  {
    NamesWriteOnce(r, calls);
  }

  /** The enumerator is advanced once per read, except for the first read after construction. */
  lemma {:induction false} OneAdvancePerLaterRead(r: Reader, calls: seq<Call>)
    ensures Run(r, calls).enumerator.steps ==
              r.enumerator.steps + Reads(calls) - (if !r.preloadProcessed && Reads(calls) > 0 then 1 else 0)
    ensures Run(r, calls).preloadProcessed <==> r.preloadProcessed || Reads(calls) > 0
    ensures Run(r, calls).enumerator.source == r.enumerator.source
    decreases |calls|
  {
    if |calls| > 0 {
      OneAdvancePerLaterRead(Apply(r, calls[0]), calls[1..]);
    }
  }

  // ---------------------------------------------------------------------------------------------
  // Reading to the end.

  /** The rows still to come from advance `k` on, each as the `Current` a successful read exposes. */
  function Remaining(s: RowStream, k: nat): seq<Option<Json>>
  {
    if k < Delivered(s) then Lift(s.rows[k..Delivered(s)]) else []
  }

  /** What the reads still to come will expose: the preloaded current (if not yet reported), then the rest. */
  function Pending(r: Reader): seq<Option<Json>>
  {
    (if r.preloadProcessed then [] else [r.enumerator.current]) + Remaining(r.enumerator.source, r.enumerator.steps)
  }

  /** The measure a read decreases while it still reports rows. */
  function Unread(r: Reader): nat
  {
    (if r.preloadProcessed then 0 else 1) +
    (if r.enumerator.steps <= |r.enumerator.source.rows| then |r.enumerator.source.rows| - r.enumerator.steps + 1 else 0)
  }

  /** The rows pending after advance `k` that delivers a row: that row, then those after it. */
  lemma RemainingCons(s: RowStream, k: nat)
    requires k < Delivered(s)
    ensures Remaining(s, k) == [Some(s.rows[k])] + Remaining(s, k + 1)
  {
    var d := Delivered(s);
    LiftCons(s.rows[k..d]);
    assert s.rows[k..d][1..] == s.rows[k + 1..d];
  }

  /** One read exposes the first pending row and leaves the rest pending; a false read leaves nothing pending. */
  lemma ReadConsumesPending(r: Reader)
    requires Valid(r.enumerator)
    ensures Valid(ReadAsync(r).1.enumerator)
    ensures ReadAsync(r).0 ==> Pending(r) == [ReadAsync(r).1.enumerator.current] + Pending(ReadAsync(r).1)
    ensures ReadAsync(r).0 ==> Unread(ReadAsync(r).1) < Unread(r)
    ensures !ReadAsync(r).0 ==> Pending(r) == []
  {
    var s := r.enumerator.source;
    var k := r.enumerator.steps;
    if r.preloadProcessed {
      if k < Delivered(s) {
        RemainingCons(s, k);
      }
    }
  }

  /**
   * A consumer loop: read until a read reports false, collecting the current row after each successful
   * read. It sees exactly the pending rows; a fetch failure ends the loop like the end of the rows.
   */
  method ReadAll(reader: Reader) returns (seen: seq<Option<Json>>, last: Reader)
    requires Valid(reader.enumerator)
    ensures seen == Pending(reader)
    ensures last.names == reader.names && last.preloadProcessed
  {
    seen := [];
    var r := reader;
    while true
      invariant Valid(r.enumerator)
      invariant r.names == reader.names
      invariant seen + Pending(r) == Pending(reader)
      decreases Unread(r)
    {
      ReadConsumesPending(r);
      var out := ReadAsync(r);
      if !out.0 {
        r := out.1;
        break;
      }
      seen := seen + [out.1.enumerator.current];
      r := out.1;
    }
    last := r;
  }
}
