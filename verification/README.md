# Couchbase ADO.NET adapter — a Dafny model

This project models the core of CouchbaseDbConnection, an ADO.NET provider that lets a tabular
data-access layer (Dapper) run SQL++ queries against Couchbase. Query rows are schema-less JSON
documents; the adapter presents them as a forward-only cursor with named, typed columns.

Modules, following the source files:

- `Json`: the JSON token as a datatype (`JNull`, `JBool`, `JInt`, `JFloat`, `JString`, `JArray`,
  `JObject` with ordered members). It also holds the object indexer (`Find`) and the member names
  that dynamic enumeration reports (`MemberNames`).
- `Rows`: the engine's lazy row sequence and its enumerator. A fetch failure or a cancellation is a
  stream that fails from a given advance on.
- `Coercer`: the pure classification behind `GetFieldType` and `GetValue`.
- `DataReader`: `CouchbaseDbDataReader` as a record with transition functions. It covers the
  preload flag, the write-once column names, cell access, and a consumer loop (`ReadAll`) that
  reads to the end.
- `Parameters`: `CouchbaseDbParameterCollection` over a sequence.
- `Connection`: `CouchbaseDbConnection`. The cluster is a function from (command text, parameter
  bindings) to (row stream, mutation count).
- `Command`: `CouchbaseDbCommand` and its three execution modes, plus `CreateDbCommand`. That one
  lives here because it builds a command.
- Helpers: `Results` (Option, Result, the .NET exceptions), `Lists` (`FindIndex`/`IndexOf`),
  `NameOrder` (the string order behind `OrderBy(n => n)`).

Three behaviours of the code are easy to miss, and the model keeps them:

- **First read on an empty result.** The first `ReadAsync` reports `true` whatever the command's
  preload advance found (CouchbaseDbDataReader.cs:237-241; the comment at lines 235-236 assumes the
  first row is always there). So an empty result shows one row with no current document, as
  `ExecuteReaderAndReadAll` states. With that row current, `FieldCount` is 0.
- **When column names are discovered.** Names are not read at construction
  (CouchbaseDbDataReader.cs:24-29). They are read at the first `GetName`/`FieldCount` call, from the
  row current at that moment (lines 124-140, 191-198), and never change afterwards.
- **Empty arrays.** `GetFieldType` and `GetValue` index element 0 of an array unconditionally
  (CouchbaseDbDataReader.cs:82, 160), so an empty array column fails both (`ArgumentOutOfRange`).

Exceptions are `Err` values of `Results.Result`. Three of them are swallowed or propagated
differently:

- A fetch failure during `ReadAsync` is swallowed and reads as `false`.
- A fetch failure during the command's preload advance propagates.
- A fetch failure during `ExecuteScalar`'s `FirstOrDefaultAsync` propagates.

## Model

| member | source | states |
|---|---|---|
| NameOrder.Least | CouchbaseDbConnection/CouchbaseDbCommand.cs:70-72 | the name `OrderBy(n => n).FirstOrDefault()` picks occurs in the list and sorts no later than every name in it |
| NameOrder.LeastDependsOnlyOnNames | CouchbaseDbConnection/CouchbaseDbCommand.cs:70-72 | two name lists with the same names, in any order, give the same least name |
| Rows.MoveNext | CouchbaseDbConnection/CouchbaseDbDataReader.cs:243-244 | an advance yields true exactly when the stream delivers another row and throws exactly when the stream fails at that step; afterwards `Current` is the delivered row or nothing |
| Coercer.ConvertElements | CouchbaseDbConnection/CouchbaseDbDataReader.cs:161-168 | `ToObject<List<T>>` succeeds exactly when every element converts; the list then has the array's length and its i-th entry is the i-th element converted |
| Coercer.FieldTypeOf | CouchbaseDbConnection/CouchbaseDbDataReader.cs:79-96 | a list type exactly for a non-empty array whose first element is an integer, string, boolean or object, chosen by that element; `object` exactly for a missing member, a JSON null or a nested object; `bool` for a boolean, `long` or `BigInteger` by magnitude for an integer, `double` for a float and `string` for a string; failure exactly for an empty array or one of another first kind |
| Coercer.MixedArrayHasTypeButNoValue | CouchbaseDbConnection/CouchbaseDbDataReader.cs:157-168 | an array [1, "x"] is typed `List<int>` by its first element, yet its value fails to convert |
| Coercer.ValueOf | CouchbaseDbConnection/CouchbaseDbDataReader.cs:157-178 | a missing member fails; a boolean, number or string gives its underlying value; a JSON null or nested object is returned as the token itself; an empty array fails; an array of another first kind gives ""; a typed array fails only by conversion |
| Coercer.TypedArrayConverts | CouchbaseDbConnection/CouchbaseDbDataReader.cs:161-168 | a typed array's value exists exactly when every element has the first element's kind, with integers inside int32 |
| Coercer.ValueRoundTrip | CouchbaseDbConnection/CouchbaseDbDataReader.cs:157-178 | any value `GetValue` materialises, apart from the "" case, denotes the column's token exactly; arrays are converted whole and without loss |
| Coercer.TypeAndValueAgree | CouchbaseDbConnection/CouchbaseDbDataReader.cs:76-178 | a materialised value's runtime type is assignable to the type `GetFieldType` reports: the same type, except that a JSON null or nested object is handed out as its JValue or JObject while the column is `object`; a scalar always has both; exactly one of the two succeeds exactly for an array of another first kind ("" versus failure), a missing member (`object` versus failure) and a typed array with an element that does not convert (list type versus failure) |
| Coercer.NestedObjectIsAssignableOnly | CouchbaseDbConnection/CouchbaseDbDataReader.cs:76-178 | a nested object cell is handed out as its JObject, whose runtime type is JObject, while its column type is `object` |
| Coercer.ArrayTypedByFirstElement | CouchbaseDbConnection/CouchbaseDbDataReader.cs:79-90 | two non-empty arrays whose first elements share a kind get the same column type, whatever follows |
| DataReader.NewReader | CouchbaseDbConnection/CouchbaseDbDataReader.cs:24-29 | a new reader wraps the given enumerator unchanged, with the preload not yet reported and no names |
| DataReader.ReadAsync | CouchbaseDbConnection/CouchbaseDbDataReader.cs:231-251 | the first read reports true without touching the enumerator; a later read advances it and reports true exactly when another row is delivered; a failed advance reports false; the names are untouched |
| DataReader.PopulateNames | CouchbaseDbConnection/CouchbaseDbDataReader.cs:133-140 | names already set are kept; otherwise they become the member names of the current row |
| DataReader.GetName | CouchbaseDbConnection/CouchbaseDbDataReader.cs:124-131 | populates the names, then returns the name at the ordinal, or fails for an ordinal outside them |
| DataReader.FieldCount | CouchbaseDbConnection/CouchbaseDbDataReader.cs:191-198 | populates the names, then returns how many there are |
| DataReader.Lookup | CouchbaseDbConnection/CouchbaseDbDataReader.cs:78 | a dynamic get on an object row is its indexer (nothing for a missing member); on anything else, including no row, it fails to bind |
| DataReader.Cell | CouchbaseDbConnection/CouchbaseDbDataReader.cs:154-155 | unset names fail with a null reference, an ordinal outside them fails, otherwise the current row's member with that name |
| DataReader.GetFieldType | CouchbaseDbConnection/CouchbaseDbDataReader.cs:76-97 | unpopulated names fail (they are indexed, not populated); an ordinal outside them fails; a current row that is not an object fails to bind; a column the row lacks is `object`; otherwise the classification of the row's member with that name |
| DataReader.GetValue | CouchbaseDbConnection/CouchbaseDbDataReader.cs:152-179 | the same errors as `GetFieldType`, except that a column the row lacks fails too; otherwise the row's member with that name, materialised |
| DataReader.NextResult | CouchbaseDbConnection/CouchbaseDbDataReader.cs:218-228 | there is never another result set |
| DataReader.MissingColumn | CouchbaseDbConnection/CouchbaseDbDataReader.cs:92-178 | for a column the current object row lacks, `GetFieldType` says `object` while `GetValue` fails |
| DataReader.ColumnTypeMatchesValue | CouchbaseDbConnection/CouchbaseDbDataReader.cs:76-178 | on the reader, a successfully read cell (other than the "" case) is assignable to the type `GetFieldType` reports: that type itself, or `object` for a handed-out JValue or JObject token |
| DataReader.NamesWriteOnce | CouchbaseDbConnection/CouchbaseDbDataReader.cs:133-140 | once set, the names survive any sequence of reads, metadata calls and cell accesses unchanged |
| DataReader.NamesFromFirstMetadataCall | CouchbaseDbConnection/CouchbaseDbDataReader.cs:124-140 | unset names stay unset until the first `GetName`/`FieldCount` call; from then on they are the member names of the row current at that call |
| DataReader.SchemaStable | CouchbaseDbConnection/CouchbaseDbDataReader.cs:124-198 | after the names are set, `GetName(i)` and `FieldCount` answer the same for every later row |
| DataReader.OneAdvancePerLaterRead | CouchbaseDbConnection/CouchbaseDbDataReader.cs:237-244 | over any call sequence the enumerator advances once per read, minus one for the first read after construction; the preload flag is set exactly when some read happened |
| DataReader.ReadConsumesPending | CouchbaseDbConnection/CouchbaseDbDataReader.cs:231-251 | a true read exposes the first pending row and leaves the rest pending; a false read happens only with nothing pending |
| DataReader.ReadAll | CouchbaseDbConnection/CouchbaseDbDataReader.cs:231-251 | reading until false shows the preloaded current (if not yet reported) followed by every remaining delivered row, in order; a fetch failure ends the rows |
| Parameters.Add | CouchbaseDbConnection/CouchbaseDbParameterCollection.cs:13-21 | a parameter is appended and its index, the old length, is returned; any other object is rejected |
| Parameters.Contains | CouchbaseDbConnection/CouchbaseDbParameterCollection.cs:33-40 | true exactly when this parameter is in the collection; any other object is rejected |
| Parameters.IndexOf | CouchbaseDbConnection/CouchbaseDbParameterCollection.cs:42-49 | the first position of this parameter, or -1 exactly when absent; any other object is rejected |
| Parameters.SetAt | CouchbaseDbConnection/CouchbaseDbParameterCollection.cs:71-78 | an index outside the list fails; otherwise only that slot changes and the length is kept |
| Parameters.SetNamed | CouchbaseDbConnection/CouchbaseDbParameterCollection.cs:80-92 | no parameter with that name fails; otherwise exactly the first one with that name is replaced |
| Parameters.GetAt | CouchbaseDbConnection/CouchbaseDbParameterCollection.cs:119-126 | the parameter in that slot, or failure exactly when the index is outside the list |
| Parameters.GetNamed | CouchbaseDbConnection/CouchbaseDbParameterCollection.cs:128-136 | the first parameter with that name, or failure exactly when there is none |
| Parameters.Enumerate | CouchbaseDbConnection/CouchbaseDbParameterCollection.cs:114-117 | enumeration yields every stored parameter, in slot order, each as indexed access reads it |
| Parameters.AddThenGet | CouchbaseDbConnection/CouchbaseDbParameterCollection.cs:13-18 | reading at the index `Add` returned gives the added parameter; earlier slots read as before |
| Parameters.EnumeratesInInsertionOrder | CouchbaseDbConnection/CouchbaseDbParameterCollection.cs:114-117 | after adding parameters one by one, enumeration yields the earlier ones followed by the added ones, in order |
| Parameters.ContainsIffIndexOf | CouchbaseDbConnection/CouchbaseDbParameterCollection.cs:33-49 | `Contains` holds exactly when `IndexOf` is non-negative, and both reject the same arguments |
| Parameters.SetAtThenGetAt | CouchbaseDbConnection/CouchbaseDbParameterCollection.cs:71-78 | reading back a replaced slot gives the new parameter |
| Parameters.SetNamedThenGetNamed | CouchbaseDbConnection/CouchbaseDbParameterCollection.cs:80-92 | after replacing by name with a same-named parameter, lookup by that name finds the new parameter |
| Connection.State | CouchbaseDbConnection/CouchbaseDbConnection.cs:43 | the state is always Open |
| Connection.OpenConnection | CouchbaseDbConnection/CouchbaseDbConnection.cs:35-38 | opening changes nothing and the state is Open |
| Connection.CloseConnection | CouchbaseDbConnection/CouchbaseDbConnection.cs:30-33 | closing changes nothing and the state stays Open |
| Connection.BindParameters | CouchbaseDbConnection/CouchbaseDbConnection.cs:60-67 | one (name, value) binding per parameter, in enumeration order; none for a null collection |
| Connection.SqlPlusPlusCommand | CouchbaseDbConnection/CouchbaseDbConnection.cs:57-71 | the engine gets the text verbatim with the collection's bindings; its mutation count is returned unchanged |
| Connection.SqlPlusPlus | CouchbaseDbConnection/CouchbaseDbConnection.cs:73-87 | the engine gets the same text and the same bindings; its rows are returned unchanged |
| Command.NewCommand | CouchbaseDbConnection/CouchbaseDbCommand.cs:17-20 | a new command has an empty parameter collection and no connection |
| Command.IsOpen | CouchbaseDbConnection/CouchbaseDbCommand.cs:32 | because a connection always reports Open, the open-guard passes exactly when a connection is set, and that connection then reports Open |
| Command.CreateCommand | CouchbaseDbConnection/CouchbaseDbConnection.cs:48-55 | a created command is bound to this connection, so it passes the open-guard; its parameter collection is empty |
| Command.ToInt32 | CouchbaseDbConnection/CouchbaseDbCommand.cs:42 | the unchecked cast gives the int32 with the count's 32 bits, which is the count itself whenever it is at most `int.MaxValue` |
| Command.ExecuteNonQuery | CouchbaseDbConnection/CouchbaseDbCommand.cs:30-43 | fails with InvalidOperation exactly when the guard fails, before any query; otherwise the engine's mutation count cast to int, equal to the count when it fits |
| Command.FirstOrDefault | CouchbaseDbConnection/CouchbaseDbCommand.cs:54 | one advance: the first row, null for no rows, and a fetch failure propagates |
| Command.ScalarOf | CouchbaseDbConnection/CouchbaseDbCommand.cs:56-76 | null for no row; a primitive row as it is; for an object row, the value of a member whose name is the least name; failure exactly for a non-primitive row without member names |
| Command.ScalarIsLeastNamedMember | CouchbaseDbConnection/CouchbaseDbCommand.cs:68-76 | an object row's scalar is the value of a member whose name sorts no later than every member name |
| Command.ScalarIgnoresMemberOrder | CouchbaseDbConnection/CouchbaseDbCommand.cs:68-76 | two object rows with the same members in any order give the same scalar |
| Command.ScalarTieBreakExample | CouchbaseDbConnection/CouchbaseDbCommand.cs:66-76 | for {"b": 2, "a": 1} the scalar is 1 |
| Command.Scalar | CouchbaseDbConnection/CouchbaseDbCommand.cs:53-76 | a failing first fetch propagates, no rows give null, otherwise the scalar of the first row |
| Command.ScalarReadsOnlyFirstRow | CouchbaseDbConnection/CouchbaseDbCommand.cs:53-76 | result streams agreeing on their first advance give the same scalar, whatever follows |
| Command.ExecuteScalar | CouchbaseDbConnection/CouchbaseDbCommand.cs:51-77 | no open-guard (never InvalidOperation; a missing connection fails on use); a failing first fetch propagates; no rows give null; otherwise the first row's scalar |
| Command.ExecuteReader | CouchbaseDbConnection/CouchbaseDbCommand.cs:127-141 | fails exactly when the guard fails or the preload advance throws; otherwise a fresh reader over that same stream, advanced exactly once, keeping the given behaviour |
| Command.PendingAfterPreload | CouchbaseDbConnection/CouchbaseDbCommand.cs:134-138 | a reader fresh from the command still has every delivered row to show, or one absent row when none was delivered |
| Command.EmptyResultHasNoColumns | CouchbaseDbConnection/CouchbaseDbDataReader.cs:237-241 | on an empty result the first read still reports a row, and that row has no columns, since there is no current document to take names from |
| Command.ExecuteReaderAndReadAll | CouchbaseDbConnection/CouchbaseDbDataReader.cs:237-244 | executing a reader and reading to the end shows every delivered row in order, and a lone absent row for an empty result |

## Left out

- The Couchbase engine (`ICluster.QueryAsync`, `QueryOptions`, the network) is a function parameter
  of the connection. Its own failures are not modelled, and neither is how it treats duplicate
  parameter names or resolves `$name` placeholders.
- Async/await and `CancellationToken`: iteration is sequential. A fetch failure or a cancellation is
  a stream that fails from a given advance on. After that advance, every later advance fails too.
- Newtonsoft.Json and Dynamitey are replaced by the `Json` datatype:
  - A dynamic get on a JSON object is its indexer.
  - Dynamic member enumeration lists an object's keys and reports no names for anything else: no
    row, a primitive, a string, an array.
  - The binder quirk where `.Value` on an object with a member named "Value" returns that member is
    not modelled. Nested objects always reach the `object`/token branch.
- `ToObject` conversions:
  - An element of a kind other than the first element's is a conversion failure.
  - Newtonsoft's lenient cross-kind conversions (a numeric string to int, say) are not modelled.
  - A null inside a string array differs: `ToObject<List<string>>` keeps it as a null entry, while
    the model treats it as an element of another kind, so `["a", null]` fails with `Conversion`.
- Numbers: non-integer numbers are an opaque tag, reported as `Double`. Decimals and DateTime
  (including date-like strings Newtonsoft parses as DateTime) are not modelled.
- `OrderBy(n => n)` uses the culture-sensitive default comparer. The model uses code-point order
  (a string is a sequence of Unicode scalar values). The difference that matters most is letter
  case: for {"a": 1, "B": 2} the model's scalar is 2, because 'B' precedes 'a' by code point, while
  culture order puts "a" first and `ExecuteScalarAsync` returns 1. Code-point order also differs from
  .NET's ordinal order on UTF-16 code units for a supplementary character against U+E000–U+FFFF.
- `ExecuteScalar` result representation: on an object row the source returns the member's JToken
  (a `JValue` for a scalar member, CouchbaseDbCommand.cs:74-76), on a primitive row the raw CLR value
  (line 63). `ScalarOf` returns a `Json` in both cases, so this distinction is lost; `GetValue` keeps
  it through `CToken`.
- `ExecuteScalar` on a non-primitive row without member names (an empty object, a string, an array,
  an integer beyond 64 bits): modelled as a binder failure. Which exception the dynamic get with a
  null name raises is not modelled.
- An unset `CommandText` (C# null) is modelled as the empty string.
- `SetParameter` with a null parameter is not modelled. Parameter values are JSON values.
- Parameters are immutable values, so `Parameters.Add` stores a snapshot. In the source the
  collection holds a shared, mutable `DbParameter` whose `Value` is read when the query runs
  (CouchbaseDbConnection.cs:63-66). A change made to a parameter after `Add` is therefore seen by
  the source but cannot be expressed in the model.
- `CommandBehavior` is stored in the reader and never consulted, so it is an opaque flag value.
- Members that throw `NotImplementedException` are unsupported surface and are not modelled:
  - the typed getters, `GetOrdinal`, `IsDBNull`, `HasRows`, `Depth`;
  - sync `Read`/`Execute*`, `Cancel`, `Prepare`, `CommandTimeout`, transactions;
  - `Count`, `Insert`, `Remove*`, `Clear`, `AddRange`, `CopyTo`.
