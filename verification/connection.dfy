/**
 * The connection facade. The query engine (the cluster client) is a parameter: a function from the
 * command text and the named parameter bindings to the row stream and the mutation count.
 */
module Connection {
  import opened Results
  import opened Json
  import opened Rows
  import opened Parameters

  /** System.Data.ConnectionState. */
  datatype ConnectionState = Closed | Open | Connecting | Executing | Fetching | Broken

  type uint32 = n: int | 0 <= n < 0x1_0000_0000

  /** One named parameter as handed to the engine's query options. */
  type Binding = (string, Json)

  /** What the engine reports for a query: its rows and the metrics' mutation count. */
  datatype QueryResult = QueryResult(rows: RowStream, mutationCount: uint32)

  datatype Connection = Connection(cluster: (string, seq<Binding>) -> QueryResult)

  /** State: the cluster is assumed ready for the life of the application. */
  function State(conn: Connection): (s: ConnectionState)
    ensures s == Open
  {
    Open
  }

  /** Open is a no-op. */
  function OpenConnection(conn: Connection): (conn': Connection)
    ensures conn' == conn && State(conn') == Open
  {
    conn
  }

  /** Close is a no-op: the connection stays open. */
  function CloseConnection(conn: Connection): (conn': Connection)
    ensures conn' == conn && State(conn') == Open
  {
    conn
  }

  /** The binding for one parameter: its name and value. */
  function BindingOf(p: Parameter): Binding
  {
    (p.name, p.value)
  }

  /** The bindings for a collection: one per parameter in enumeration order; none for a null collection. */
  function Bindings(coll: Option<ParameterCollection>): seq<Binding>
  {
    match coll
    case None => []
    case Some(c) => seq(|Enumerate(c)|, i requires 0 <= i < |Enumerate(c)| => BindingOf(Enumerate(c)[i]))
  }

  /** The binding loop both query helpers run over the parameter collection. */
  method BindParameters(coll: Option<ParameterCollection>) returns (options: seq<Binding>)
    ensures coll.None? ==> options == []
    ensures coll.Some? ==> |options| == |Enumerate(coll.value)|
    ensures coll.Some? ==> forall i :: 0 <= i < |options| ==>
              options[i].0 == Enumerate(coll.value)[i].name && options[i].1 == Enumerate(coll.value)[i].value
    ensures options == Bindings(coll)
  {
    options := [];
    if coll.Some? {
      var ps := Enumerate(coll.value);
      var i := 0;
      while i < |ps|
        invariant 0 <= i <= |ps|
        invariant |options| == i
        invariant forall j :: 0 <= j < i ==> options[j] == BindingOf(ps[j])
      {
        options := options + [BindingOf(ps[i])];
        i := i + 1;
      }
    }
  }

  /** SqlPlusPlusCommandAsync: submits the text verbatim with the bindings and returns the mutation count. */
  method SqlPlusPlusCommand(conn: Connection, commandText: string, coll: Option<ParameterCollection>)
    returns (mutations: uint32)
    ensures mutations == conn.cluster(commandText, Bindings(coll)).mutationCount
  {
    var options := BindParameters(coll);
    var results := conn.cluster(commandText, options);
    mutations := results.mutationCount;
  }

  /** SqlPlusPlusAsync: submits the text verbatim with the bindings and returns the rows. */
  method SqlPlusPlus(conn: Connection, commandText: string, coll: Option<ParameterCollection>)
    returns (rows: RowStream)
    ensures rows == conn.cluster(commandText, Bindings(coll)).rows
  {
    var options := BindParameters(coll);
    var results := conn.cluster(commandText, options);
    rows := results.rows;
  }
}
