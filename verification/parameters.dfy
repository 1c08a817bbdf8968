/** The command's parameter collection: an ordered list with positional and by-name access. */
module Parameters {
  import opened Results
  import opened Json
  import Lists

  /** A DbParameter. `id` stands for object identity: two distinct parameter objects have distinct ids. */
  datatype Parameter = Parameter(id: nat, name: string, value: Json)

  /** The `object` argument of Add, Contains and IndexOf: a DbParameter or some other object. */
  datatype Boxed = IsParameter(parameter: Parameter) | NotAParameter

  datatype ParameterCollection = ParameterCollection(items: seq<Parameter>)

  const Empty := ParameterCollection([])

  /** Position of the first parameter named `name`, or -1 (List<T>.FindIndex with a name match). */
  function FindNamed(c: ParameterCollection, name: string): int
  {
    Lists.FirstIndex(c.items, (p: Parameter) => p.name == name)
  }

  /** Add: appends a parameter and returns its index, the old length; any other object is rejected. */
  function Add(c: ParameterCollection, value: Boxed): (r: Result<(int, ParameterCollection)>)
    ensures value.NotAParameter? <==> r == Err(Argument)
    ensures r.Ok? ==> r.value.0 == |c.items| && r.value.1.items == c.items + [value.parameter]
  {
    match value
    case IsParameter(p) => Ok((|c.items|, ParameterCollection(c.items + [p])))
    case NotAParameter => Err(Argument)
  }

  /** Contains: whether this very parameter is in the collection; any other object is rejected. */
  function Contains(c: ParameterCollection, value: Boxed): (r: Result<bool>)
    ensures value.NotAParameter? <==> r == Err(Argument)
    ensures r.Ok? ==> (r.value <==> value.parameter in c.items)
  {
    match value
    case IsParameter(p) => Ok(p in c.items)
    case NotAParameter => Err(Argument)
  }

  /** IndexOf: the first position of this very parameter, or -1; any other object is rejected. */
  function IndexOf(c: ParameterCollection, value: Boxed): (r: Result<int>)
    ensures value.NotAParameter? <==> r == Err(Argument)
    ensures r.Ok? ==> -1 <= r.value < |c.items|
    ensures r.Ok? ==> (r.value == -1 <==> value.parameter !in c.items)
    ensures r.Ok? && r.value >= 0 ==>
              c.items[r.value] == value.parameter && forall j :: 0 <= j < r.value ==> c.items[j] != value.parameter
  {
    match value
    case IsParameter(p) => Ok(Lists.FirstIndex(c.items, (q: Parameter) => q == p))
    case NotAParameter => Err(Argument)
  }

  /** SetParameter by index: replaces exactly slot `index`, which must exist. */
  function SetAt(c: ParameterCollection, index: int, value: Parameter): (r: Result<ParameterCollection>)
    ensures !(0 <= index < |c.items|) <==> r == Err(IndexOutOfRange)
    ensures r.Ok? ==> |r.value.items| == |c.items| && r.value.items[index] == value
    ensures r.Ok? ==> forall j :: 0 <= j < |c.items| && j != index ==> r.value.items[j] == c.items[j]
  {
    if index < 0 || index >= |c.items| then Err(IndexOutOfRange)
    else Ok(ParameterCollection(c.items[index := value]))
  }

  /** SetParameter by name: replaces the first parameter with that name; no match is an error. */
  function SetNamed(c: ParameterCollection, name: string, value: Parameter): (r: Result<ParameterCollection>)
    ensures (forall j :: 0 <= j < |c.items| ==> c.items[j].name != name) <==> r == Err(Argument)
    ensures r.Ok? ==> |r.value.items| == |c.items|
    ensures r.Ok? ==> exists k :: 0 <= k < |c.items| && c.items[k].name == name &&
                                  (forall j :: 0 <= j < k ==> c.items[j].name != name) &&
                                  r.value.items == c.items[k := value]
  {
    var index := FindNamed(c, name);
    if index >= 0 then Ok(ParameterCollection(c.items[index := value]))
    else Err(Argument)
  }

  /** GetParameter by index: the parameter in slot `index`, which must exist. */
  function GetAt(c: ParameterCollection, index: int): (r: Result<Parameter>)
    ensures r.Ok? <==> 0 <= index < |c.items|
    ensures r.Ok? ==> r.value == c.items[index]
    ensures r.Err? ==> r.error == IndexOutOfRange
  {
    if index < 0 || index >= |c.items| then Err(IndexOutOfRange)
    else Ok(c.items[index])
  }

  /** GetParameter by name: the first parameter with that name; no match is an error. */
  function GetNamed(c: ParameterCollection, name: string): (r: Result<Parameter>)
    ensures (forall j :: 0 <= j < |c.items| ==> c.items[j].name != name) <==> r == Err(Argument)
    ensures r.Ok? ==> exists k :: 0 <= k < |c.items| && c.items[k] == r.value && r.value.name == name &&
                                  forall j :: 0 <= j < k ==> c.items[j].name != name
  {
    var index := FindNamed(c, name);
    if index >= 0 then Ok(c.items[index]) else Err(Argument)
  }

  /** GetEnumerator: the parameters, in the order they are stored, each slot as GetAt reads it. */
  function Enumerate(c: ParameterCollection): (ps: seq<Parameter>)
    ensures |ps| == |c.items|
    ensures forall i :: 0 <= i < |ps| ==> GetAt(c, i) == Ok(ps[i])
  {
    c.items
  }

  /** Adding parameter after parameter to an empty collection. */
  function AddAll(c: ParameterCollection, ps: seq<Parameter>): ParameterCollection
    decreases |ps|
  {
    if |ps| == 0 then c
    else AddAll(Add(c, IsParameter(ps[0])).value.1, ps[1..])
  }

  /** A parameter just added is found at the index Add returned, and the earlier slots are untouched. */
  lemma AddThenGet(c: ParameterCollection, p: Parameter)
    ensures var (index, c') := Add(c, IsParameter(p)).value;
            GetAt(c', index) == Ok(p) && forall j :: 0 <= j < |c.items| ==> GetAt(c', j) == GetAt(c, j)
  {
  }

  /** Enumeration yields the parameters in the order they were added. */
  lemma {:induction false} EnumeratesInInsertionOrder(c: ParameterCollection, ps: seq<Parameter>)
    ensures Enumerate(AddAll(c, ps)) == Enumerate(c) + ps
    decreases |ps|
  {
    if |ps| > 0 {
      var c1 := Add(c, IsParameter(ps[0])).value.1;
      EnumeratesInInsertionOrder(c1, ps[1..]);
      assert c1.items + ps[1..] == c.items + ps;
    }
  }

  /** Contains holds exactly when IndexOf finds a position; both reject the same arguments. */
  lemma ContainsIffIndexOf(c: ParameterCollection, value: Boxed)
    ensures Contains(c, value).Err? <==> IndexOf(c, value).Err?
    ensures Contains(c, value).Ok? ==> (Contains(c, value).value <==> IndexOf(c, value).value >= 0)
  {
  }

  /** Replacing by index and reading back by index gives the new parameter; the length is kept. */
  lemma SetAtThenGetAt(c: ParameterCollection, index: int, p: Parameter)
    requires 0 <= index < |c.items|
    ensures GetAt(SetAt(c, index, p).value, index) == Ok(p)
    ensures |SetAt(c, index, p).value.items| == |c.items|
  {
  }

  /** Replacing the first parameter named `name` by one with the same name makes it the one found by name. */
  lemma {:induction false} SetNamedThenGetNamed(c: ParameterCollection, name: string, p: Parameter)
    requires p.name == name
    requires SetNamed(c, name, p).Ok?
    ensures GetNamed(SetNamed(c, name, p).value, name) == Ok(p)
  {
    var k := FindNamed(c, name);
    var c' := SetNamed(c, name, p).value;
    assert c'.items == c.items[k := p];
    Lists.FirstIndexAt(c'.items, (q: Parameter) => q.name == name, k);
  }
}
