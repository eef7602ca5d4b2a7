/** Named interface arguments as arguments of cells and ports (`call --interface` in cli.ts). */
module InterfaceCall {
  import opened Text

  /** A declared input: its name, and the port of a cell it is passed to. Several inputs may share a port. */
  datatype Input = Input(name: string, cell: string, port: string)

  type Arguments<V> = map<string, map<string, V>>

  /** Property names of one object. */
  predicate DistinctNames(inputs: seq<Input>) {
    forall i, j :: 0 <= i < j < |inputs| ==> inputs[i].name != inputs[j].name
  }

  function Names(inputs: seq<Input>): set<string> {
    set i | 0 <= i < |inputs| :: inputs[i].name
  }

  predicate Aliases(a: Input, b: Input) {
    a.cell == b.cell && a.port == b.port
  }

  predicate Has<V>(args: Arguments<V>, cell: string, port: string) {
    cell in args && port in args[cell]
  }

  predicate NamesIn<V>(inputs: seq<Input>, raw: map<string, V>) {
    forall i :: 0 <= i < |inputs| ==> inputs[i].name in raw
  }

  /** Inputs that share a port carry values with one canonical text. */
  ghost predicate Agree<V>(canon: V -> string, inputs: seq<Input>, raw: map<string, V>)
    requires NamesIn(inputs, raw)
  {
    forall i, j :: 0 <= i < j < |inputs| && Aliases(inputs[i], inputs[j]) ==>
      canon(raw[inputs[i].name]) == canon(raw[inputs[j].name])
  }

  /** The port of input i holds its value, up to the canonical text. */
  predicate Carries<V>(canon: V -> string, i: Input, raw: map<string, V>, args: Arguments<V>) {
    && i.name in raw
    && Has(args, i.cell, i.port)
    && canon(args[i.cell][i.port]) == canon(raw[i.name])
  }

  predicate Targets(inputs: seq<Input>, cell: string, port: string) {
    exists i :: 0 <= i < |inputs| && inputs[i].cell == cell && inputs[i].port == port
  }

  /** The arguments hold every input, and nothing else: no other port and no cell without ports. */
  ghost predicate Binds<V>(canon: V -> string, inputs: seq<Input>, raw: map<string, V>, args: Arguments<V>) {
    && (forall i :: 0 <= i < |inputs| ==> Carries(canon, inputs[i], raw, args))
    && (forall cell, port :: Has(args, cell, port) ==> Targets(inputs, cell, port))
    && (forall cell :: cell in args ==> args[cell] != map[])
  }

  lemma {:induction false} NamesCount(inputs: seq<Input>)
    requires DistinctNames(inputs)
    ensures |Names(inputs)| == |inputs|
  {
    if inputs != [] {
      var n := |inputs| - 1;
      var front := inputs[..n];
      NamesCount(front);
      assert Names(inputs) == Names(front) + {inputs[n].name};
      assert inputs[n].name !in Names(front);
    }
  }

  /** Equal numbers of names, and every supplied one declared, are the same names. */
  lemma SameNames<V>(inputs: seq<Input>, raw: map<string, V>)
    requires DistinctNames(inputs)
    ensures |raw| == |inputs| && raw.Keys <= Names(inputs) <==> raw.Keys == Names(inputs)
  {
    NamesCount(inputs);
    assert |raw| == |raw.Keys|;
    if |raw| == |inputs| && raw.Keys <= Names(inputs) {
      assert Names(inputs) == raw.Keys + (Names(inputs) - raw.Keys);
    }
  }

  /** `ports[port] = value`, in a cell that is there or is made. */
  function Put<V>(args: Arguments<V>, i: Input, value: V): Arguments<V> {
    args[i.cell := (if i.cell in args then args[i.cell] else map[])[i.port := value]]
  }

  lemma PutHas<V>(args: Arguments<V>, i: Input, value: V, cell: string, port: string)
    ensures Has(Put(args, i, value), cell, port) <==> Has(args, cell, port) || (cell == i.cell && port == i.port)
    ensures Has(Put(args, i, value), i.cell, i.port) && Put(args, i, value)[i.cell][i.port] == value
    ensures Has(args, cell, port) && !(cell == i.cell && port == i.port) ==>
              Put(args, i, value)[cell][port] == args[cell][port]
  {
  }

  predicate Conflicts<V>(canon: V -> string, args: Arguments<V>, i: Input, value: V) {
    Has(args, i.cell, i.port) && canon(args[i.cell][i.port]) != canon(value)
  }

  lemma BindsStep<V>(canon: V -> string, inputs: seq<Input>, raw: map<string, V>, args: Arguments<V>, i: Input)
    requires Binds(canon, inputs, raw, args) && i.name in raw && !Conflicts(canon, args, i, raw[i.name])
    ensures Binds(canon, inputs + [i], raw, Put(args, i, raw[i.name]))
  {
    var all, next := inputs + [i], Put(args, i, raw[i.name]);
    forall k | 0 <= k < |all|
      ensures Carries(canon, all[k], raw, next)
    {
      PutHas(args, i, raw[i.name], all[k].cell, all[k].port);
      if k < |inputs| {
        assert all[k] == inputs[k];
        assert Carries(canon, inputs[k], raw, args);
      }
    }
    forall cell, port | Has(next, cell, port)
      ensures Targets(all, cell, port)
    {
      PutHas(args, i, raw[i.name], cell, port);
      if Has(args, cell, port) {
        assert Targets(inputs, cell, port);
        var k :| 0 <= k < |inputs| && inputs[k].cell == cell && inputs[k].port == port;
        assert all[k] == inputs[k];
      } else {
        assert all[|inputs|] == i;
      }
    }
    forall cell | cell in next
      ensures next[cell] != map[]
    {
      if cell == i.cell {
        assert i.port in next[cell];
      }
    }
  }

  /** Where the new value conflicts, some earlier input of the same port has another canonical text. */
  lemma ConflictIsDisagreement<V>(canon: V -> string, inputs: seq<Input>, n: nat, raw: map<string, V>,
                                  args: Arguments<V>)
    requires n < |inputs| && NamesIn(inputs, raw)
    requires Binds(canon, inputs[..n], raw, args) && Conflicts(canon, args, inputs[n], raw[inputs[n].name])
    ensures !Agree(canon, inputs, raw)
  {
    var i := inputs[n];
    assert Targets(inputs[..n], i.cell, i.port);
    var k :| 0 <= k < n && inputs[..n][k].cell == i.cell && inputs[..n][k].port == i.port;
    assert Carries(canon, inputs[..n][k], raw, args);
    assert Aliases(inputs[k], inputs[n]);
  }

  lemma BoundAgree<V>(canon: V -> string, inputs: seq<Input>, raw: map<string, V>, args: Arguments<V>)
    requires Binds(canon, inputs, raw, args) && NamesIn(inputs, raw)
    ensures Agree(canon, inputs, raw)
  {
    forall i, j | 0 <= i < j < |inputs| && Aliases(inputs[i], inputs[j])
      ensures canon(raw[inputs[i].name]) == canon(raw[inputs[j].name])
    {
      assert Carries(canon, inputs[i], raw, args) && Carries(canon, inputs[j], raw, args);
    }
  }

  /** The names are exactly the declared ones, and inputs that share a port agree. */
  ghost predicate Admissible<V>(canon: V -> string, inputs: seq<Input>, raw: map<string, V>) {
    raw.Keys == Names(inputs) && NamesIn(inputs, raw) && Agree(canon, inputs, raw)
  }

  method ExactNames<V>(inputs: seq<Input>, raw: map<string, V>) returns (same: bool)
    requires DistinctNames(inputs)
    ensures same <==> raw.Keys == Names(inputs)
    ensures same ==> NamesIn(inputs, raw)
  {
    SameNames(inputs, raw);
    same := |raw| == |inputs| && !exists name | name in raw.Keys :: name !in Names(inputs);
    if same {
      forall i | 0 <= i < |inputs|
        ensures inputs[i].name in raw
      {
        assert inputs[i].name in Names(inputs);
      }
    }
  }

  method BindOne<V>(canon: V -> string, inputs: seq<Input>, n: nat, raw: map<string, V>, args: Arguments<V>)
    returns (next: Option<Arguments<V>>)
    requires n < |inputs| && NamesIn(inputs, raw) && Binds(canon, inputs[..n], raw, args)
    ensures next.Some? ==> Binds(canon, inputs[..n + 1], raw, next.value)
    ensures next.None? ==> !Agree(canon, inputs, raw)
  {
    var i := inputs[n];
    if Conflicts(canon, args, i, raw[i.name]) {
      ConflictIsDisagreement(canon, inputs, n, raw, args);
      return None;
    }
    BindsStep(canon, inputs[..n], raw, args, i);
    assert inputs[..n] + [i] == inputs[..n + 1];
    next := Some(Put(args, i, raw[i.name]));
  }

  method BindAll<V>(canon: V -> string, inputs: seq<Input>, raw: map<string, V>) returns (args: Option<Arguments<V>>)
    requires NamesIn(inputs, raw)
    ensures args.Some? <==> Agree(canon, inputs, raw)
    ensures args.Some? ==> Binds(canon, inputs, raw, args.value)
  {
    var bound: Arguments<V>, n := map[], 0;
    while n < |inputs|
      invariant n <= |inputs|
      invariant Binds(canon, inputs[..n], raw, bound)
    {
      var next := BindOne(canon, inputs, n, raw, bound);
      if next.None? {
        return None;
      }
      bound, n := next.value, n + 1;
    }
    assert inputs[..n] == inputs;
    BoundAgree(canon, inputs, raw, bound);
    args := Some(bound);
  }

  /**
   * The call goes on exactly when the supplied names are the declared ones and inputs that share a port agree; its
   * arguments then hold every input and nothing else.
   */
  method BindInterface<V>(canon: V -> string, inputs: seq<Input>, raw: map<string, V>) returns (r: Result<Arguments<V>>)
    requires DistinctNames(inputs)
    ensures r.Ok? <==> Admissible(canon, inputs, raw)
    ensures r.Ok? ==> Binds(canon, inputs, raw, r.value)
  {
    var named := ExactNames(inputs, raw);
    if !named {
      return Err("call --interface requires exactly the declared input names");
    }
    var args := BindAll(canon, inputs, raw);
    if args.None? {
      return Err("call --interface aliases contain conflicting arguments");
    }
    r := Ok(args.value);
  }

  // ----- the arguments do not depend on the order of the declaration -----

  predicate SameAt<V>(canon: V -> string, a: Arguments<V>, b: Arguments<V>, cell: string, port: string) {
    && (Has(a, cell, port) <==> Has(b, cell, port))
    && (Has(a, cell, port) ==> canon(a[cell][port]) == canon(b[cell][port]))
  }

  /** The same cells with the same ports, and values of one canonical text. */
  ghost predicate SameArguments<V>(canon: V -> string, a: Arguments<V>, b: Arguments<V>) {
    a.Keys == b.Keys && forall cell, port :: SameAt(canon, a, b, cell, port)
  }

  predicate SameInputs(a: seq<Input>, b: seq<Input>) {
    (forall i :: i in a ==> i in b) && (forall i :: i in b ==> i in a)
  }

  /** No cell is without ports, so the same ports are in the same cells. */
  lemma SameCells<V>(canon: V -> string, inputs: seq<Input>, others: seq<Input>, raw: map<string, V>,
                     a: Arguments<V>, b: Arguments<V>)
    requires Binds(canon, inputs, raw, a) && Binds(canon, others, raw, b)
    requires forall cell, port :: SameAt(canon, a, b, cell, port)
    ensures a.Keys == b.Keys
  {
    forall cell | cell in a
      ensures cell in b
    {
      var port :| port in a[cell];
      assert SameAt(canon, a, b, cell, port);
      assert Has(a, cell, port);
    }
    forall cell | cell in b
      ensures cell in a
    {
      var port :| port in b[cell];
      assert SameAt(canon, a, b, cell, port);
      assert Has(b, cell, port);
    }
  }

  lemma OneWay<V>(canon: V -> string, inputs: seq<Input>, others: seq<Input>, raw: map<string, V>,
                  a: Arguments<V>, b: Arguments<V>, cell: string, port: string)
    requires SameInputs(inputs, others)
    requires Binds(canon, inputs, raw, a) && Binds(canon, others, raw, b) && Has(a, cell, port)
    ensures Has(b, cell, port) && canon(a[cell][port]) == canon(b[cell][port])
  {
    assert Targets(inputs, cell, port);
    var k :| 0 <= k < |inputs| && inputs[k].cell == cell && inputs[k].port == port;
    assert Carries(canon, inputs[k], raw, a);
    assert inputs[k] in inputs;
    var j :| 0 <= j < |others| && others[j] == inputs[k];
    assert Carries(canon, others[j], raw, b);
  }

  /** Arguments that hold the same inputs, declared in whatever order, are the same up to canonical texts. */
  lemma BindingIsUnique<V>(canon: V -> string, inputs: seq<Input>, others: seq<Input>, raw: map<string, V>,
                           a: Arguments<V>, b: Arguments<V>)
    requires SameInputs(inputs, others)
    requires Binds(canon, inputs, raw, a) && Binds(canon, others, raw, b)
    ensures SameArguments(canon, a, b)
  {
    forall cell, port
      ensures SameAt(canon, a, b, cell, port)
    {
      if Has(a, cell, port) {
        OneWay(canon, inputs, others, raw, a, b, cell, port);
      } else if Has(b, cell, port) {
        OneWay(canon, others, inputs, raw, b, a, cell, port);
      }
    }
    SameCells(canon, inputs, others, raw, a, b);
  }
}
