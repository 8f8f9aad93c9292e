/** The binding resolver: turns the binding sources of a call into layers of
    name-to-value bindings and looks keys up in them, later sources taking
    precedence over earlier ones. */
module Bindings {
  import opened Values

  /** A binding source as a caller hands it over, already classified by kind. */
  datatype Source =
    | StringMap(entries: map<string, Value>)  // a map keyed by strings
    | OtherKeyMap                            // a map whose keys are not strings
    | Struct(fields: map<string, Value>)     // a struct, by the names of its own fields
    | Pointer(target: Source)                // a non-nil pointer to a source
    | NilPointer                             // a typed nil pointer
    | NilSource                              // the untyped nil
    | NotBindable(v: Value)                  // any other value, such as the integer 1

  /** The names a source binds, or the error it raises when it is not a map
      with string keys, a struct, a non-nil pointer to one of them, or the
      untyped nil, which binds nothing. */
  function Layer(src: Source): Result<map<string, Value>>
  {
    match src
    case StringMap(m) => Ok(m)
    case Struct(f) => Ok(f)
    case Pointer(t) => Layer(t)
    case OtherKeyMap => Err(NonStringKeys)
    case NilPointer => Err(InvalidSource)
    case NilSource => Ok(map[])
    case NotBindable(_) => Err(InvalidSource)
  }

  /** The layers of the valid sources and the errors of the invalid ones,
      each in the order the sources came. */
  datatype Bound = Bound(layers: seq<map<string, Value>>, errors: seq<Error>)

  function MakeBindings(sources: seq<Source>): (b: Bound)
  {
    if sources == [] then Bound([], [])
    else
      var rest := MakeBindings(sources[1..]);
      match Layer(sources[0])
      case Ok(m) => Bound([m] + rest.layers, rest.errors)
      case Err(e) => Bound(rest.layers, [e] + rest.errors)
  }

  /** Each source contributes on its own: the bindings of a concatenation
      of source lists are the two lists' layers and errors, concatenated. */
  lemma {:induction false} MakeBindingsConcat(xs: seq<Source>, ys: seq<Source>)
    ensures MakeBindings(xs + ys) ==
      Bound(MakeBindings(xs).layers + MakeBindings(ys).layers, MakeBindings(xs).errors + MakeBindings(ys).errors)
  {
    if xs != [] {
      assert (xs + ys)[1..] == xs[1..] + ys;
      MakeBindingsConcat(xs[1..], ys);
    } else {
      assert xs + ys == ys;
    }
  }

  /** A valid source adds one layer, an invalid one adds its error. */
  lemma MakeBindingsOne(src: Source)
    ensures MakeBindings([src]) == match Layer(src)
                                   case Ok(m) => Bound([m], [])
                                   case Err(e) => Bound([], [e])
  {
    assert [src][1..] == [];
  }

  /** The call fails in strict mode exactly when some source is invalid. */
  lemma {:induction false} NoErrorsIffAllValid(sources: seq<Source>)
    ensures MakeBindings(sources).errors == [] <==> forall i | 0 <= i < |sources| :: Layer(sources[i]).Ok?
    ensures |MakeBindings(sources).layers| + |MakeBindings(sources).errors| == |sources|
  {
    if sources != [] {
      NoErrorsIffAllValid(sources[1..]);
      assert forall i | 1 <= i < |sources| :: sources[i] == sources[1..][i - 1];
    }
  }

  /** Looks a key up in the layers [0, n): the last layer that defines the
      key wins. Keys are compared exactly. */
  function GetUpTo(layers: seq<map<string, Value>>, n: nat, key: string): Option<Value>
    requires n <= |layers|
  {
    if n == 0 then None
    else if key in layers[n - 1] then Some(layers[n - 1][key])
    else GetUpTo(layers, n - 1, key)
  }

  function Get(layers: seq<map<string, Value>>, key: string): Option<Value>
  {
    GetUpTo(layers, |layers|, key)
  }

  /** The reference definition of precedence: the layers merged into one
      map, each later layer overriding the earlier ones. */
  function Merged(layers: seq<map<string, Value>>): map<string, Value>
  {
    if layers == [] then map[] else Merged(layers[..|layers| - 1]) + layers[|layers| - 1]
  }

  lemma {:induction false} GetUpToIsMerged(layers: seq<map<string, Value>>, n: nat, key: string)
    requires n <= |layers|
    ensures GetUpTo(layers, n, key) == if key in Merged(layers[..n]) then Some(Merged(layers[..n])[key]) else None
  {
    if n > 0 {
      GetUpToIsMerged(layers, n - 1, key);
      assert layers[..n][..n - 1] == layers[..n - 1];
    }
  }

  /** Lookup agrees with looking the key up in the merged map. */
  lemma GetIsMerged(layers: seq<map<string, Value>>, key: string)
    ensures Get(layers, key) == if key in Merged(layers) then Some(Merged(layers)[key]) else None
  {
    GetUpToIsMerged(layers, |layers|, key);
    assert layers[..|layers|] == layers;
  }

  /** A layer added last overrides every earlier binding of its keys and
      leaves every other key as it was. */
  lemma LaterLayerWins(layers: seq<map<string, Value>>, m: map<string, Value>, key: string)
    ensures Get(layers + [m], key) == if key in m then Some(m[key]) else Get(layers, key)
  {
    GetIsMerged(layers + [m], key);
    GetIsMerged(layers, key);
    assert (layers + [m])[..|layers|] == layers;
  }

  /** A key is found exactly when some layer defines it, and then with the
      value of the last such layer. */
  lemma {:induction false} GetFindsLastDefinition(layers: seq<map<string, Value>>, n: nat, key: string)
    requires n <= |layers|
    ensures GetUpTo(layers, n, key).Some? <==> exists i | 0 <= i < n :: key in layers[i]
    ensures GetUpTo(layers, n, key).Some? ==>
              exists i | 0 <= i < n ::
                && key in layers[i]
                && GetUpTo(layers, n, key).value == layers[i][key]
                && forall j | i < j < n :: key !in layers[j]
  {
    if n > 0 {
      GetFindsLastDefinition(layers, n - 1, key);
    }
  }

  /** Lookup in the first n layers reads nothing past them. */
  lemma {:induction false} GetUpToSamePrefix(a: seq<map<string, Value>>, b: seq<map<string, Value>>, n: nat, key: string)
    requires n <= |a| && n <= |b| && a[..n] == b[..n]
    ensures GetUpTo(a, n, key) == GetUpTo(b, n, key)
  {
    if n > 0 {
      assert a[n - 1] == a[..n][n - 1];
      assert b[n - 1] == b[..n][n - 1];
      assert a[..n - 1] == a[..n][..n - 1];
      assert b[..n - 1] == b[..n][..n - 1];
      GetUpToSamePrefix(a, b, n - 1, key);
    }
  }

  /** A layer that binds nothing changes no lookup, wherever it stands. */
  lemma {:induction false} EmptyLayerIsInvisible(a: seq<map<string, Value>>, b: seq<map<string, Value>>, n: nat, key: string)
    requires n <= |b|
    ensures GetUpTo(a + [map[]] + b, |a| + 1 + n, key) == GetUpTo(a + b, |a| + n, key)
  {
    var x, y := a + [map[]] + b, a + b;
    if n == 0 {
      assert x[|a|] == map[];
      assert x[..|a|] == a;
      assert y[..|a|] == a;
      GetUpToSamePrefix(x, y, |a|, key);
    } else {
      assert x[|a| + n] == b[n - 1];
      assert y[|a| + n - 1] == b[n - 1];
      EmptyLayerIsInvisible(a, b, n - 1, key);
    }
  }

  lemma EmptyLayerGet(a: seq<map<string, Value>>, b: seq<map<string, Value>>, key: string)
    ensures Get(a + [map[]] + b, key) == Get(a + b, key)
  {
    EmptyLayerIsInvisible(a, b, |b|, key);
  }
}
