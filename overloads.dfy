/** Which public `sort` overload of `warp_sort_shuffle` a call selects.
    Every parameter is a reference to one of the class's types except the
    comparator, a deduced template parameter that accepts any argument.
    The arguments are told apart by their type; Key, Value, the storage
    type and the comparator's type are taken to be distinct. */
module Overloads {

  datatype Option<T> = None | Some(value: T)

  /** A declared parameter: `Key&`, `Value&`, `storage_type&`, or the
      deduced `BinaryFunction`. */
  datatype Param = KeyParam | ValueParam | StorageParam | Deduced

  /** The type of an argument at a call site. */
  datatype Arg = KeyArg | ValueArg | StorageArg | FunctionArg

  /** The four public member templates named `sort`; the two key-value
      overloads for small and large values share one parameter list and
      differ only in their `enable_if` on `sizeof(Value)`. */
  datatype Overload = SortKey | SortKeyStorage | SortKeyValue | SortKeyValueStorage

  function Params(o: Overload): seq<Param>
  {
    match o
    case SortKey => [KeyParam, Deduced]
    case SortKeyStorage => [KeyParam, StorageParam, Deduced]
    case SortKeyValue => [KeyParam, ValueParam, Deduced]
    case SortKeyValueStorage => [KeyParam, ValueParam, StorageParam, Deduced]
  }

  const AllOverloads: seq<Overload> := [SortKey, SortKeyStorage, SortKeyValue, SortKeyValueStorage]

  lemma AllListed()
    ensures forall o :: o in AllOverloads
  {
    forall o ensures o in AllOverloads {
      match o
      case SortKey => assert AllOverloads[0] == o;
      case SortKeyStorage => assert AllOverloads[1] == o;
      case SortKeyValue => assert AllOverloads[2] == o;
      case SortKeyValueStorage => assert AllOverloads[3] == o;
    }
  }

  predicate Binds(p: Param, a: Arg)
  {
    match p
    case KeyParam => a == KeyArg
    case ValueParam => a == ValueArg
    case StorageParam => a == StorageArg
    case Deduced => true
  }

  /** The overload can be called with these arguments. */
  predicate Viable(o: Overload, args: seq<Arg>)
  {
    |Params(o)| == |args| && forall i :: 0 <= i < |args| ==> Binds(Params(o)[i], args[i])
  }

  function ViableIn(cands: seq<Overload>, args: seq<Arg>): (r: seq<Overload>)
    ensures forall o :: o in r <==> o in cands && Viable(o, args)
  {
    if cands == [] then []
    else (if Viable(cands[0], args) then [cands[0]] else []) + ViableIn(cands[1..], args)
  }

  /** The selected overload: the single viable one, or none when no
      overload (or more than one) is viable. */
  function Resolve(args: seq<Arg>): (r: Option<Overload>)
    ensures r.Some? ==> Viable(r.value, args) && forall o :: Viable(o, args) ==> o == r.value
    ensures (forall o :: !Viable(o, args)) ==> r == None
  {
    var v := ViableIn(AllOverloads, args);
    AllListed();
    if |v| == 1 then Some(v[0]) else None
  }

  /** The forwarding call of the key-only storage overload (line 153): key, then comparator. */
  const KeyStorageForward: seq<Arg> := [KeyArg, FunctionArg]

  /** The forwarding call of the key-value storage overload as written
      (line 183): comparator first, then key and value. */
  const KeyValueStorageForward: seq<Arg> := [FunctionArg, KeyArg, ValueArg]

  /** The forwarding call that overload evidently means: key, value, comparator. */
  const KeyValueStorageForwardIntended: seq<Arg> := [KeyArg, ValueArg, FunctionArg]

  lemma KeyStorageForwardResolves()
    ensures Resolve(KeyStorageForward) == Some(SortKey)
  {
    assert Viable(SortKey, KeyStorageForward);
  }

  /** No overload accepts the comparator first: an instantiation of the
      key-value storage overload does not compile. */
  lemma KeyValueStorageForwardUnresolved()
    ensures forall o :: !Viable(o, KeyValueStorageForward)
    ensures Resolve(KeyValueStorageForward) == None
  {
    forall o ensures !Viable(o, KeyValueStorageForward) {
      if |Params(o)| == 3 {
        assert !Binds(Params(o)[0], KeyValueStorageForward[0]);
      }
    }
  }

  lemma KeyValueStorageForwardIntendedResolves()
    ensures Resolve(KeyValueStorageForwardIntended) == Some(SortKeyValue)
  {
    assert Viable(SortKeyValue, KeyValueStorageForwardIntended);
    assert !Binds(Params(SortKeyStorage)[1], KeyValueStorageForwardIntended[1]);
  }
}
