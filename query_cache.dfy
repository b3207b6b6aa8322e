/**
 * Query keys and the cache operations the hooks request. A key is an array of
 * strings and plain objects; an object is compared by its defined properties, so it
 * is a map from property name to value. The cache itself is not modelled: the
 * client records which operations were requested, in order.
 */
module QueryCache {
  import opened Wrappers

  datatype JsValue = Str(s: string) | Bool(b: bool) | Num(n: int)

  /** A property of a key object read back: its value when it holds one of that kind. */
  function StrOf(m: map<string, JsValue>, name: string): Option<string> {
    if name in m && m[name].Str? then Some(m[name].s) else None
  }

  function BoolOf(m: map<string, JsValue>, name: string): Option<bool> {
    if name in m && m[name].Bool? then Some(m[name].b) else None
  }

  function NumOf(m: map<string, JsValue>, name: string): Option<int> {
    if name in m && m[name].Num? then Some(m[name].n) else None
  }

  datatype KeyPart = Atom(s: string) | Record(fields: map<string, JsValue>)

  type QueryKey = seq<KeyPart>

  /** `key` starts with `prefix`, the relation by which a filter key selects queries. */
  predicate Extends(key: QueryKey, prefix: QueryKey) {
    prefix <= key
  }

  datatype CacheOp =
    | Invalidate(key: QueryKey)
    | SetDataNull(key: QueryKey)
    | Remove(key: QueryKey)

  /** One invalidation per key, in the order of the keys. */
  function InvalidateEach(keys: seq<QueryKey>): (ops: seq<CacheOp>)
    ensures |ops| == |keys|
    ensures forall i :: 0 <= i < |keys| ==> ops[i] == Invalidate(keys[i])
  {
    if |keys| == 0 then [] else [Invalidate(keys[0])] + InvalidateEach(keys[1..])
  }

  /** The client: the cache operations requested so far, in order. */
  class QueryClient {
    var requested: seq<CacheOp>

    constructor ()
      ensures requested == []
    {
      requested := [];
    }

    /** `invalidateQueries({ queryKey })` */
    method InvalidateQueries(key: QueryKey)
      modifies this
      ensures requested == old(requested) + [Invalidate(key)]
    {
      requested := requested + [Invalidate(key)];
    }

    /** `setQueryData(key, null)` */
    method SetQueryDataNull(key: QueryKey)
      modifies this
      ensures requested == old(requested) + [SetDataNull(key)]
    {
      requested := requested + [SetDataNull(key)];
    }

    /** `removeQueries({ queryKey })` */
    method RemoveQueries(key: QueryKey)
      modifies this
      ensures requested == old(requested) + [Remove(key)]
    {
      requested := requested + [Remove(key)];
    }
  }
}
