/** The optional value used wherever the Python service returns `None`. */
module Wrappers {

  datatype Option<+T> = None | Some(value: T) {

    /** Returns the value encapsulated in Some, or a default value if None. */
    function GetOr(default: T): T
    {
      match this
      case Some(v) => v
      case None => default
    }
  }

  /** Looks a key up in a map, the way Python's `dict.get` does. */
  function Lookup<K, V>(m: map<K, V>, k: K): (r: Option<V>)
    ensures r.Some? <==> k in m
    ensures r.Some? ==> r.value == m[k]
  {
    if k in m then Some(m[k]) else None
  }
}
