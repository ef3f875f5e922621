/** The values pages carry: JSON-shaped static data, and object references for the places
    where the client's hot-reload logic depends on identity rather than contents. */
module Values {

  /** A JSON value, or `undefined`, which a page without static data carries. Objects
      compare by their set of properties, not their order, which is how `dequal` compares
      two objects. Numbers are kept integral. */
  datatype Json =
    | JUndefined
    | JNull
    | JBool(b: bool)
    | JNum(n: int)
    | JStr(s: string)
    | JArr(items: seq<Json>)
    | JObj(fields: map<string, Json>)

  /** JavaScript truthiness: `undefined`, `null`, `false`, `0` and `""` are falsy, every
      other value, including every object and array, is truthy. */
  predicate Truthy(v: Json) {
    !(v.JUndefined? || v.JNull? || v == JBool(false) || v == JNum(0) || v == JStr(""))
  }

  /** An object reference: `addr` is its identity, `val` its current contents. Two
      references are the same object when they are equal as values of this type. */
  datatype Ref<T> = Ref(addr: nat, val: T)

  /** `dequal(a, b)`: structural equality of the referenced contents, whatever the identities. */
  predicate DeepEqual<T(==)>(a: Ref<T>, b: Ref<T>) {
    a.val == b.val
  }
}
