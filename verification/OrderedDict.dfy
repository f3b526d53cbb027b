/** A dictionary that remembers insertion order, as both languages' do. */
module OrderedDict {
  datatype Dict<V> = Dict(keys: seq<string>, at: map<string, V>)

  ghost predicate IsDict<V>(d: Dict<V>) {
    && (forall i, j | 0 <= i < j < |d.keys| :: d.keys[i] != d.keys[j])
    && (forall k :: k in d.keys <==> k in d.at)
  }

  /** Assignment: a present key keeps its place, a new one goes last. */
  function Put<V>(d: Dict<V>, k: string, v: V): (n: Dict<V>)
    ensures n.at == d.at[k := v]
    ensures k in d.at ==> n.keys == d.keys
    ensures k !in d.at ==> n.keys == d.keys + [k]
  {
    Dict(if k in d.at then d.keys else d.keys + [k], d.at[k := v])
  }

  lemma PutIsDict<V>(d: Dict<V>, k: string, v: V)
    requires IsDict(d)
    ensures IsDict(Put(d, k, v))
  {
  }

  /** Nothing moved, changed or went; there may be more at the end. */
  ghost predicate Extends<V>(d: Dict<V>, n: Dict<V>) {
    d.keys <= n.keys && forall k | k in d.at :: k in n.at && n.at[k] == d.at[k]
  }

  lemma PutExtends<V>(d: Dict<V>, k: string, v: V)
    requires k !in d.at || d.at[k] == v
    ensures Extends(d, Put(d, k, v))
  {
  }

  lemma ExtendsTransitive<V>(a: Dict<V>, b: Dict<V>, c: Dict<V>)
    requires Extends(a, b) && Extends(b, c)
    ensures Extends(a, c)
  {
  }
}
