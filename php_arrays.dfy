/** The few PHP array builtins the attribute filter relies on, stated over Dafny sequences.
    A PHP list is a `seq`; a PHP array keyed by strings is an ordered map, a `seq<Entry<V>>`
    whose keys are pairwise distinct and whose order is insertion order. */
module PhpArrays {

  datatype Option<T> = None | Some(value: T)

  /** PHP's `empty()` and boolean conversion of a string: "" and "0" are both false. */
  predicate IsFalsyString(s: string) {
    s == "" || s == "0"
  }

  /** `array_search($x, $s)` on a list, with string equality: the first index holding x. */
  function IndexOf<T(==)>(s: seq<T>, x: T): (r: Option<nat>)
    ensures r.None? <==> x !in s
    ensures r.Some? ==> r.value < |s| && s[r.value] == x && x !in s[..r.value]
  {
    if |s| == 0 then None
    else if s[0] == x then Some(0)
    else match IndexOf(s[1..], x)
      case None => None
      case Some(i) =>
        assert s[..i + 1] == [s[0]] + s[1..][..i];
        Some(i + 1)
  }

  /** `unset($s[$p])` followed by `array_values()`: position p goes, the rest keep their order
      and are renumbered from 0. */
  function RemoveAt<T>(s: seq<T>, p: nat): (r: seq<T>)
    requires p < |s|
    ensures |r| == |s| - 1
    ensures forall q :: 0 <= q < p ==> r[q] == s[q]
    ensures forall q :: p <= q < |r| ==> r[q] == s[q + 1]
    ensures multiset(r) == multiset(s) - multiset{s[p]}
  {
    assert s == s[..p] + [s[p]] + s[p + 1..];
    s[..p] + s[p + 1..]
  }

  /** `implode($sep, $parts)`: the parts in order, with sep between neighbours. */
  function Implode(sep: string, parts: seq<string>): (joined: string)
    ensures |parts| == 0 ==> joined == ""
    ensures |parts| > 0 ==> parts[0] <= joined
    decreases |parts|
  {
    if |parts| == 0 then ""
    else if |parts| == 1 then parts[0]
    else Implode(sep, parts[..|parts| - 1]) + sep + parts[|parts| - 1]
  }

  function TotalLength(parts: seq<string>): nat
    decreases |parts|
  {
    if |parts| == 0 then 0 else TotalLength(parts[..|parts| - 1]) + |parts[|parts| - 1]|
  }

  /** The joined string is exactly the parts plus one separator between each neighbouring pair. */
  lemma {:induction false} ImplodeLength(sep: string, parts: seq<string>)
    ensures |Implode(sep, parts)| == TotalLength(parts) + if |parts| == 0 then 0 else |sep| * (|parts| - 1)
    decreases |parts|
  {
    var n := |parts|;
    if n > 1 {
      ImplodeLength(sep, parts[..n - 1]);
      assert |sep| * (n - 1) == |sep| * (n - 2) + |sep|;
    } else if n == 1 {
      assert TotalLength(parts) == TotalLength(parts[..0]) + |parts[0]|;
    }
  }

  /** Joining two non-empty lists is joining each and gluing the results with one separator. */
  lemma {:induction false} ImplodeConcat(sep: string, xs: seq<string>, ys: seq<string>)
    requires |xs| > 0 && |ys| > 0
    ensures Implode(sep, xs + ys) == Implode(sep, xs) + sep + Implode(sep, ys)
    decreases |ys|
  {
    var n := |ys|;
    var all := xs + ys;
    assert Implode(sep, all) == Implode(sep, all[..|all| - 1]) + sep + ys[n - 1];
    if n == 1 {
      assert all[..|all| - 1] == xs;
    } else {
      assert all[..|all| - 1] == xs + ys[..n - 1];
      ImplodeConcat(sep, xs, ys[..n - 1]);
    }
  }

  lemma ImplodeTwoColours()
    ensures Implode(", ", ["Red", "Blue"]) == "Red, Blue"
  {
    assert ["Red", "Blue"][..1] == ["Red"];
  }

  /** One entry of a PHP array keyed by strings. */
  datatype Entry<V> = Entry(key: string, val: V)

  function Keys<V>(m: seq<Entry<V>>): (ks: seq<string>)
    ensures |ks| == |m| && forall i :: 0 <= i < |m| ==> ks[i] == m[i].key
  {
    seq(|m|, i requires 0 <= i < |m| => m[i].key)
  }

  function Values<V>(m: seq<Entry<V>>): (vs: seq<V>)
    ensures |vs| == |m| && forall i :: 0 <= i < |m| ==> vs[i] == m[i].val
  {
    seq(|m|, i requires 0 <= i < |m| => m[i].val)
  }

  predicate UniqueKeys<V>(m: seq<Entry<V>>) {
    forall i, j :: 0 <= i < j < |m| ==> m[i].key != m[j].key
  }

  /** Where key k sits in the ordered map, if anywhere (`isset($m[$k])` is `.Some?`). */
  function KeyIndex<V>(m: seq<Entry<V>>, k: string): (r: Option<nat>)
    ensures r.None? <==> forall i :: 0 <= i < |m| ==> m[i].key != k
    ensures r.Some? ==> r.value < |m| && m[r.value].key == k
    ensures r.Some? && UniqueKeys(m) ==> forall i :: 0 <= i < |m| && m[i].key == k ==> i == r.value
  {
    var ks := Keys(m);
    assert forall i :: 0 <= i < |m| ==> ks[i] == m[i].key;
    IndexOf(ks, k)
  }

  /** `$m[$k] = $v`: an existing key is overwritten where it stands, a new key goes at the end. */
  function Put<V>(m: seq<Entry<V>>, k: string, v: V): (r: seq<Entry<V>>)
    requires UniqueKeys(m)
    ensures UniqueKeys(r)
    ensures KeyIndex(r, k).Some? && r[KeyIndex(r, k).value].val == v
    ensures KeyIndex(m, k).Some? ==> Keys(r) == Keys(m)
    ensures KeyIndex(m, k).None? ==> Keys(r) == Keys(m) + [k]
    ensures forall i :: 0 <= i < |m| && m[i].key != k ==> r[i] == m[i]
  {
    match KeyIndex(m, k)
      case Some(i) =>
        var r := m[i := Entry(k, v)];
        assert UniqueKeys(r) && r[i].key == k;
        r
      case None =>
        var r := m + [Entry(k, v)];
        assert UniqueKeys(r) && r[|m|].key == k;
        r
  }

  /** Assigning a key the map does not hold appends one entry at the end. */
  lemma PutNewKey<V>(m: seq<Entry<V>>, k: string, v: V)
    requires UniqueKeys(m) && KeyIndex(m, k).None?
    ensures Put(m, k, v) == m + [Entry(k, v)]
  {
  }

  /** A map with the same key sequence as a map with unique keys has unique keys, entry by entry the same. */
  lemma SameKeys<V, W>(a: seq<Entry<V>>, b: seq<Entry<W>>)
    requires Keys(a) == Keys(b) && UniqueKeys(b)
    ensures UniqueKeys(a) && forall i :: 0 <= i < |a| ==> a[i].key == b[i].key
  {
    assert forall i :: 0 <= i < |a| ==> a[i].key == Keys(a)[i] == Keys(b)[i] == b[i].key;
  }
}
