/** JavaScript plain objects used as string-keyed records: an ordered list of
    entries in insertion order. This is the order `Object.entries` reports
    for keys that are not array indices; such keys ("0", "200") come first
    in JavaScript, which this model does not reproduce. */
module Records {
  import opened Wrappers

  type Record<V> = seq<(string, V)>

  function Keys<V>(r: Record<V>): (ks: seq<string>)
    ensures |ks| == |r| && forall i :: 0 <= i < |r| ==> ks[i] == r[i].0
  {
    if r == [] then [] else [r[0].0] + Keys(r[1..])
  }

  lemma KeysSnoc<V>(r: Record<V>, e: (string, V))
    ensures Keys(r + [e]) == Keys(r) + [e.0]
  {
  }

  ghost predicate UniqueKeys<V>(r: Record<V>) {
    forall i, j :: 0 <= i < j < |r| ==> r[i].0 != r[j].0
  }

  /** `r[k]`, with `None` for `undefined`. */
  function Get<V>(r: Record<V>, k: string): (v: Option<V>)
    ensures v.Some? <==> k in Keys(r)
  {
    if r == [] then None
    else if r[0].0 == k then Some(r[0].1)
    else
      assert Keys(r) == [r[0].0] + Keys(r[1..]);
      Get(r[1..], k)
  }

  /** `r[k] = v`: an existing key keeps its place, a new key goes last. */
  function Set<V>(r: Record<V>, k: string, v: V): (r': Record<V>)
    ensures |r'| == if k in Keys(r) then |r| else |r| + 1
  {
    if r == [] then [(k, v)]
    else if r[0].0 == k then [(k, v)] + r[1..]
    else
      assert Keys(r) == [r[0].0] + Keys(r[1..]);
      [r[0]] + Set(r[1..], k, v)
  }

  /** After `r[k] = v`, reading `k` gives `v` and every other key reads as
      before. */
  lemma {:induction false} SetGet<V>(r: Record<V>, k: string, v: V, k': string)
    ensures Get(Set(r, k, v), k') == if k' == k then Some(v) else Get(r, k')
  {
    if r != [] && r[0].0 != k {
      SetGet(r[1..], k, v, k');
      assert Set(r, k, v)[1..] == Set(r[1..], k, v);
    } else if r != [] {
      assert Set(r, k, v)[1..] == r[1..];
    }
  }

  lemma {:induction false} SetKeysList<V>(r: Record<V>, k: string, v: V)
    ensures Keys(Set(r, k, v)) == if k in Keys(r) then Keys(r) else Keys(r) + [k]
  {
    if r != [] {
      assert Keys(r) == [r[0].0] + Keys(r[1..]);
      if r[0].0 == k {
        assert Keys([(k, v)] + r[1..]) == [k] + Keys(r[1..]);
      } else {
        var tail := Set(r[1..], k, v);
        SetKeysList(r[1..], k, v);
        assert Keys([r[0]] + tail) == [r[0].0] + Keys(tail);
      }
    }
  }

  /** `r[k] = v` appends `k` to the keys exactly when it is new, and keeps
      the keys distinct. */
  lemma SetKeys<V>(r: Record<V>, k: string, v: V)
    ensures Keys(Set(r, k, v)) == if k in Keys(r) then Keys(r) else Keys(r) + [k]
    ensures UniqueKeys(r) ==> UniqueKeys(Set(r, k, v))
  {
    SetKeysList(r, k, v);
    if UniqueKeys(r) {
      var r' := Set(r, k, v);
      var ks := Keys(r');
      forall i, j | 0 <= i < j < |r'| ensures r'[i].0 != r'[j].0 {
        assert r'[i].0 == ks[i] && r'[j].0 == ks[j];
        if j < |r| {
          assert ks[i] == r[i].0 && ks[j] == r[j].0;
        } else {
          assert ks[i] == r[i].0 && ks[j] == k;
        }
      }
    }
  }

  /** Assigning a new key appends it. */
  lemma {:induction false} SetNewKey<V>(r: Record<V>, k: string, v: V)
    requires k !in Keys(r)
    ensures Set(r, k, v) == r + [(k, v)]
  {
    if r != [] {
      assert Keys(r) == [r[0].0] + Keys(r[1..]);
      SetNewKey(r[1..], k, v);
      assert [r[0]] + (r[1..] + [(k, v)]) == r + [(k, v)];
    }
  }

  /** Reading a record with one more entry at the end: the earlier entries
      are consulted first. */
  lemma {:induction false} GetSnoc<V>(r: Record<V>, e: (string, V), k: string)
    ensures Get(r + [e], k) == if k in Keys(r) then Get(r, k) else if e.0 == k then Some(e.1) else None
  {
    if r == [] {
      assert [e][1..] == [];
    } else {
      assert Keys(r) == [r[0].0] + Keys(r[1..]);
      assert (r + [e])[0] == r[0];
      assert (r + [e])[1..] == r[1..] + [e];
      GetSnoc(r[1..], e, k);
    }
  }

  /** `{...r, ...s}`: the entries of `s` assigned onto `r`, in order. */
  function Assign<V>(r: Record<V>, s: Record<V>): (t: Record<V>)
    ensures UniqueKeys(r) ==> UniqueKeys(t)
    decreases |s|
  {
    if s == [] then r
    else
      SetKeys(r, s[0].0, s[0].1);
      Assign(Set(r, s[0].0, s[0].1), s[1..])
  }

  /** Later sources win: after `{...r, ...s}` a key of `s` has its value from
      `s`, and every other key keeps its value from `r`. */
  lemma {:induction false} AssignGet<V>(r: Record<V>, s: Record<V>, k: string)
    requires UniqueKeys(s)
    ensures Get(Assign(r, s), k) == if k in Keys(s) then Get(s, k) else Get(r, k)
    decreases |s|
  {
    if s != [] {
      assert Keys(s) == [s[0].0] + Keys(s[1..]);
      AssignGet(Set(r, s[0].0, s[0].1), s[1..], k);
      SetGet(r, s[0].0, s[0].1, k);
    }
  }
}
