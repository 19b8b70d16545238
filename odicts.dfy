/**
 * Python dictionaries with string keys: the entries in insertion order, each key at most once.
 * Assigning to a present key keeps its place, assigning a new key appends it, `pop` removes it.
 */
module ODicts {

  import opened Wrappers

  type ODict<V> = seq<(string, V)>

  predicate DistinctKeys<V>(d: ODict<V>)
  {
    forall i, j :: 0 <= i < j < |d| ==> d[i].0 != d[j].0
  }

  /** The position of key `k`. */
  function Find<V>(d: ODict<V>, k: string): (r: Option<nat>)
    ensures r.Some? ==> r.value < |d| && d[r.value].0 == k
    ensures r.Some? ==> forall j :: 0 <= j < r.value ==> d[j].0 != k
    ensures r.None? ==> forall j :: 0 <= j < |d| ==> d[j].0 != k
    decreases |d|
  {
    if |d| == 0 then None
    else if d[0].0 == k then Some(0)
    else
      match Find(d[1..], k)
      case None => None
      case Some(j) => Some(j + 1)
  }

  predicate HasKey<V>(d: ODict<V>, k: string)
  {
    Find(d, k).Some?
  }

  /** `d.get(k)`. */
  function Get<V>(d: ODict<V>, k: string): (r: Option<V>)
    ensures r.Some? <==> exists j :: 0 <= j < |d| && d[j].0 == k
    ensures DistinctKeys(d) ==> forall j :: 0 <= j < |d| && d[j].0 == k ==> r == Some(d[j].1)
  {
    match Find(d, k)
    case None => None
    case Some(j) => Some(d[j].1)
  }

  /** `list(d.keys())`. */
  function Keys<V>(d: ODict<V>): (r: seq<string>)
    ensures |r| == |d| && forall i :: 0 <= i < |d| ==> r[i] == d[i].0
  {
    seq(|d|, i requires 0 <= i < |d| => d[i].0)
  }

  /** `d[k] = v`. */
  function Put<V>(d: ODict<V>, k: string, v: V): (r: ODict<V>)
    ensures Find(d, k).Some? ==> |r| == |d| && r == d[Find(d, k).value := (k, v)]
    ensures Find(d, k).None? ==> r == d + [(k, v)]
  {
    match Find(d, k)
    case None => d + [(k, v)]
    case Some(j) => d[j := (k, v)]
  }

  /** After `d[k] = v` the key reads `v`, every other key reads as before, and keys stay distinct. */
  lemma PutFacts<V>(d: ODict<V>, k: string, v: V)
    requires DistinctKeys(d)
    ensures DistinctKeys(Put(d, k, v))
    ensures Get(Put(d, k, v), k) == Some(v)
    ensures forall k' :: k' != k ==> Get(Put(d, k, v), k') == Get(d, k')
    ensures Keys(Put(d, k, v)) == if HasKey(d, k) then Keys(d) else Keys(d) + [k]
  {
    var r := Put(d, k, v);
    var i := if Find(d, k).Some? then Find(d, k).value else |d|;
    assert r[i] == (k, v);
    assert DistinctKeys(r);
    forall k' | k' != k
      ensures Get(r, k') == Get(d, k')
    {
      if Get(d, k').Some? {
        var j :| 0 <= j < |d| && d[j].0 == k';
        assert r[j] == d[j];
      }
    }
  }

  /** `d.pop(k)` for a present key: the entry is removed, the others keep their order. */
  function Pop<V>(d: ODict<V>, k: string): (r: ODict<V>)
    ensures Find(d, k).Some? ==> r == d[..Find(d, k).value] + d[Find(d, k).value + 1..]
    ensures Find(d, k).None? ==> r == d
  {
    match Find(d, k)
    case None => d
    case Some(j) => d[..j] + d[j + 1..]
  }

  lemma PopFacts<V>(d: ODict<V>, k: string)
    requires DistinctKeys(d)
    ensures DistinctKeys(Pop(d, k))
    ensures Get(Pop(d, k), k).None?
    ensures forall k' :: k' != k ==> Get(Pop(d, k), k') == Get(d, k')
  {
    if Find(d, k).Some? {
      PopShape(d, Find(d, k).value);
      forall k' | k' != k
        ensures Get(Pop(d, k), k') == Get(d, k')
      {
        PopKeepsOther(d, k, k');
      }
    }
  }

  /** Removing entry `j` shifts the later entries down by one. */
  lemma PopShape<V>(d: ODict<V>, j: nat)
    requires j < |d|
    ensures var r := d[..j] + d[j + 1..];
      |r| == |d| - 1 && forall i :: 0 <= i < |r| ==> r[i] == (if i < j then d[i] else d[i + 1])
  {
  }

  lemma PopKeepsOther<V>(d: ODict<V>, k: string, k': string)
    requires DistinctKeys(d) && Find(d, k).Some? && k' != k
    ensures Get(Pop(d, k), k') == Get(d, k')
  {
    var j := Find(d, k).value;
    if Find(d, k').Some? {
      PopKeepsPresent(d, j, Find(d, k').value);
    } else {
      PopKeepsAbsent(d, j, k');
    }
  }

  lemma PopKeepsAbsent<V>(d: ODict<V>, j: nat, k': string)
    requires j < |d| && forall i :: 0 <= i < |d| ==> d[i].0 != k'
    ensures Get(d[..j] + d[j + 1..], k').None?
  {
    PopShape(d, j);
  }

  lemma PopKeepsPresent<V>(d: ODict<V>, j: nat, i: nat)
    requires DistinctKeys(d) && j < |d| && i < |d| && i != j
    ensures Get(d[..j] + d[j + 1..], d[i].0) == Some(d[i].1)
  {
    var r := d[..j] + d[j + 1..];
    PopShape(d, j);
    var i' := if i < j then i else i - 1;
    assert r[i'] == d[i];
    assert DistinctKeys(r);
  }




  /** `d.update(e)`: the entries of `e` assigned one after the other. */
  function Update<V>(d: ODict<V>, e: ODict<V>): (r: ODict<V>)
    decreases |e|
  {
    if |e| == 0 then d else Put(Update(d, e[..|e| - 1]), e[|e| - 1].0, e[|e| - 1].1)
  }

  /** Updating with one more pair is one more assignment. */
  lemma UpdateSnoc<V>(ps: seq<(string, V)>, i: nat)
    requires i < |ps|
    ensures Update([], ps[..i + 1]) == Put(Update([], ps[..i]), ps[i].0, ps[i].1)
  {
    assert ps[..i + 1][..i] == ps[..i];
  }

  /** The value of the last pair with key `k`. */
  function LastValue<V>(ps: seq<(string, V)>, k: string): (r: Option<V>)
    decreases |ps|
  {
    if |ps| == 0 then None
    else if ps[|ps| - 1].0 == k then Some(ps[|ps| - 1].1)
    else LastValue(ps[..|ps| - 1], k)
  }

  /** A key has a last value exactly when some pair names it, and it is the value of the last such pair. */
  lemma {:induction false} LastValueIsLast<V>(ps: seq<(string, V)>, k: string)
    ensures LastValue(ps, k).Some? <==> exists j :: 0 <= j < |ps| && ps[j].0 == k
    ensures LastValue(ps, k).Some? ==> exists j :: (0 <= j < |ps| && ps[j] == (k, LastValue(ps, k).value) &&
      forall i :: j < i < |ps| ==> ps[i].0 != k)
    decreases |ps|
  {
    if |ps| > 0 && ps[|ps| - 1].0 != k {
      var init := ps[..|ps| - 1];
      LastValueIsLast(init, k);
      assert forall j :: 0 <= j < |ps| - 1 ==> init[j] == ps[j];
      if LastValue(ps, k).Some? {
        var j :| 0 <= j < |init| && init[j] == (k, LastValue(init, k).value) && forall i :: j < i < |init| ==> init[i].0 != k;
        assert ps[j] == (k, LastValue(ps, k).value);
      }
    }
  }

  /** After `d.update(e)` a key reads its value in `e` if `e` has it, and its old value otherwise. */
  lemma {:induction false} UpdateFacts<V>(d: ODict<V>, e: ODict<V>)
    requires DistinctKeys(d)
    ensures DistinctKeys(Update(d, e))
    ensures forall k :: Get(Update(d, e), k) == if LastValue(e, k).Some? then LastValue(e, k) else Get(d, k)
    decreases |e|
  {
    if |e| > 0 {
      var init := e[..|e| - 1];
      UpdateFacts(d, init);
      PutFacts(Update(d, init), e[|e| - 1].0, e[|e| - 1].1);
    }
  }

  /** A dict built by assigning pairs one after another, as `for k, v in pairs: d[k] = v`. */
  function FromPairs<V>(ps: seq<(string, V)>): (r: ODict<V>)
  {
    Update([], ps)
  }

  /** In a dict built from pairs, each key reads the value of its last pair. */
  lemma FromPairsFacts<V>(ps: seq<(string, V)>)
    ensures DistinctKeys(FromPairs(ps))
    ensures forall k :: Get(FromPairs(ps), k) == LastValue(ps, k)
  {
    UpdateFacts([], ps);
  }

  /** The keys of pairs, each once, in the order of first appearance. */
  function FirstSeen(ks: seq<string>): (r: seq<string>)
    decreases |ks|
  {
    if |ks| == 0 then []
    else
      var init := FirstSeen(ks[..|ks| - 1]);
      if ks[|ks| - 1] in init then init else init + [ks[|ks| - 1]]
  }

  function PairKeys<V>(ps: seq<(string, V)>): (r: seq<string>)
    ensures |r| == |ps| && forall i :: 0 <= i < |ps| ==> r[i] == ps[i].0
  {
    seq(|ps|, i requires 0 <= i < |ps| => ps[i].0)
  }

  /** The keys of a dict built from pairs come in the order the pairs first name them. */
  lemma {:induction false} FromPairsKeys<V>(ps: seq<(string, V)>)
    ensures Keys(FromPairs(ps)) == FirstSeen(PairKeys(ps))
    decreases |ps|
  {
    if |ps| > 0 {
      var init := ps[..|ps| - 1];
      FromPairsKeys(init);
      UpdateFacts([], init);
      PutFacts(FromPairs(init), ps[|ps| - 1].0, ps[|ps| - 1].1);
      assert PairKeys(ps)[..|ps| - 1] == PairKeys(init);
      var k := ps[|ps| - 1].0;
      assert HasKey(FromPairs(init), k) <==> k in Keys(FromPairs(init)) by {
        var d := FromPairs(init);
        if k in Keys(d) {
          var i :| 0 <= i < |d| && Keys(d)[i] == k;
          assert d[i].0 == k;
        }
      }
    }
  }

  /** Assigning one more pair to a dict built from pairs. */
  lemma FromPairsSnoc<V>(ps: seq<(string, V)>, k: string, v: V)
    ensures FromPairs(ps + [(k, v)]) == Put(FromPairs(ps), k, v)
  {
    assert (ps + [(k, v)])[..|ps|] == ps;
  }

  /** Looking a key up in a dict that starts with a given entry. */
  lemma GetCons<V>(e: (string, V), d: ODict<V>, k: string)
    ensures Get([e] + d, k) == if e.0 == k then Some(e.1) else Get(d, k)
  {
    assert ([e] + d)[1..] == d;
  }

  /** Entries that do not name a key are passed over when looking it up. */
  lemma {:induction false} FindAfter<V>(d: ODict<V>, e: ODict<V>, k: string)
    requires forall i :: 0 <= i < |d| ==> d[i].0 != k
    ensures Find(d + e, k) == match Find(e, k) case None => None case Some(j) => Some(|d| + j)
    ensures Get(d + e, k) == Get(e, k)
    decreases |d|
  {
    if |d| > 0 {
      assert (d + e)[1..] == d[1..] + e;
      FindAfter(d[1..], e, k);
    } else {
      assert d + e == e;
    }
  }

  /** In a dict whose keys are distinct, the last pair naming a key is its only one. */
  lemma LastValueOfDistinct<V>(d: ODict<V>, k: string)
    requires DistinctKeys(d)
    ensures LastValue(d, k) == Get(d, k)
  {
    LastValueIsLast(d, k);
    if LastValue(d, k).Some? {
      var j :| 0 <= j < |d| && d[j] == (k, LastValue(d, k).value) && forall i :: j < i < |d| ==> d[i].0 != k;
      assert d[j].0 == k;
    }
  }

  /** Entries appended after a dict that do not name a key leave its lookup as it was. */
  lemma {:induction false} GetBefore<V>(d: ODict<V>, e: ODict<V>, k: string)
    requires forall i :: 0 <= i < |e| ==> e[i].0 != k
    ensures Get(d + e, k) == Get(d, k)
    decreases |d|
  {
    if |d| > 0 {
      assert (d + e)[1..] == d[1..] + e;
      GetBefore(d[1..], e, k);
    } else {
      assert d + e == e;
    }
  }

  /** Two dictionaries with the same keys in the same order and the same value under each key are equal. */
  lemma EqualByGets<V>(a: ODict<V>, b: ODict<V>)
    requires DistinctKeys(a) && Keys(a) == Keys(b)
    requires forall k :: Get(a, k) == Get(b, k)
    ensures a == b
  {
    assert |a| == |b|;
    forall j | 0 <= j < |a|
      ensures a[j] == b[j]
    {
      assert Keys(a)[j] == a[j].0 && Keys(b)[j] == b[j].0;
      assert DistinctKeys(b);
      assert Get(a, a[j].0) == Some(a[j].1);
      assert Get(b, b[j].0) == Some(b[j].1);
    }
  }
}
