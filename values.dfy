/**
 * The values a log record holds once its JSON line is decoded: the JSON value
 * shapes (integers only for numbers), plus the timestamp the extractor attaches
 * under `Datetime`. An object is an insertion-ordered list of key/value
 * entries, as a Python dict keeps them.
 */
module Values {
  import opened Wrappers
  import opened Timestamp

  datatype Value =
    | Null
    | Bool(b: bool)
    | Int(i: int)
    | Str(s: string)
    | List(items: seq<Value>)
    | Dict(entries: seq<(string, Value)>)
    /** A parsed timestamp; `Time(None)` is NaT. Never produced by the JSON decoder. */
    | Time(t: Option<DateTime>)

  type Entries = seq<(string, Value)>

  function KeySet(e: Entries): set<string> {
    set i | 0 <= i < |e| :: e[i].0
  }

  lemma KeySetCons(x: (string, Value), e: Entries)
    ensures KeySet([x] + e) == {x.0} + KeySet(e)
  {
    var c := [x] + e;
    assert c[0] == x;
    forall k | k in KeySet(e) ensures k in KeySet(c) {
      var i :| 0 <= i < |e| && e[i].0 == k;
      assert c[i + 1] == e[i];
    }
    forall k | k in KeySet(c) ensures k in {x.0} + KeySet(e) {
      var i :| 0 <= i < |c| && c[i].0 == k;
      if i > 0 { assert c[i] == e[i - 1]; }
    }
  }

  /** Python dict keys are unique. */
  predicate UniqueKeys(e: Entries) {
    forall i, j :: 0 <= i < j < |e| ==> e[i].0 != e[j].0
  }

  /** `d.get(k)`: the value of the first entry with key k. */
  function Lookup(e: Entries, k: string): (r: Option<Value>)
    ensures r.Some? <==> k in KeySet(e)
  {
    if e == [] then None
    else if e[0].0 == k then Some(e[0].1)
    else
      KeySetCons(e[0], e[1..]);
      assert [e[0]] + e[1..] == e;
      Lookup(e[1..], k)
  }

  /** The value found for k is one the entries hold under k. */
  lemma {:induction false} LookupFound(e: Entries, k: string)
    requires k in KeySet(e)
    ensures (k, Lookup(e, k).value) in e
  {
    if e[0].0 != k {
      KeySetCons(e[0], e[1..]);
      assert [e[0]] + e[1..] == e;
      LookupFound(e[1..], k);
    }
  }

  /**
   * `d[k] = v`: an existing key keeps its position and takes the new value;
   * a new key is appended at the end.
   */
  function SetKey(e: Entries, k: string, v: Value): (r: Entries)
    ensures Lookup(r, k) == Some(v)
    ensures forall k' :: k' != k ==> Lookup(r, k') == Lookup(e, k')
    ensures KeySet(r) == KeySet(e) + {k}
    ensures k in KeySet(e) ==> |r| == |e| && forall i :: 0 <= i < |e| ==> r[i].0 == e[i].0
    ensures k !in KeySet(e) ==> r == e + [(k, v)]
  {
    if e == [] then [(k, v)]
    else if e[0].0 == k then
      KeySetCons(e[0], e[1..]);
      KeySetCons((k, v), e[1..]);
      assert [e[0]] + e[1..] == e;
      [(k, v)] + e[1..]
    else
      var rest := SetKey(e[1..], k, v);
      KeySetCons(e[0], e[1..]);
      KeySetCons(e[0], rest);
      assert [e[0]] + e[1..] == e;
      assert ([e[0]] + rest)[1..] == rest;
      [e[0]] + rest
  }

  /** Setting a key of an object with unique keys leaves its keys unique. */
  lemma SetKeyKeepsUnique(e: Entries, k: string, v: Value)
    requires UniqueKeys(e)
    ensures UniqueKeys(SetKey(e, k, v))
  {
    var r := SetKey(e, k, v);
    if k in KeySet(e) {
      forall i, j | 0 <= i < j < |r| ensures r[i].0 != r[j].0 {
        assert r[i].0 == e[i].0 && r[j].0 == e[j].0;
      }
    } else {
      forall i, j | 0 <= i < j < |r| ensures r[i].0 != r[j].0 {
        if j == |e| {
          assert r[i] == e[i] && r[j].0 == k;
        } else {
          assert r[i] == e[i] && r[j] == e[j];
        }
      }
    }
  }

}
