/** std::map<std::string, V> as the sequence of its entries in key order,
    which is the order a range-for visits them. */
module OrderedMap {
  import opened Wrappers
  import opened Text

  datatype Entry<V> = Entry(key: string, value: V)

  /** Keys strictly ascending, hence unique. */
  ghost predicate Ascending<V>(m: seq<Entry<V>>)
  {
    forall i, j :: 0 <= i < j < |m| ==> LexLess(m[i].key, m[j].key)
  }

  function Keys<V>(m: seq<Entry<V>>): set<string>
  {
    if |m| == 0 then {} else {m[0].key} + Keys(m[1..])
  }

  /** Every key of m comes after bound. */
  ghost predicate AllAfter<V>(bound: string, m: seq<Entry<V>>)
  {
    forall j :: 0 <= j < |m| ==> LexLess(bound, m[j].key)
  }

  /** find(key). */
  function Get<V>(m: seq<Entry<V>>, key: string): (r: Option<V>)
    ensures r.Some? <==> key in Keys(m)
  {
    if |m| == 0 then None
    else if m[0].key == key then Some(m[0].value)
    else Get(m[1..], key)
  }

  /** operator[] followed by an assignment: insert the key in order, or
      overwrite its value. */
  function Put<V>(m: seq<Entry<V>>, key: string, value: V): seq<Entry<V>>
  {
    if |m| == 0 then [Entry(key, value)]
    else if m[0].key == key then [Entry(key, value)] + m[1..]
    else if LexLess(key, m[0].key) then [Entry(key, value)] + m
    else [m[0]] + Put(m[1..], key, value)
  }

  lemma {:induction false} PutKeys<V>(m: seq<Entry<V>>, key: string, value: V)
    ensures Keys(Put(m, key, value)) == Keys(m) + {key}
  {
    if |m| > 0 {
      if m[0].key == key {
        assert Put(m, key, value)[1..] == m[1..];
      } else if LexLess(key, m[0].key) {
        assert Put(m, key, value)[1..] == m;
      } else {
        PutKeys(m[1..], key, value);
        assert Put(m, key, value)[1..] == Put(m[1..], key, value);
      }
    }
  }

  lemma {:induction false} PutAfter<V>(bound: string, m: seq<Entry<V>>, key: string, value: V)
    requires AllAfter(bound, m) && LexLess(bound, key)
    ensures AllAfter(bound, Put(m, key, value))
  {
    if |m| > 0 && m[0].key != key && !LexLess(key, m[0].key) {
      PutAfter(bound, m[1..], key, value);
      assert Put(m, key, value)[1..] == Put(m[1..], key, value);
    }
  }

  /** Inserting keeps the entries in key order. */
  lemma {:induction false} PutAscending<V>(m: seq<Entry<V>>, key: string, value: V)
    requires Ascending(m)
    ensures Ascending(Put(m, key, value))
  {
    if |m| > 0 {
      var p := Put(m, key, value);
      if m[0].key == key {
      } else if LexLess(key, m[0].key) {
        forall j | 1 <= j < |p|
          ensures LexLess(key, p[j].key)
        {
          if j > 1 {
            LexLessTransitive(key, m[0].key, m[j - 1].key);
          }
        }
      } else {
        LexLessTotal(key, m[0].key);
        PutAscending(m[1..], key, value);
        PutAfter(m[0].key, m[1..], key, value);
        assert p == [m[0]] + Put(m[1..], key, value);
      }
    }
  }

  /** After Put the key maps to the new value, and every other key keeps its
      old value or absence. */
  lemma {:induction false} GetPut<V>(m: seq<Entry<V>>, key: string, value: V, other: string)
    requires Ascending(m)
    ensures Get(Put(m, key, value), key) == Some(value)
    ensures other != key ==> Get(Put(m, key, value), other) == Get(m, other)
  {
    if |m| > 0 {
      if m[0].key == key {
        assert Put(m, key, value)[1..] == m[1..];
      } else if LexLess(key, m[0].key) {
        assert Put(m, key, value)[1..] == m;
      } else {
        GetPut(m[1..], key, value, other);
        assert Put(m, key, value)[1..] == Put(m[1..], key, value);
      }
    }
  }
}
