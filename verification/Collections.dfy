/** Mutable sets and insert-on-miss maps (internal/pkg/x/types/set.go, default_map.go). */
module Collections {

  /** A Go Set is a map, that is, a reference: whoever holds it sees every Add. */
  class Set<T(==)> {
    var elements: set<T>

    constructor ()
      ensures elements == {}
    {
      elements := {};
    }

    method Add(values: seq<T>)
      modifies this
      ensures elements == old(elements) + (set v | v in values)
    {
      for i := 0 to |values|
        invariant elements == old(elements) + (set v | v in values[..i])
      {
        elements := elements + {values[i]};
        assert values[..i + 1] == values[..i] + [values[i]];
      }
      assert values[..|values|] == values;
    }

    /** In no particular order. */
    method ToSlice() returns (s: seq<T>)
      ensures forall v :: v in s <==> v in elements
      ensures Distinct(s)
    {
      s := [];
      var rest := elements;
      while rest != {}
        invariant forall v :: v in elements <==> v in s || v in rest
        invariant forall v :: v in s ==> v !in rest
        invariant Distinct(s)
        decreases |rest|
      {
        var v :| v in rest;
        s := s + [v];
        rest := rest - {v};
      }
    }
  }

  ghost predicate Distinct<T>(s: seq<T>) {
    forall i, j :: 0 <= i < j < |s| ==> s[i] != s[j]
  }

  /** A DefaultMap whose values are plain values. */
  class DefaultMap<K(==), V> {
    const default: V
    var data: map<K, V>

    constructor (default: V)
      ensures this.default == default && data == map[]
    {
      this.default := default;
      data := map[];
    }

    method Get(key: K) returns (v: V)
      modifies this
      ensures key in old(data) ==> data == old(data) && v == data[key]
      ensures key !in old(data) ==> data == old(data)[key := default] && v == default
    {
      if key !in data {
        data := data[key := default];
      }
      v := data[key];
    }

    method Put(key: K, v: V)
      modifies this
      ensures data == old(data)[key := v]
    {
      data := data[key := v];
    }
  }

  /** A DefaultMap whose default function allocates a new Set. */
  class SetMap {
    var data: map<string, Set<string>>

    /** Different keys own different sets, so adding to one is not seen under another. */
    ghost predicate Valid()
      reads this
    {
      forall k, l :: k in data && l in data && k != l ==> data[k] != data[l]
    }

    ghost function Sets(): set<object>
      reads this
    {
      set k | k in data :: data[k] as object
    }

    ghost function View(): map<string, set<string>>
      reads this, Sets()
    {
      map k | k in data :: data[k].elements
    }

    constructor ()
      ensures Valid() && data == map[] && View() == map[]
    {
      data := map[];
    }

    method Get(key: string) returns (s: Set<string>)
      requires Valid()
      modifies this
      ensures Valid() && key in data && s == data[key]
      ensures key in old(data) ==> data == old(data)
      ensures key !in old(data) ==> fresh(s) && s.elements == {} && data == old(data)[key := s]
      ensures View() == if key in old(data) then old(View()) else old(View())[key := {}]
    {
      if key in data {
        return data[key];
      }
      s := new Set();
      data := data[key := s];
    }

    /** Get(key).Add(value), the only way the callers use the shared sets. */
    method AddUnder(key: string, value: string)
      requires Valid()
      modifies this, Sets()
      ensures Valid() && fresh(Sets() - old(Sets()))
      ensures View() == WithValue(old(View()), key, value)
    {
      var s := Get(key);
      ghost var before := View();
      AddTo(s, value);
      assert View() == before[key := before[key] + {value}] by {
        assert forall k :: k in data && k != key ==> data[k] != s;
      }
    }

    static method AddTo(s: Set<string>, value: string)
      modifies s
      ensures s.elements == old(s.elements) + {value}
    {
      s.Add([value]);
      assert (set v | v in [value]) == {value};
    }
  }

  function WithValue(m: map<string, set<string>>, key: string, value: string): map<string, set<string>> {
    m[key := (if key in m then m[key] else {}) + {value}]
  }
}
