/** The already-parsed JSON document the lock file is read from and written to.
    Only the value kinds the lock file uses are modelled: null, integers, strings and
    objects. An object is a std::map in nlohmann::json, so its members are iterated in
    the lexicographic order of their keys; `KeyLess` is that order. */
module Json {

  datatype Json =
    | JNull
    | JInt(n: int)
    | JString(s: string)
    | JObject(fields: map<string, Json>)

  /** std::less<std::string>: lexicographic comparison, character by character,
      a proper prefix coming first. The C++ order compares the UTF-8 bytes of the keys
      as `unsigned char`. Here keys are sequences of Unicode characters compared by code
      point. The two orders agree because nlohmann keys are valid UTF-8, and the byte
      order of UTF-8 encodings is the order of the code points they encode. */
  predicate KeyLess(a: string, b: string)
    decreases |a|
  {
    if |a| == 0 then |b| > 0
    else if |b| == 0 then false
    else if a[0] != b[0] then a[0] < b[0]
    else KeyLess(a[1..], b[1..])
  }

  lemma {:induction false} KeyLessAsymmetric(a: string, b: string)
    ensures KeyLess(a, b) ==> !KeyLess(b, a)
    decreases |a|
  {
    if |a| > 0 && |b| > 0 && a[0] == b[0] {
      KeyLessAsymmetric(a[1..], b[1..]);
    }
  }

  lemma {:induction false} KeyLessTransitive(a: string, b: string, c: string)
    requires KeyLess(a, b) && KeyLess(b, c)
    ensures KeyLess(a, c)
    decreases |a|
  {
    if |a| > 0 && a[0] == b[0] && b[0] == c[0] {
      KeyLessTransitive(a[1..], b[1..], c[1..]);
    }
  }

  lemma {:induction false} KeyLessTotal(a: string, b: string)
    requires a != b
    ensures KeyLess(a, b) || KeyLess(b, a)
    decreases |a|
  {
    if |a| > 0 && |b| > 0 && a[0] == b[0] {
      assert a == [a[0]] + a[1..] && b == [b[0]] + b[1..];
      KeyLessTotal(a[1..], b[1..]);
    }
  }

  /** `k` comes before every other key of `keys`. */
  predicate IsLeast(k: string, keys: set<string>)
  {
    k in keys && forall k' :: k' in keys && k' != k ==> KeyLess(k, k')
  }

  lemma {:induction false} LeastExists(keys: set<string>)
    requires keys != {}
    ensures exists k :: IsLeast(k, keys)
    decreases keys
  {
    var x :| x in keys;
    if keys == {x} {
      assert IsLeast(x, keys);
    } else {
      LeastExists(keys - {x});
      var y :| IsLeast(y, keys - {x});
      if KeyLess(x, y) {
        forall k' | k' in keys && k' != x
          ensures KeyLess(x, k')
        {
          if k' != y {
            KeyLessTransitive(x, y, k');
          }
        }
        assert IsLeast(x, keys);
      } else {
        KeyLessTotal(x, y);
        assert IsLeast(y, keys);
      }
    }
  }

  lemma LeastUnique(k1: string, k2: string, keys: set<string>)
    requires IsLeast(k1, keys) && IsLeast(k2, keys)
    ensures k1 == k2
  {
    if k1 != k2 {
      KeyLessAsymmetric(k1, k2);
    }
  }

  /** The first key an iteration over an object with these keys visits. */
  function LeastKey(keys: set<string>): (k: string)
    requires keys != {}
    ensures IsLeast(k, keys)
  {
    LeastExists(keys);
    assert forall k1, k2 :: IsLeast(k1, keys) && IsLeast(k2, keys) ==> k1 == k2 by {
      forall k1, k2 | IsLeast(k1, keys) && IsLeast(k2, keys) ensures k1 == k2 {
        LeastUnique(k1, k2, keys);
      }
    }
    var k :| IsLeast(k, keys);
    k
  }
}
