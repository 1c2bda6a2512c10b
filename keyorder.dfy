/** The iteration order of an ordered container keyed by naturals (`std::map` with integer
    keys): every key once, ascending. */
module KeyOrder {

  /** A non-empty set of naturals has a least element. */
  lemma {:induction false} LeastKeyExists(s: set<nat>)
    requires s != {}
    ensures exists m :: m in s && forall j :: j in s ==> m <= j
    decreases s
  {
    var x :| x in s;
    var others := s - {x};
    if others != {} {
      LeastKeyExists(others);
      var y :| y in others && forall j :: j in others ==> y <= j;
      if x <= y {
        forall j | j in s ensures x <= j {
          if j != x { assert j in others; }
        }
      } else {
        forall j | j in s ensures y <= j {
          if j != x { assert j in others; }
        }
      }
    } else {
      forall j | j in s ensures x <= j {
        assert j !in others;
      }
    }
  }

  /** The keys of `s` in iteration order: the least key, then the rest in order. */
  ghost function KeysInOrder(s: set<nat>): seq<nat>
    decreases s
  {
    if s == {} then []
    else
      LeastKeyExists(s);
      var least :| least in s && forall j :: j in s ==> least <= j;
      [least] + KeysInOrder(s - {least})
  }

  /** The iteration visits exactly the keys of `s`, in strictly ascending order (so each once). */
  lemma {:induction false} KeysInOrderAscending(s: set<nat>)
    ensures forall k :: k in KeysInOrder(s) <==> k in s
    ensures forall i, j :: 0 <= i < j < |KeysInOrder(s)| ==> KeysInOrder(s)[i] < KeysInOrder(s)[j]
    decreases s
  {
    if s != {} {
      var r := KeysInOrder(s);
      var least := r[0];
      var rest := KeysInOrder(s - {least});
      assert least in s && forall j :: j in s ==> least <= j;
      assert r == [least] + rest;
      KeysInOrderAscending(s - {least});
      forall i, j | 0 <= i < j < |r| ensures r[i] < r[j] {
        if i == 0 {
          assert r[j] == rest[j - 1] && r[j] in rest;
        } else {
          assert r[i] == rest[i - 1] && r[j] == rest[j - 1];
        }
      }
    }
  }

  /** Iteration starts at the least key and continues with the others. */
  lemma KeysInOrderFromLeast(s: set<nat>, least: nat)
    requires least in s && forall j :: j in s ==> least <= j
    ensures KeysInOrder(s) == [least] + KeysInOrder(s - {least})
  {
    var r := KeysInOrder(s);
    assert r[0] in s && forall j :: j in s ==> r[0] <= j;
  }
}
