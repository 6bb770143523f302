/** The key order of std::map<std::string, ...>: lexicographic comparison of strings, a proper
    prefix coming first. The closing eviction visits the clients in this order. */
module StringOrder {

  /** a < b as std::string compares them. */
  predicate Below(a: string, b: string)
    decreases |a|
  {
    if a == [] then b != []
    else if b == [] then false
    else if a[0] != b[0] then a[0] < b[0]
    else Below(a[1..], b[1..])
  }

  lemma {:induction false} BelowIrreflexive(a: string)
    ensures !Below(a, a)
    decreases |a|
  {
    if a != [] {
      BelowIrreflexive(a[1..]);
    }
  }

  lemma {:induction false} BelowTransitive(a: string, b: string, c: string)
    requires Below(a, b) && Below(b, c)
    ensures Below(a, c)
    decreases |a|
  {
    if a != [] && a[0] == b[0] && b[0] == c[0] {
      BelowTransitive(a[1..], b[1..], c[1..]);
    }
  }

  /** Two different strings are always ordered one way. */
  lemma {:induction false} BelowTotal(a: string, b: string)
    requires a != b
    ensures Below(a, b) || Below(b, a)
    decreases |a|
  {
    if a != [] && b != [] && a[0] == b[0] {
      assert a == [a[0]] + a[1..] && b == [b[0]] + b[1..];
      BelowTotal(a[1..], b[1..]);
    }
  }

  lemma BelowAsymmetric(a: string, b: string)
    requires Below(a, b)
    ensures !Below(b, a)
  {
    if Below(b, a) {
      BelowTransitive(a, b, a);
      BelowIrreflexive(a);
    }
  }

  /** k is the least member of s. */
  predicate IsLeast(k: string, s: set<string>)
  {
    k in s && forall o | o in s && o != k :: Below(k, o)
  }

  /** Every non-empty set of strings has a least member. */
  lemma {:induction false} LeastExists(s: set<string>) returns (k: string)
    requires s != {}
    ensures IsLeast(k, s)
    decreases |s|
  {
    var x :| x in s;
    if s == {x} {
      k := x;
    } else {
      var m := LeastExists(s - {x});
      if Below(x, m) {
        k := x;
        forall o | o in s && o != x
          ensures Below(x, o)
        {
          if o != m {
            BelowTransitive(x, m, o);
          }
        }
      } else {
        BelowTotal(x, m);
        k := m;
      }
    }
  }

  /** The least member is unique. */
  lemma LeastUnique(k: string, k': string, s: set<string>)
    requires IsLeast(k, s) && IsLeast(k', s)
    ensures k == k'
  {
    if k != k' {
      BelowAsymmetric(k, k');
    }
  }

  /** Strictly ascending. */
  predicate Ascending(keys: seq<string>)
  {
    forall i, j | 0 <= i < j < |keys| :: Below(keys[i], keys[j])
  }

  /** The members of s in ascending order: the order in which a std::map<std::string, ...>
      visits its keys. */
  ghost function SortedKeys(s: set<string>): (keys: seq<string>)
    ensures |keys| == |s|
    decreases |s|
  {
    if s == {} then []
    else
      LeastOfSet(s);
      var k :| IsLeast(k, s);
      [k] + SortedKeys(s - {k})
  }

  lemma LeastOfSet(s: set<string>)
    requires s != {}
    ensures exists k :: IsLeast(k, s)
  {
    var k := LeastExists(s);
  }

  /** Taking the least member off the front. */
  lemma SortedKeysUnfold(s: set<string>, k: string)
    requires IsLeast(k, s)
    ensures SortedKeys(s) == [k] + SortedKeys(s - {k})
  {
    var k' :| IsLeast(k', s) && SortedKeys(s) == [k'] + SortedKeys(s - {k'});
    LeastUnique(k, k', s);
  }

  /** The ascending key sequence holds exactly the members of the set. */
  lemma {:induction false} SortedKeysMembers(s: set<string>)
    ensures forall x :: x in SortedKeys(s) <==> x in s
    decreases |s|
  {
    if s != {} {
      var k := LeastExists(s);
      SortedKeysUnfold(s, k);
      SortedKeysMembers(s - {k});
    }
  }

  /** The ascending key sequence is strictly ascending, so it holds every member once. */
  lemma {:induction false} SortedKeysAscending(s: set<string>)
    ensures Ascending(SortedKeys(s))
    decreases |s|
  {
    if s != {} {
      var k := LeastExists(s);
      SortedKeysUnfold(s, k);
      SortedKeysAscending(s - {k});
      SortedKeysMembers(s - {k});
      var rest := SortedKeys(s - {k});
      forall j | 0 <= j < |rest|
        ensures Below(k, rest[j])
      {
        assert rest[j] in s - {k};
      }
      PrependAscending(k, rest);
    }
  }

  /** Putting a key below all others in front of an ascending sequence keeps it ascending. */
  lemma PrependAscending(k: string, rest: seq<string>)
    requires Ascending(rest)
    requires forall j | 0 <= j < |rest| :: Below(k, rest[j])
    ensures Ascending([k] + rest)
  {
    var keys := [k] + rest;
    forall i, j | 0 <= i < j < |keys|
      ensures Below(keys[i], keys[j])
    {
      if i == 0 {
        assert keys[j] == rest[j - 1];
      } else {
        assert keys[i] == rest[i - 1];
        assert keys[j] == rest[j - 1];
      }
    }
  }

  /** Appending a key above every key of an ascending sequence keeps it ascending. */
  lemma AppendAscending(keys: seq<string>, k: string)
    requires Ascending(keys)
    requires forall i | 0 <= i < |keys| :: Below(keys[i], k)
    ensures Ascending(keys + [k])
  {
  }

  /** The head of a strictly ascending sequence is the least of its members. */
  lemma HeadIsLeast(keys: seq<string>, s: set<string>)
    requires keys != [] && Ascending(keys) && forall x :: x in keys <==> x in s
    ensures IsLeast(keys[0], s)
  {
    forall o | o in s && o != keys[0]
      ensures Below(keys[0], o)
    {
      var j :| 0 <= j < |keys| && keys[j] == o;
    }
  }

  /** The tail of a strictly ascending sequence holds the other members. */
  lemma TailMembers(keys: seq<string>, s: set<string>)
    requires keys != [] && Ascending(keys) && forall x :: x in keys <==> x in s
    ensures Ascending(keys[1..]) && forall x :: x in keys[1..] <==> x in s - {keys[0]}
  {
    var k, rest := keys[0], keys[1..];
    forall x
      ensures x in rest <==> x in s - {k}
    {
      if x in rest {
        var j :| 0 <= j < |rest| && rest[j] == x;
        assert keys[j + 1] == x;
        BelowIrreflexive(k);
      }
      if x in s - {k} {
        var j :| 0 <= j < |keys| && keys[j] == x;
        assert rest[j - 1] == x;
      }
    }
  }

  /** A strictly ascending sequence holding exactly the members of s is the ascending key
      sequence of s: the visiting order of a std::map is determined by its keys. */
  lemma {:induction false} SortedKeysOfAscending(keys: seq<string>, s: set<string>)
    requires Ascending(keys) && forall x :: x in keys <==> x in s
    ensures keys == SortedKeys(s)
    decreases |keys|
  {
    if keys == [] {
      assert s == {};
    } else {
      HeadIsLeast(keys, s);
      SortedKeysUnfold(s, keys[0]);
      TailMembers(keys, s);
      SortedKeysOfAscending(keys[1..], s - {keys[0]});
    }
  }
}
