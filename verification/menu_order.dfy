/**
 * The order in which the menu list is returned: by sort key ascending, ties
 * broken by name ascending. Names compare code point by code point, which is
 * the order of the store's default binary collation on UTF-8 text.
 */
module MenuOrder {
  import opened MenuStore

  // ---------------------------------------------------------------------------
  // Names
  // ---------------------------------------------------------------------------

  /** Lexicographic order on strings by code point: `a` is no greater than `b`. */
  predicate NameLe(a: string, b: string)
  {
    a == [] || (b != [] && (a[0] < b[0] || (a[0] == b[0] && NameLe(a[1..], b[1..]))))
  }

  /** The textbook definition: `a` is a prefix of `b`, or they first differ at a smaller character of `a`. */
  predicate NameLeByFirstDifference(a: string, b: string)
  {
    (|a| <= |b| && a == b[..|a|])
    || exists k :: 0 <= k < |a| && k < |b| && a[..k] == b[..k] && a[k] < b[k]
  }

  lemma {:induction false} NameLeIff(a: string, b: string)
    ensures NameLe(a, b) <==> NameLeByFirstDifference(a, b)
  {
    if a == [] {
      assert a == b[..0];
    } else if b == [] {
    } else if a[0] < b[0] {
      assert a[..0] == b[..0];
    } else if a[0] > b[0] {
      assert a[..|a|][0] == a[0];
    } else {
      NameLeIff(a[1..], b[1..]);
      var a', b' := a[1..], b[1..];
      if |a'| <= |b'| && a' == b'[..|a'|] {
        assert a == [a[0]] + a' && b[..|a|] == [b[0]] + b'[..|a'|];
      } else if k :| 0 <= k < |a'| && k < |b'| && a'[..k] == b'[..k] && a'[k] < b'[k] {
        assert a[..k + 1] == [a[0]] + a'[..k] && b[..k + 1] == [b[0]] + b'[..k];
        assert a[k + 1] == a'[k] && b[k + 1] == b'[k];
      }
      if |a| <= |b| && a == b[..|a|] {
        assert a' == b[..|a|][1..] == b'[..|a'|];
      } else if k :| 0 <= k < |a| && k < |b| && a[..k] == b[..k] && a[k] < b[k] {
        assert k > 0;
        assert a'[..k - 1] == a[..k][1..] && b'[..k - 1] == b[..k][1..];
        assert a'[k - 1] == a[k] && b'[k - 1] == b[k];
      }
    }
  }

  lemma {:induction false} NameLeTotal(a: string, b: string)
    ensures NameLe(a, b) || NameLe(b, a)
  {
    if a != [] && b != [] && a[0] == b[0] {
      NameLeTotal(a[1..], b[1..]);
    }
  }

  lemma {:induction false} NameLeTransitive(a: string, b: string, c: string)
    requires NameLe(a, b) && NameLe(b, c)
    ensures NameLe(a, c)
  {
    if a != [] && b != [] && c != [] && a[0] == b[0] && b[0] == c[0] {
      NameLeTransitive(a[1..], b[1..], c[1..]);
    }
  }

  lemma {:induction false} NameLeAntisymmetric(a: string, b: string)
    requires NameLe(a, b) && NameLe(b, a)
    ensures a == b
  {
    if a != [] && b != [] {
      NameLeAntisymmetric(a[1..], b[1..]);
      assert a == [a[0]] + a[1..] && b == [b[0]] + b[1..];
    }
  }

  // ---------------------------------------------------------------------------
  // Menus
  // ---------------------------------------------------------------------------

  /** `a` may come before `b`: a smaller sort key, or the same sort key and a name no greater. */
  predicate MenuLe(a: Menu, b: Menu)
  {
    a.sortOrder < b.sortOrder || (a.sortOrder == b.sortOrder && NameLe(a.name, b.name))
  }

  lemma MenuLeTotal(a: Menu, b: Menu)
    ensures MenuLe(a, b) || MenuLe(b, a)
  {
    NameLeTotal(a.name, b.name);
  }

  lemma MenuLeTransitive(a: Menu, b: Menu, c: Menu)
    requires MenuLe(a, b) && MenuLe(b, c)
    ensures MenuLe(a, c)
  {
    if a.sortOrder == b.sortOrder == c.sortOrder {
      NameLeTransitive(a.name, b.name, c.name);
    }
  }

  /** Each adjacent pair is in order. */
  predicate Sorted(s: seq<Menu>)
  {
    forall i :: 0 < i < |s| ==> MenuLe(s[i - 1], s[i])
  }

  /** Adjacent order extends to every pair, by transitivity. */
  lemma {:induction false} SortedPairwise(s: seq<Menu>)
    requires Sorted(s)
    ensures forall i, j :: 0 <= i < j < |s| ==> MenuLe(s[i], s[j])
  {
    if |s| > 1 {
      var t := s[1..];
      assert Sorted(t) by {
        forall i | 0 < i < |t|
          ensures MenuLe(t[i - 1], t[i])
        {
          assert t[i - 1] == s[i] && t[i] == s[i + 1];
        }
      }
      SortedPairwise(t);
      forall i, j | 0 <= i < j < |s|
        ensures MenuLe(s[i], s[j])
      {
        if i > 0 {
          assert s[i] == t[i - 1] && s[j] == t[j - 1];
        } else if j > 1 {
          assert s[1] == t[0] && s[j] == t[j - 1];
          MenuLeTransitive(s[0], s[1], s[j]);
        }
      }
    }
  }

  /** Inserts `x` into a sorted list before the first element it may precede. */
  function Insert(x: Menu, s: seq<Menu>): (r: seq<Menu>)
    requires Sorted(s)
    ensures Sorted(r)
    ensures multiset(r) == multiset(s) + multiset{x}
    ensures r[0] == x || (s != [] && r[0] == s[0])
  {
    if s == [] then [x]
    else if MenuLe(x, s[0]) then [x] + s
    else
      assert Sorted(s[1..]) by {
        forall i | 0 < i < |s[1..]|
          ensures MenuLe(s[1..][i - 1], s[1..][i])
        {
          assert s[1..][i - 1] == s[i] && s[1..][i] == s[i + 1];
        }
      }
      var t := Insert(x, s[1..]);
      MenuLeTotal(x, s[0]);
      assert s == [s[0]] + s[1..];
      [s[0]] + t
  }

  /** The menus in list order: a sorted rearrangement of the input. */
  function SortMenus(s: seq<Menu>): (r: seq<Menu>)
    ensures Sorted(r)
    ensures multiset(r) == multiset(s)
  {
    if s == [] then []
    else
      assert s == [s[0]] + s[1..];
      Insert(s[0], SortMenus(s[1..]))
  }

  // ---------------------------------------------------------------------------
  // The order is determined by the keys
  // ---------------------------------------------------------------------------

  /** What the order looks at: the sort key and the name. */
  function Key(m: Menu): (int, string)
  {
    (m.sortOrder, m.name)
  }

  function Keys(s: seq<Menu>): (r: seq<(int, string)>)
    ensures |r| == |s| && forall i :: 0 <= i < |s| ==> r[i] == Key(s[i])
  {
    seq(|s|, i requires 0 <= i < |s| => Key(s[i]))
  }

  lemma {:induction false} NameLeReflexive(a: string)
    ensures NameLe(a, a)
  {
    if a != [] {
      NameLeReflexive(a[1..]);
    }
  }

  /** Menus ordered both ways have the same key. */
  lemma MenuLeAntisymmetric(a: Menu, b: Menu)
    requires MenuLe(a, b) && MenuLe(b, a)
    ensures Key(a) == Key(b)
  {
    NameLeAntisymmetric(a.name, b.name);
  }

  /** Removing one element from an ordered list leaves it ordered. */
  lemma SortedRemove(s: seq<Menu>, j: int)
    requires Sorted(s) && 0 <= j < |s|
    ensures Sorted(s[..j] + s[j + 1..])
  {
    var t := s[..j] + s[j + 1..];
    SortedPairwise(s);
    forall i | 0 < i < |t|
      ensures MenuLe(t[i - 1], t[i])
    {
      var p := if i - 1 < j then i - 1 else i;
      var q := if i < j then i else i + 1;
      assert t[i - 1] == s[p] && t[i] == s[q] && p < q;
    }
  }

  lemma SortedTail(s: seq<Menu>)
    requires Sorted(s) && s != []
    ensures Sorted(s[1..])
  {
    forall k | 0 < k < |s| - 1
      ensures MenuLe(s[1..][k - 1], s[1..][k])
    {
      assert s[1..][k - 1] == s[k] && s[1..][k] == s[k + 1];
    }
  }

  /** The first elements of two ordered rearrangements of the same menus share their key. */
  lemma FirstKeysAgree(a: seq<Menu>, b: seq<Menu>)
    requires Sorted(a) && Sorted(b) && multiset(a) == multiset(b) && a != []
    ensures b != [] && Key(a[0]) == Key(b[0])
  {
    assert a[0] in multiset(b);
    assert b[0] in multiset(a);
    var i :| 0 <= i < |a| && a[i] == b[0];
    var j :| 0 <= j < |b| && b[j] == a[0];
    SortedPairwise(a);
    SortedPairwise(b);
    NameLeReflexive(a[0].name);
    if i > 0 && j > 0 {
      MenuLeAntisymmetric(a[0], b[0]);
    }
  }

  /** In an ordered list, every element up to one that shares the first element's key shares it too. */
  lemma PrefixSharesKey(b: seq<Menu>, j: int)
    requires Sorted(b) && 0 <= j < |b| && Key(b[0]) == Key(b[j])
    ensures forall k :: 0 <= k <= j ==> Key(b[k]) == Key(b[j])
  {
    SortedPairwise(b);
    forall k | 0 < k < j
      ensures Key(b[k]) == Key(b[j])
    {
      MenuLeTransitive(b[k], b[j], b[0]);
      MenuLeAntisymmetric(b[0], b[k]);
    }
  }

  /** Moving an element to the front of a run of equal keys leaves the key sequence unchanged. */
  lemma KeysAfterRemoval(b: seq<Menu>, j: int)
    requires 0 <= j < |b| && forall k :: 0 <= k <= j ==> Key(b[k]) == Key(b[j])
    ensures Keys(b) == [Key(b[j])] + Keys(b[..j] + b[j + 1..])
  {
    var b' := b[..j] + b[j + 1..];
    forall k | 0 < k < |b|
      ensures Keys(b)[k] == Keys(b')[k - 1]
    {
      if k - 1 < j {
        assert b'[k - 1] == b[k - 1];
      } else {
        assert b'[k - 1] == b[k];
      }
    }
  }

  /** In an ordered list, an element sharing the first element's key may be moved to the front without changing the keys. */
  lemma KeysMoveToFront(b: seq<Menu>, j: int)
    requires Sorted(b) && 0 <= j < |b| && Key(b[0]) == Key(b[j])
    ensures Keys(b) == [Key(b[j])] + Keys(b[..j] + b[j + 1..])
  {
    PrefixSharesKey(b, j);
    KeysAfterRemoval(b, j);
  }

  /** Taking the same menu out of two rearrangements of each other leaves rearrangements of each other. */
  lemma RemoveSameElement(a: seq<Menu>, b: seq<Menu>, j: int)
    requires multiset(a) == multiset(b) && a != [] && 0 <= j < |b| && b[j] == a[0]
    ensures multiset(a[1..]) == multiset(b[..j] + b[j + 1..])
  {
    assert a == [a[0]] + a[1..];
    assert b == b[..j] + [a[0]] + b[j + 1..];
    assert multiset(a) == multiset{a[0]} + multiset(a[1..]);
    assert multiset(b) == multiset(b[..j]) + multiset{a[0]} + multiset(b[j + 1..]);
    assert multiset(b[..j] + b[j + 1..]) == multiset(b[..j]) + multiset(b[j + 1..]);
    assert multiset(a[1..]) == multiset(a) - multiset{a[0]};
    assert multiset(b[..j]) + multiset(b[j + 1..]) == multiset(b) - multiset{a[0]};
  }

  lemma KeysCons(a: seq<Menu>)
    requires a != []
    ensures Keys(a) == [Key(a[0])] + Keys(a[1..])
  {
  }

  /**
   * Two ordered rearrangements of the same menus agree, position by
   * position, on sort key and name: the order is fixed up to menus that
   * share both.
   */
  lemma {:induction false} SortedRearrangementsAgree(a: seq<Menu>, b: seq<Menu>)
    requires Sorted(a) && Sorted(b) && multiset(a) == multiset(b)
    ensures Keys(a) == Keys(b)
    decreases |a|
  {
    if a == [] {
      assert |multiset(b)| == 0;
    } else {
      FirstKeysAgree(a, b);
      assert a[0] in multiset(b);
      var j :| 0 <= j < |b| && b[j] == a[0];
      KeysMoveToFront(b, j);
      var b' := b[..j] + b[j + 1..];
      RemoveSameElement(a, b, j);
      SortedRemove(b, j);
      SortedTail(a);
      SortedRearrangementsAgree(a[1..], b');
      KeysCons(a);
    }
  }
}
