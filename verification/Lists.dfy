/** Duplicate-free lists and the order of first occurrences. */
module Lists {

  ghost predicate NoDup<T>(xs: seq<T>) {
    forall i, j :: 0 <= i < j < |xs| ==> xs[i] != xs[j]
  }

  /** Keeps the first occurrence of every element. */
  function Dedup<T(==)>(xs: seq<T>): seq<T> {
    if xs == [] then []
    else if xs[|xs| - 1] in xs[..|xs| - 1] then Dedup(xs[..|xs| - 1])
    else Dedup(xs[..|xs| - 1]) + [xs[|xs| - 1]]
  }

  function Filter<T>(xs: seq<T>, p: T -> bool): seq<T> {
    if xs == [] then []
    else Filter(xs[..|xs| - 1], p) + if p(xs[|xs| - 1]) then [xs[|xs| - 1]] else []
  }

  lemma {:induction false} DedupContents<T(!new)>(xs: seq<T>)
    ensures NoDup(Dedup(xs))
    ensures forall x :: x in Dedup(xs) <==> x in xs
  {
    if xs != [] {
      DedupContents(xs[..|xs| - 1]);
      assert forall x :: x in xs <==> x in xs[..|xs| - 1] || x == xs[|xs| - 1];
    }
  }

  lemma {:induction false} FilterContents<T(!new)>(xs: seq<T>, p: T -> bool)
    ensures forall x :: x in Filter(xs, p) <==> x in xs && p(x)
  {
    if xs != [] {
      FilterContents(xs[..|xs| - 1], p);
      assert forall x :: x in xs <==> x in xs[..|xs| - 1] || x == xs[|xs| - 1];
    }
  }

  function Elements<T(==)>(xs: seq<T>): set<T> {
    if xs == [] then {} else Elements(xs[..|xs| - 1]) + {xs[|xs| - 1]}
  }

  lemma {:induction false} InElements<T(!new)>(xs: seq<T>, x: T)
    ensures x in Elements(xs) <==> x in xs
  {
    if xs != [] {
      InElements(xs[..|xs| - 1], x);
      assert x in xs <==> x in xs[..|xs| - 1] || x == xs[|xs| - 1];
    }
  }

  lemma ElementsSnoc<T(!new)>(xs: seq<T>, x: T)
    ensures Elements(xs + [x]) == Elements(xs) + {x}
  {
    assert (xs + [x])[..|xs + [x]| - 1] == xs;
  }

  lemma {:induction false} InDedup<T(!new)>(xs: seq<T>, x: T)
    ensures x in Dedup(xs) <==> x in xs
  {
    if xs != [] {
      InDedup(xs[..|xs| - 1], x);
      assert x in xs <==> x in xs[..|xs| - 1] || x == xs[|xs| - 1];
    }
  }

  /** The position of the first occurrence, or the length if there is none. */
  function First<T(==)>(xs: seq<T>, x: T): (k: nat)
    ensures k <= |xs| && x !in xs[..k]
    ensures k < |xs| ==> xs[k] == x
    ensures k < |xs| <==> x in xs
  {
    if xs == [] then 0
    else if x in xs[..|xs| - 1] then First(xs[..|xs| - 1], x)
    else if xs[|xs| - 1] == x then |xs| - 1
    else
      assert xs[..|xs|] == xs[..|xs| - 1] + [xs[|xs| - 1]];
      |xs|
  }

  lemma DedupSnoc<T(!new)>(xs: seq<T>, x: T)
    ensures Dedup(xs + [x]) == if x in xs then Dedup(xs) else Dedup(xs) + [x]
  {
    assert (xs + [x])[..|xs + [x]| - 1] == xs;
  }

  lemma FilterSnoc<T(!new)>(xs: seq<T>, x: T, p: T -> bool)
    ensures Filter(xs + [x], p) == if p(x) then Filter(xs, p) + [x] else Filter(xs, p)
  {
    assert (xs + [x])[..|xs + [x]| - 1] == xs;
  }

  lemma {:induction false} DedupOfNoDup<T(!new)>(xs: seq<T>)
    requires NoDup(xs)
    ensures Dedup(xs) == xs
  {
    if xs != [] {
      DedupOfNoDup(xs[..|xs| - 1]);
    }
  }

  lemma {:induction false} DedupTail<T(!new)>(xs: seq<T>, ys: seq<T>)
    ensures Dedup(xs + ys) == Dedup(xs + Dedup(ys))
  {
    if ys != [] {
      var front, y := ys[..|ys| - 1], ys[|ys| - 1];
      assert xs + ys == (xs + front) + [y];
      DedupSnoc(xs + front, y);
      DedupTail(xs, front);
      DedupContents(front);
      if y !in front {
        assert xs + Dedup(ys) == (xs + Dedup(front)) + [y];
        DedupSnoc(xs + Dedup(front), y);
      }
    }
  }

  lemma {:induction false} DedupHead<T(!new)>(xs: seq<T>, ys: seq<T>, zs: seq<T>)
    requires Dedup(xs) == Dedup(ys)
    ensures Dedup(xs + zs) == Dedup(ys + zs)
  {
    if zs == [] {
      assert xs + zs == xs && ys + zs == ys;
    } else {
      var front, z := zs[..|zs| - 1], zs[|zs| - 1];
      DedupHead(xs, ys, front);
      assert xs + zs == (xs + front) + [z] && ys + zs == (ys + front) + [z];
      DedupSnoc(xs + front, z);
      DedupSnoc(ys + front, z);
      DedupContents(xs);
      DedupContents(ys);
    }
  }

  lemma {:induction false} DedupAbsorbs<T(!new)>(xs: seq<T>, ys: seq<T>)
    requires forall y <- ys :: y in xs
    ensures Dedup(xs + ys) == Dedup(xs)
  {
    if ys == [] {
      assert xs + ys == xs;
    } else {
      var front, y := ys[..|ys| - 1], ys[|ys| - 1];
      assert xs + ys == (xs + front) + [y];
      DedupSnoc(xs + front, y);
      DedupAbsorbs(xs, front);
    }
  }

  /** Dropping duplicates keeps the order of first occurrences. */
  lemma {:induction false} DedupKeepsOrder<T(!new)>(xs: seq<T>, x: T, y: T)
    requires x in xs && y in xs
    ensures First(Dedup(xs), x) < First(Dedup(xs), y) <==> First(xs, x) < First(xs, y)
  {
    var front, z := xs[..|xs| - 1], xs[|xs| - 1];
    DedupContents(front);
    if x in front && y in front {
      DedupKeepsOrder(front, x, y);
      if z !in front {
        FirstSnoc(Dedup(front), z, x);
        FirstSnoc(Dedup(front), z, y);
      }
    } else {
      assert forall e :: e in xs <==> e in front || e == z;
      if z !in front {
        FirstSnoc(Dedup(front), z, x);
        FirstSnoc(Dedup(front), z, y);
      }
    }
  }

  lemma FirstSnoc<T(!new)>(xs: seq<T>, z: T, x: T)
    ensures First(xs + [z], x) == if x in xs then First(xs, x) else if x == z then |xs| else |xs| + 1
  {
    assert (xs + [z])[..|xs + [z]| - 1] == xs;
  }

  lemma {:induction false} FirstConcat<T(!new)>(xs: seq<T>, ys: seq<T>, x: T)
    ensures First(xs + ys, x) == if x in xs then First(xs, x) else |xs| + First(ys, x)
  {
    if ys == [] {
      assert xs + ys == xs;
    } else {
      assert xs + ys == (xs + ys[..|ys| - 1]) + [ys[|ys| - 1]];
      FirstSnoc(xs + ys[..|ys| - 1], ys[|ys| - 1], x);
      assert ys == ys[..|ys| - 1] + [ys[|ys| - 1]];
      FirstSnoc(ys[..|ys| - 1], ys[|ys| - 1], x);
      FirstConcat(xs, ys[..|ys| - 1], x);
    }
  }

  lemma {:induction false} NoDupMultiset<T(!new)>(xs: seq<T>, ys: seq<T>)
    requires NoDup(xs) && NoDup(ys) && forall x :: x in xs <==> x in ys
    ensures multiset(xs) == multiset(ys)
  {
    forall x ensures multiset(xs)[x] == multiset(ys)[x] {
      NoDupCount(xs, x);
      NoDupCount(ys, x);
    }
  }

  lemma {:induction false} NoDupCount<T(!new)>(xs: seq<T>, x: T)
    requires NoDup(xs)
    ensures multiset(xs)[x] == if x in xs then 1 else 0
  {
    if xs != [] {
      var front := xs[..|xs| - 1];
      assert xs == front + [xs[|xs| - 1]];
      NoDupCount(front, x);
      if xs[|xs| - 1] == x {
        assert x !in front;
      }
    }
  }
}
