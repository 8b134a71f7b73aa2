/** What the endpoint preference list means over runs of promotions. */
module Recency {
  import opened Text
  import opened Lists
  import opened EndpointOrder

  // ----- ordering a plain list

  /** Whatever the hash and the preferences, ordering loses no endpoint and invents none. */
  lemma OrderKeepsEndpoints(endpoints: seq<string>, preferred: seq<string>, hash: Hash)
    ensures forall e :: e in Ordered(endpoints, preferred, hash) <==> e in Clean(endpoints)
    ensures NoDup(Clean(endpoints)) ==> multiset(Ordered(endpoints, preferred, hash)) == multiset(Clean(endpoints))
  {
    var es := Clean(endpoints);
    if es != [] && preferred != [] {
      var lead := Dedup(Named(es, preferred, hash));
      NamedIsFromList(es, preferred, hash);
      DedupContents(Named(es, preferred, hash));
      FilterContents(es, NotIn(lead));
      if NoDup(es) {
        OrderedAsDedup(endpoints, preferred, hash);
        DedupContents(Named(es, preferred, hash) + es);
        NoDupMultiset(Ordered(endpoints, preferred, hash), es);
      }
    }
  }

  lemma {:induction false} NamedIsFromList(es: seq<string>, preferred: seq<string>, hash: Hash)
    ensures forall e <- Named(es, preferred, hash) :: e in es
  {
    if preferred != [] {
      NamedIsFromList(es, preferred[..|preferred| - 1], hash);
      FirstWithFinds(es, TrimSpace(preferred[|preferred| - 1]), hash);
    }
  }

  lemma {:induction false} NamedNothing(preferred: seq<string>, hash: Hash)
    ensures Named([], preferred, hash) == []
  {
    if preferred != [] {
      NamedNothing(preferred[..|preferred| - 1], hash);
    }
  }

  /** On a duplicate-free list: the preferred endpoints in preference order, then the others in list order. */
  lemma OrderedAsDedup(endpoints: seq<string>, preferred: seq<string>, hash: Hash)
    requires NoDup(Clean(endpoints))
    ensures Ordered(endpoints, preferred, hash) == Dedup(Named(Clean(endpoints), preferred, hash) + Clean(endpoints))
  {
    var es := Clean(endpoints);
    if es == [] || preferred == [] {
      if es == [] {
        NamedNothing(preferred, hash);
      }
      assert Named(es, preferred, hash) + es == es;
      DedupOfNoDup(es);
    } else {
      DedupThenRest(Named(es, preferred, hash), es);
    }
  }

  lemma {:induction false} DedupThenRest(xs: seq<string>, ys: seq<string>)
    requires NoDup(ys)
    ensures Dedup(xs + ys) == Dedup(xs) + Filter(ys, NotIn(Dedup(xs)))
  {
    if ys == [] {
      assert xs + ys == xs;
    } else {
      var front, y := ys[..|ys| - 1], ys[|ys| - 1];
      assert y !in front;
      assert NoDup(front);
      DedupThenRest(xs, front);
      assert ys == front + [y] && xs + ys == (xs + front) + [y];
      DedupSnoc(xs + front, y);
      InDedup(xs, y);
      FilterSnoc(front, y, NotIn(Dedup(xs)));
      if y in xs {
        assert y in xs + front;
      }
    }
  }

  // ----- runs of promotions on a fixed document

  /** The hash works on these endpoints: it never fails, never collides and is never blank. */
  ghost predicate HashWorks(es: seq<string>, hash: Hash) {
    && (forall e <- es :: hash(e).Some? && hash(e).value != "" && Trimmed(hash(e).value))
    && (forall e <- es, f <- es :: hash(e) == hash(f) ==> e == f)
  }

  ghost predicate CleanHashes(hs: seq<string>) {
    forall h <- hs :: h != "" && Trimmed(h)
  }

  /** The preference list after promoting `promos` one after the other. */
  function Promoted(existing: seq<string>, endpoints: seq<string>, promos: seq<string>, hash: Hash): seq<string> {
    if promos == [] then existing
    else Reconciled(Promoted(existing, endpoints, promos[..|promos| - 1], hash), endpoints, promos[|promos| - 1], hash)
  }

  /** The hashes of the promotions that took effect, the most recent first. */
  function RecentHashes(doc: seq<string>, promos: seq<string>, hash: Hash): seq<string> {
    if promos == [] then []
    else PromotedHash(doc, promos[|promos| - 1], hash) + RecentHashes(doc, promos[..|promos| - 1], hash)
  }

  lemma {:induction false} RecentHashesInDocument(doc: seq<string>, promos: seq<string>, hash: Hash)
    ensures forall h <- RecentHashes(doc, promos, hash) :: h in doc
  {
    if promos != [] {
      RecentHashesInDocument(doc, promos[..|promos| - 1], hash);
    }
  }

  lemma {:induction false} KeptInDocument(before: seq<string>, existing: seq<string>, doc: seq<string>)
    requires forall h <- before :: h in doc
    ensures forall h <- Kept(before, existing, doc) :: h in doc
  {
    if existing != [] {
      KeptInDocument(before, existing[..|existing| - 1], doc);
    }
  }

  lemma {:induction false} KeptAfter(before: seq<string>, existing: seq<string>, doc: seq<string>)
    ensures Kept(before, existing, doc) == before + Kept([], existing, doc)
  {
    if existing == [] {
      assert before + [] == before;
    } else {
      KeptAfter(before, existing[..|existing| - 1], doc);
    }
  }

  lemma {:induction false} KeptNothing(existing: seq<string>)
    ensures Kept([], existing, []) == []
  {
    if existing != [] {
      KeptNothing(existing[..|existing| - 1]);
    }
  }

  /** Nothing is lost when every old preference is still in the document. */
  lemma {:induction false} KeptAll(existing: seq<string>, doc: seq<string>)
    requires CleanHashes(doc) && forall h <- existing :: h in doc
    ensures Kept([], existing, doc) == existing
  {
    if existing != [] {
      var front, last := existing[..|existing| - 1], existing[|existing| - 1];
      assert forall h <- front :: h in existing;
      KeptAll(front, doc);
      assert last in existing && TrimSpace(last) == last;
      assert existing == front + [last];
    }
  }

  lemma ReconciledAsDedup(existing: seq<string>, endpoints: seq<string>, promoted: string, hash: Hash)
    requires CleanHashes(HashesOf(Clean(endpoints), hash))
    ensures var doc := HashesOf(Clean(endpoints), hash);
            Reconciled(existing, endpoints, promoted, hash) ==
            Dedup(PromotedHash(doc, promoted, hash) + Kept([], existing, doc) + doc)
  {
    var doc := HashesOf(Clean(endpoints), hash);
    var p := PromotedHash(doc, promoted, hash);
    KeptAfter(p, existing, doc);
    KeptInDocument(p, existing, doc);
    var all := p + Kept([], existing, doc) + doc;
    if doc == [] {
      KeptNothing(existing);
      assert all == [];
    } else {
      AddedIsDedup(all);
      CleanOfClean(all);
    }
  }

  /** Promoting again on top of a list that covers the document just moves to the front. */
  lemma PromoteOnTop(doc: seq<string>, p: seq<string>, recent: seq<string>, kept: seq<string>)
    requires CleanHashes(doc) && (forall h <- recent :: h in doc) && forall h <- kept :: h in doc
    ensures Dedup(p + Kept([], Dedup(recent + kept + doc), doc) + doc) == Dedup((p + recent) + kept + doc)
  {
    var xs := recent + kept + doc;
    var former := Dedup(xs);
    assert Kept([], former, doc) == former by {
      DedupContents(xs);
      KeptAll(former, doc);
    }
    assert Dedup(p + former + doc) == Dedup(p + xs + doc) by {
      DedupTail(p, xs);
      DedupHead(p + former, p + xs, doc);
    }
    assert Dedup(p + xs + doc) == Dedup(p + xs) by {
      DedupAbsorbs(p + xs, doc);
    }
    assert p + xs == (p + recent) + kept + doc;
  }

  /** After any run of promotions: the promoted hashes by most recent success first, then the old preferences
      that the document still has, then the rest in document order. */
  lemma {:induction false} StoredMostRecentFirst(existing: seq<string>, endpoints: seq<string>, promos: seq<string>, hash: Hash)
    requires CleanHashes(HashesOf(Clean(endpoints), hash))
    requires promos != []
    ensures var doc := HashesOf(Clean(endpoints), hash);
            Promoted(existing, endpoints, promos, hash) ==
            Dedup(RecentHashes(doc, promos, hash) + Kept([], existing, doc) + doc)
  {
    var doc := HashesOf(Clean(endpoints), hash);
    var front, last := promos[..|promos| - 1], promos[|promos| - 1];
    var p, recent, kept := PromotedHash(doc, last, hash), RecentHashes(doc, front, hash), Kept([], existing, doc);
    var before := Promoted(existing, endpoints, front, hash);
    assert Promoted(existing, endpoints, promos, hash) == Dedup(p + Kept([], before, doc) + doc) by {
      ReconciledAsDedup(before, endpoints, last, hash);
    }
    if front == [] {
      assert p + recent == p;
    } else {
      assert before == Dedup(recent + kept + doc) by {
        StoredMostRecentFirst(existing, endpoints, front, hash);
      }
      RecentHashesInDocument(doc, front, hash);
      KeptInDocument([], existing, doc);
      PromoteOnTop(doc, p, recent, kept);
    }
  }

  // ----- the stored order and the plain order

  lemma {:induction false} HashesAreClean(es: seq<string>, hash: Hash)
    requires HashWorks(es, hash)
    ensures CleanHashes(HashesOf(es, hash))
    ensures |HashesOf(es, hash)| == |es| && forall i :: 0 <= i < |es| ==> hash(es[i]) == Some(HashesOf(es, hash)[i])
  {
    if es != [] {
      assert forall e <- es[..|es| - 1] :: e in es;
      assert es[|es| - 1] in es;
      HashesAreClean(es[..|es| - 1], hash);
    }
  }

  /** Each hash of the list stands for the one endpoint that has it. */
  lemma NamedOne(es: seq<string>, e: string, hash: Hash)
    requires HashWorks(es, hash) && e in es
    ensures FirstWith(es, TrimSpace(hash(e).value), hash) == Some(e)
  {
    FirstWithFinds(es, hash(e).value, hash);
  }

  /** Naming is undone by hashing. */
  lemma {:induction false} NamedOfHashes(es: seq<string>, fs: seq<string>, hash: Hash)
    requires HashWorks(es, hash) && forall f <- fs :: f in es
    ensures Named(es, HashesOf(fs, hash), hash) == fs
  {
    if fs != [] {
      var front, f := fs[..|fs| - 1], fs[|fs| - 1];
      assert forall g <- front :: g in fs;
      assert f in fs;
      NamedOfHashes(es, front, hash);
      assert fs == front + [f];
      HashesSnoc(front, f, hash);
      NamedSnoc(es, HashesOf(front, hash), hash(f).value, hash);
      NamedOne(es, f, hash);
    }
  }

  /** Hashing keeps apart what it should: the hashes repeat only where the endpoints do. */
  lemma {:induction false} DedupOfHashes(es: seq<string>, fs: seq<string>, hash: Hash)
    requires HashWorks(es, hash) && forall f <- fs :: f in es
    ensures Dedup(HashesOf(fs, hash)) == HashesOf(Dedup(fs), hash)
  {
    if fs != [] {
      var front, f := fs[..|fs| - 1], fs[|fs| - 1];
      assert forall g <- front :: g in fs;
      assert f in fs && fs == front + [f];
      DedupOfHashes(es, front, hash);
      HashesSnoc(front, f, hash);
      DedupSnoc(HashesOf(front, hash), hash(f).value);
      DedupSnoc(front, f);
      HashContents(front, hash);
      HashesSnoc(Dedup(front), f, hash);
    }
  }

  lemma {:induction false} HashesConcat(es: seq<string>, fs: seq<string>, hash: Hash)
    ensures HashesOf(es + fs, hash) == HashesOf(es, hash) + HashesOf(fs, hash)
  {
    if fs == [] {
      assert es + fs == es;
    } else {
      var front, f := fs[..|fs| - 1], fs[|fs| - 1];
      assert es + fs == (es + front) + [f] && fs == front + [f];
      HashesSnoc(es + front, f, hash);
      HashesSnoc(front, f, hash);
      HashesConcat(es, front, hash);
    }
  }

  /** The endpoints promoted by `promos`, the most recent first. */
  function RecentEndpoints(es: seq<string>, promos: seq<string>, hash: Hash): seq<string> {
    if promos == [] then []
    else
      var p, older := promos[|promos| - 1], RecentEndpoints(es, promos[..|promos| - 1], hash);
      if Blank(p) || hash(p).None? then older
      else match FirstWith(es, hash(p).value, hash)
        case Some(e) => [e] + older
        case None => older
  }

  lemma {:induction false} RecentAgree(es: seq<string>, promos: seq<string>, hash: Hash)
    requires HashWorks(es, hash)
    ensures forall e <- RecentEndpoints(es, promos, hash) :: e in es
    ensures RecentHashes(HashesOf(es, hash), promos, hash) == HashesOf(RecentEndpoints(es, promos, hash), hash)
  {
    if promos != [] {
      var p := promos[|promos| - 1];
      RecentAgree(es, promos[..|promos| - 1], hash);
      HashContents(es, hash);
      if !Blank(p) && hash(p).Some? {
        var h := hash(p).value;
        FirstWithFinds(es, h, hash);
        var found := FirstWith(es, h, hash);
        if found.Some? {
          HashesConcat([found.value], RecentEndpoints(es, promos[..|promos| - 1], hash), hash);
          HashesSnoc([], found.value, hash);
          assert [] + [found.value] == [found.value];
          assert HashesOf([found.value], hash) == [h];
        }
      }
    }
  }

  /** The stored hashes and the plain list agree: hashing the ordered endpoints gives back the stored order,
      and both are the promoted endpoints by most recent success first, then the others in document order. */
  lemma StoredAndPlainAgree(endpoints: seq<string>, promos: seq<string>, hash: Hash)
    requires NoDup(Clean(endpoints)) && HashWorks(Clean(endpoints), hash)
    requires promos != []
    ensures var es, stored := Clean(endpoints), Promoted([], endpoints, promos, hash);
            && Ordered(endpoints, stored, hash) == Dedup(RecentEndpoints(es, promos, hash) + es)
            && HashesOf(Ordered(endpoints, stored, hash), hash) == stored
  {
    var es, stored := Clean(endpoints), Promoted([], endpoints, promos, hash);
    var doc, recent := HashesOf(es, hash), RecentEndpoints(es, promos, hash);
    RecentAgree(es, promos, hash);
    assert stored == Dedup(HashesOf(recent, hash) + doc) by {
      HashesAreClean(es, hash);
      StoredMostRecentFirst([], endpoints, promos, hash);
      assert RecentHashes(doc, promos, hash) + [] == HashesOf(recent, hash);
    }
    OrderedFromHashes(endpoints, recent, stored, hash);
  }

  /** A stored order that repeats `lead` and then the document gives the plain order that does the same. */
  lemma OrderedFromHashes(endpoints: seq<string>, lead: seq<string>, stored: seq<string>, hash: Hash)
    requires NoDup(Clean(endpoints)) && HashWorks(Clean(endpoints), hash)
    requires forall e <- lead :: e in Clean(endpoints)
    requires stored == Dedup(HashesOf(lead, hash) + HashesOf(Clean(endpoints), hash))
    ensures Ordered(endpoints, stored, hash) == Dedup(lead + Clean(endpoints))
    ensures HashesOf(Ordered(endpoints, stored, hash), hash) == stored
  {
    var es := Clean(endpoints);
    var order := Dedup(lead + es);
    assert stored == HashesOf(order, hash) by {
      HashesConcat(lead, es, hash);
      DedupOfHashes(es, lead + es, hash);
    }
    DedupContents(lead + es);
    assert Named(es, stored, hash) == order by {
      NamedOfHashes(es, order, hash);
    }
    OrderedAsDedup(endpoints, stored, hash);
    DedupHead(order, lead + es, es) by { DedupOfNoDup(order); }
    DedupAbsorbs(lead + es, es);
  }

  /** A preference list built by any earlier promotions, on whatever documents, still agrees with the plain
      order once it is reconciled with this one; the promoted endpoint comes first. */
  lemma ReconciledAgrees(existing: seq<string>, endpoints: seq<string>, promoted: string, hash: Hash)
    requires NoDup(Clean(endpoints)) && HashWorks(Clean(endpoints), hash)
    ensures var stored := Reconciled(existing, endpoints, promoted, hash);
            && HashesOf(Ordered(endpoints, stored, hash), hash) == stored
            && (!Blank(promoted) && hash(promoted).Some? && FirstWith(Clean(endpoints), hash(promoted).value, hash).Some? ==>
                  stored != [] && stored[0] == hash(promoted).value)
  {
    var es, stored := Clean(endpoints), Reconciled(existing, endpoints, promoted, hash);
    var doc := HashesOf(es, hash);
    var p := PromotedHash(doc, promoted, hash);
    HashesAreClean(es, hash);
    HashContents(es, hash);
    var lead := p + Kept([], existing, doc);
    ReconciledAsDedup(existing, endpoints, promoted, hash);
    KeptInDocument([], existing, doc);
    HashesOfNamed(es, lead, hash);
    NamedIsFromList(es, lead, hash);
    OrderedFromHashes(endpoints, Named(es, lead, hash), stored, hash);
    if !Blank(promoted) && hash(promoted).Some? && FirstWith(es, hash(promoted).value, hash).Some? {
      FirstWithFinds(es, hash(promoted).value, hash);
      assert p == [hash(promoted).value];
      DedupStart(lead + doc);
    }
  }

  lemma {:induction false} HashesOfNamed(es: seq<string>, hs: seq<string>, hash: Hash)
    requires HashWorks(es, hash) && forall h <- hs :: h in HashesOf(es, hash)
    ensures HashesOf(Named(es, hs, hash), hash) == hs
  {
    if hs != [] {
      var front, h := hs[..|hs| - 1], hs[|hs| - 1];
      assert forall g <- front :: g in hs;
      assert h in hs && hs == front + [h];
      HashesOfNamed(es, front, hash);
      HashContents(es, hash);
      var e :| e in es && hash(e) == Some(h);
      NamedOne(es, e, hash);
      NamedSnoc(es, front, h, hash);
      HashesSnoc(Named(es, front, hash), e, hash);
    }
  }

  lemma {:induction false} DedupStart<T(!new)>(xs: seq<T>)
    requires xs != []
    ensures Dedup(xs) != [] && Dedup(xs)[0] == xs[0]
  {
    if |xs| > 1 {
      DedupStart(xs[..|xs| - 1]);
    }
  }

  /** The endpoint promoted last is the first of the plain order, whatever the stored list was. */
  lemma PromotedIsTriedFirst(existing: seq<string>, endpoints: seq<string>, promoted: string, hash: Hash)
    requires NoDup(Clean(endpoints)) && HashWorks(Clean(endpoints), hash) && promoted in Clean(endpoints)
    ensures var order := Ordered(endpoints, Reconciled(existing, endpoints, promoted, hash), hash);
            order != [] && order[0] == promoted
  {
    var es, stored := Clean(endpoints), Reconciled(existing, endpoints, promoted, hash);
    CleanIsClean(endpoints);
    FirstWithFinds(es, hash(promoted).value, hash);
    ReconciledAgrees(existing, endpoints, promoted, hash);
    OrderKeepsEndpoints(endpoints, stored, hash);
    FirstByHash(Ordered(endpoints, stored, hash), es, promoted, hash);
  }

  lemma FirstByHash(order: seq<string>, es: seq<string>, e: string, hash: Hash)
    requires HashWorks(es, hash) && e in es && forall x <- order :: x in es
    requires var hs := HashesOf(order, hash); hs != [] && hs[0] == hash(e).value
    ensures order != [] && order[0] == e
  {
    FirstHash(order, hash);
    assert order[0] in order;
  }

  lemma {:induction false} FirstHash(order: seq<string>, hash: Hash)
    requires order == [] || (forall x <- order :: hash(x).Some?)
    ensures order != [] ==>
              HashesOf(order, hash) != [] && HashesOf(order, hash)[0] == hash(order[0]).value
  {
    if order != [] {
      var front := order[..|order| - 1];
      assert forall x <- front :: x in order;
      FirstHash(front, hash);
      assert order[|order| - 1] in order;
    }
  }

  // ----- which endpoint comes first

  /** The latest promotion of `e`, counted from one; zero if it was never promoted. */
  function LatestPromotion(promos: seq<string>, e: string): (n: nat)
    ensures n <= |promos|
    ensures n > 0 ==> promos[n - 1] == e
    ensures forall i :: n <= i < |promos| ==> promos[i] != e
  {
    if promos == [] then 0
    else if promos[|promos| - 1] == e then |promos|
    else LatestPromotion(promos[..|promos| - 1], e)
  }

  lemma {:induction false} RecentOfMembers(es: seq<string>, promos: seq<string>, hash: Hash, e: string)
    requires HashWorks(es, hash) && (forall p <- promos :: p in es && !Blank(p))
    ensures |RecentEndpoints(es, promos, hash)| == |promos|
    ensures e in RecentEndpoints(es, promos, hash) <==> LatestPromotion(promos, e) > 0
    ensures LatestPromotion(promos, e) > 0 ==>
              First(RecentEndpoints(es, promos, hash), e) == |promos| - LatestPromotion(promos, e)
  {
    if promos != [] {
      var front, p := promos[..|promos| - 1], promos[|promos| - 1];
      assert p in promos && forall q <- front :: q in promos;
      RecentOfMembers(es, front, hash, e);
      NamedOne(es, p, hash);
      assert TrimSpace(hash(p).value) == hash(p).value;
      FirstConcat([p], RecentEndpoints(es, front, hash), e);
      FirstSnoc([], p, e);
      assert [] + [p] == [p];
    }
  }

  /** The endpoint whose latest success is more recent is tried first; promoted ones before never-promoted ones;
      never-promoted ones in document order. */
  lemma MoreRecentIsTriedFirst(endpoints: seq<string>, promos: seq<string>, hash: Hash, x: string, y: string)
    requires NoDup(Clean(endpoints)) && HashWorks(Clean(endpoints), hash)
    requires promos != [] && forall p <- promos :: p in Clean(endpoints)
    requires x in Clean(endpoints) && y in Clean(endpoints) && x != y
    ensures var order := Ordered(endpoints, Promoted([], endpoints, promos, hash), hash);
            var lx, ly := LatestPromotion(promos, x), LatestPromotion(promos, y);
            First(order, x) < First(order, y) <==>
              lx > ly || (lx == 0 && ly == 0 && First(Clean(endpoints), x) < First(Clean(endpoints), y))
  {
    var es := Clean(endpoints);
    var recent := RecentEndpoints(es, promos, hash);
    CleanIsClean(endpoints);
    StoredAndPlainAgree(endpoints, promos, hash);
    RecentOfMembers(es, promos, hash, x);
    RecentOfMembers(es, promos, hash, y);
    DedupKeepsOrder(recent + es, x, y);
    FirstConcat(recent, es, x);
    FirstConcat(recent, es, y);
  }

  // ----- changing documents

  function Trimmings(hs: seq<string>): seq<string> {
    if hs == [] then [] else Trimmings(hs[..|hs| - 1]) + [TrimSpace(hs[|hs| - 1])]
  }

  lemma {:induction false} KeptKeepsOrder(existing: seq<string>, doc: seq<string>, h: string, g: string)
    requires h in doc && g in doc
    ensures h in Kept([], existing, doc) <==> h in Trimmings(existing)
    ensures h in Trimmings(existing) && g in Trimmings(existing) ==>
              (First(Kept([], existing, doc), h) < First(Kept([], existing, doc), g) <==>
               First(Trimmings(existing), h) < First(Trimmings(existing), g))
  {
    if existing != [] {
      var front, z := existing[..|existing| - 1], TrimSpace(existing[|existing| - 1]);
      KeptKeepsOrder(front, doc, h, g);
      var kept, trims := Kept([], front, doc), Trimmings(front);
      KeptKeepsOrder(front, doc, g, h);
      FirstSnoc(trims, z, h);
      FirstSnoc(trims, z, g);
      assert Trimmings(existing) == trims + [z];
      if z in doc {
        FirstSnoc(kept, z, h);
        FirstSnoc(kept, z, g);
        assert Kept([], existing, doc) == kept + [z];
      } else {
        assert Kept([], existing, doc) == kept;
      }
    }
  }

  /** When the document changes, the preferences it still has keep their relative order, and its new
      endpoints go last, in document order. */
  lemma SurvivorsKeepTheirOrder(existing: seq<string>, endpoints: seq<string>, promoted: string, hash: Hash, h: string, g: string)
    requires CleanHashes(HashesOf(Clean(endpoints), hash))
    requires h in HashesOf(Clean(endpoints), hash) && g in HashesOf(Clean(endpoints), hash) && h != g
    requires hash(promoted) != Some(h) && hash(promoted) != Some(g)
    ensures var stored, former, doc := Reconciled(existing, endpoints, promoted, hash), Trimmings(existing), HashesOf(Clean(endpoints), hash);
            First(stored, h) < First(stored, g) <==>
              || (h in former && g !in former)
              || (h in former && g in former && First(former, h) < First(former, g))
              || (h !in former && g !in former && First(doc, h) < First(doc, g))
  {
    var doc := HashesOf(Clean(endpoints), hash);
    var p, kept := PromotedHash(doc, promoted, hash), Kept([], existing, doc);
    ReconciledAsDedup(existing, endpoints, promoted, hash);
    OrderInThree(p, kept, doc, h, g);
    KeptKeepsOrder(existing, doc, h, g);
    assert g in kept <==> g in Trimmings(existing) by {
      KeptKeepsOrder(existing, doc, g, h);
    }
  }

  lemma OrderInThree(p: seq<string>, kept: seq<string>, doc: seq<string>, h: string, g: string)
    requires h !in p && g !in p && h in doc && g in doc && h != g
    ensures var all := Dedup(p + kept + doc);
            First(all, h) < First(all, g) <==>
              || (h in kept && g !in kept)
              || (h in kept && g in kept && First(kept, h) < First(kept, g))
              || (h !in kept && g !in kept && First(doc, h) < First(doc, g))
  {
    DedupKeepsOrder(p + kept + doc, h, g);
    FirstInThree(p, kept, doc, h);
    FirstInThree(p, kept, doc, g);
  }

  lemma FirstInThree(p: seq<string>, kept: seq<string>, doc: seq<string>, h: string)
    requires h !in p && h in doc
    ensures h in p + kept + doc
    ensures First(p + kept + doc, h) == |p| + if h in kept then First(kept, h) else |kept| + First(doc, h)
  {
    FirstConcat(p + kept, doc, h);
    FirstConcat(p, kept, h);
  }
}
