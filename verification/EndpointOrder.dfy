/** Endpoint preference: a move-to-front list of opaque hashes kept beside the plain endpoint list. */
module EndpointOrder {
  import opened Text
  import opened Lists

  /** The salted hash of a URL, or None when it has none. */
  type Hash = string -> Option<string>

  // ----- specification

  /** The trimmed endpoints, without the blank ones. */
  function Clean(es: seq<string>): seq<string> {
    if es == [] then []
    else Clean(es[..|es| - 1]) + if Blank(es[|es| - 1]) then [] else [TrimSpace(es[|es| - 1])]
  }

  function HashesOf(es: seq<string>, hash: Hash): seq<string> {
    if es == [] then []
    else HashesOf(es[..|es| - 1], hash) + match hash(es[|es| - 1]) case Some(h) => [h] case None => []
  }

  /** The first endpoint with hash `h`. */
  function FirstWith(es: seq<string>, h: string, hash: Hash): Option<string> {
    if es == [] then None
    else if FirstWith(es[..|es| - 1], h, hash).Some? then FirstWith(es[..|es| - 1], h, hash)
    else if hash(es[|es| - 1]) == Some(h) then Some(es[|es| - 1])
    else None
  }

  /** The endpoints the preferred hashes stand for, in preference order. */
  function Named(es: seq<string>, preferred: seq<string>, hash: Hash): seq<string> {
    if preferred == [] then []
    else Named(es, preferred[..|preferred| - 1], hash) +
         match FirstWith(es, TrimSpace(preferred[|preferred| - 1]), hash) case Some(e) => [e] case None => []
  }

  function NotIn(xs: seq<string>): string -> bool {
    x => x !in xs
  }

  /** Preferred endpoints in preference order, then the others as they were. */
  function Ordered(endpoints: seq<string>, preferred: seq<string>, hash: Hash): seq<string> {
    var es := Clean(endpoints);
    if es == [] || preferred == [] then es
    else
      var lead := Dedup(Named(es, preferred, hash));
      lead + Filter(es, NotIn(lead))
  }

  /** The hash of the promoted endpoint, if it is one of the document's. */
  function PromotedHash(docHashes: seq<string>, promoted: string, hash: Hash): seq<string> {
    if !Blank(promoted) && hash(promoted).Some? && hash(promoted).value in docHashes
       && hash(promoted).value != "" then [hash(promoted).value] else []
  }

  /** The new preference list: the promoted hash, then the old preferences, then the rest of the document. */
  function Reconciled(existing: seq<string>, endpoints: seq<string>, promoted: string, hash: Hash): seq<string> {
    var doc := HashesOf(Clean(endpoints), hash);
    if doc == [] then []
    else Added(Kept(PromotedHash(doc, promoted, hash), existing, doc) + doc)
  }

  /** The trimmed hashes, without the blank ones and without repetitions. */
  function Added(hs: seq<string>): seq<string> {
    if hs == [] then []
    else
      var out, h := Added(hs[..|hs| - 1]), TrimSpace(hs[|hs| - 1]);
      if h == "" || h in out then out else out + [h]
  }

  /** `before`, then the old preferences that the document still has. */
  function Kept(before: seq<string>, existing: seq<string>, doc: seq<string>): seq<string> {
    if existing == [] then before
    else Kept(before, existing[..|existing| - 1], doc) +
         if TrimSpace(existing[|existing| - 1]) in doc then [TrimSpace(existing[|existing| - 1])] else []
  }

  // ----- implementation

  method OrderEndpointsByHashes(endpoints: seq<string>, preferredHashes: seq<string>, hash: Hash)
    returns (out: seq<string>)
    ensures out == Ordered(endpoints, preferredHashes, hash)
  {
    var trimmed := TrimEndpoints(endpoints);
    if |trimmed| == 0 || |preferredHashes| == 0 {
      return trimmed;
    }
    var h2e := IndexByHash(trimmed, hash);
    var lead, used := TakePreferred(trimmed, preferredHashes, h2e, hash);
    out := AppendOthers(lead, used, trimmed);
  }

  method AppendOthers(lead: seq<string>, used: set<string>, trimmed: seq<string>) returns (out: seq<string>)
    requires used == Elements(lead)
    ensures out == lead + Filter(trimmed, NotIn(lead))
  {
    out := lead;
    assert lead + Filter(trimmed[..0], NotIn(lead)) == lead;
    for i := 0 to |trimmed|
      invariant out == lead + Filter(trimmed[..i], NotIn(lead))
    {
      OthersNext(lead, trimmed, i);
      InElements(lead, trimmed[i]);
      if trimmed[i] in used { continue; }
      out := out + [trimmed[i]];
    }
    assert trimmed[..|trimmed|] == trimmed;
  }

  lemma OthersNext(lead: seq<string>, es: seq<string>, i: nat)
    requires i < |es|
    ensures lead + Filter(es[..i + 1], NotIn(lead)) ==
            if es[i] in lead then lead + Filter(es[..i], NotIn(lead)) else lead + Filter(es[..i], NotIn(lead)) + [es[i]]
  {
    FilterSnoc(es[..i], es[i], NotIn(lead));
    assert es[..i + 1] == es[..i] + [es[i]];
  }

  method TrimEndpoints(endpoints: seq<string>) returns (trimmed: seq<string>)
    ensures trimmed == Clean(endpoints)
  {
    trimmed := [];
    for i := 0 to |endpoints|
      invariant trimmed == Clean(endpoints[..i])
    {
      CleanNext(endpoints, i);
      var e := TrimSpace(endpoints[i]);
      if e == "" { continue; }
      trimmed := trimmed + [e];
    }
    assert endpoints[..|endpoints|] == endpoints;
  }

  /** `h2e` has, for every hash, the first endpoint with it. */
  ghost predicate Indexes(es: seq<string>, h2e: map<string, string>, hash: Hash) {
    forall h :: FirstWith(es, h, hash) == if h in h2e then Some(h2e[h]) else None
  }

  /** One more endpoint: new only if it has a hash, and one that no endpoint before it has. */
  lemma IndexesSnoc(es: seq<string>, e: string, h2e: map<string, string>, hash: Hash)
    requires Indexes(es, h2e, hash)
    ensures Indexes(es + [e], if hash(e).Some? && hash(e).value !in h2e then h2e[hash(e).value := e] else h2e, hash)
  {
    FirstWithSnoc(es, e, hash);
  }

  lemma IndexedAlready(es: seq<string>, e: string, h2e: map<string, string>, hash: Hash)
    requires Indexes(es, h2e, hash) && e in es
    ensures hash(e).Some? ==> hash(e).value in h2e
  {
    if hash(e).Some? {
      FirstWithFinds(es, hash(e).value, hash);
    }
  }

  method IndexByHash(trimmed: seq<string>, hash: Hash) returns (h2e: map<string, string>)
    ensures Indexes(trimmed, h2e, hash)
  {
    var seenE: set<string> := {};
    h2e := map[];
    for i := 0 to |trimmed|
      invariant seenE == Elements(trimmed[..i])
      invariant Indexes(trimmed[..i], h2e, hash)
    {
      var e := trimmed[i];
      assert trimmed[..i + 1] == trimmed[..i] + [e];
      IndexesSnoc(trimmed[..i], e, h2e, hash);
      ElementsSnoc(trimmed[..i], e);
      InElements(trimmed[..i], e);
      if e in seenE {
        IndexedAlready(trimmed[..i], e, h2e, hash);
        assert Elements(trimmed[..i]) + {e} == Elements(trimmed[..i]);
        continue;
      }
      seenE := seenE + {e};
      var h := hash(e);
      if h.None? { continue; }
      if h.value !in h2e {
        h2e := h2e[h.value := e];
      }
    }
    assert trimmed[..|trimmed|] == trimmed;
  }

  method TakePreferred(trimmed: seq<string>, preferredHashes: seq<string>, h2e: map<string, string>, ghost hash: Hash)
    returns (out: seq<string>, used: set<string>)
    requires Indexes(trimmed, h2e, hash)
    ensures out == Dedup(Named(trimmed, preferredHashes, hash))
    ensures used == Elements(out)
  {
    out, used := [], {};
    for i := 0 to |preferredHashes|
      invariant out == Dedup(Named(trimmed, preferredHashes[..i], hash))
      invariant used == Elements(out)
    {
      var h := TrimSpace(preferredHashes[i]);
      assert preferredHashes[..i + 1] == preferredHashes[..i] + [preferredHashes[i]];
      LeadSnoc(trimmed, preferredHashes[..i], preferredHashes[i], hash);
      if h !in h2e { continue; }
      var e := h2e[h];
      InElements(out, e);
      ElementsSnoc(out, e);
      if e in used { continue; }
      used := used + {e};
      out := out + [e];
    }
    assert preferredHashes[..|preferredHashes|] == preferredHashes;
  }

  method ReconcileEndpointOrderHashes(existing: seq<string>, endpoints: seq<string>, promotedEndpoint: string, hash: Hash)
    returns (out: seq<string>)
    ensures out == Reconciled(existing, endpoints, promotedEndpoint, hash)
  {
    var endpointHashes, inDoc := HashDocument(endpoints, hash);
    if |endpointHashes| == 0 {
      return [];
    }

    var promotedHash := FindPromoted(promotedEndpoint, endpointHashes, inDoc, hash);
    ghost var promoted := PromotedHash(endpointHashes, promotedEndpoint, hash);
    var seen: set<string> := {};
    out := [];
    if promotedHash != "" {
      out, seen := AddHash([], out, seen, promotedHash);
      assert [] + [promotedHash] == promoted;
    }
    out, seen := KeepExisting(promoted, out, seen, existing, endpointHashes, inDoc);
    out := AppendRest(Kept(promoted, existing, endpointHashes), out, seen, endpointHashes);
  }

  method FindPromoted(promotedEndpoint: string, ghost docHashes: seq<string>, inDoc: set<string>, hash: Hash)
    returns (promotedHash: string)
    requires inDoc == Elements(docHashes)
    ensures PromotedHash(docHashes, promotedEndpoint, hash) == if promotedHash != "" then [promotedHash] else []
  {
    promotedHash := "";
    if TrimSpace(promotedEndpoint) != "" {
      var h := hash(promotedEndpoint);
      if h.Some? {
        InElements(docHashes, h.value);
        if h.value in inDoc {
          promotedHash := h.value;
        }
      }
    }
  }

  method AppendRest(ghost before: seq<string>, out: seq<string>, seen: set<string>, endpointHashes: seq<string>)
    returns (out': seq<string>)
    requires out == Added(before) && seen == Elements(out)
    ensures out' == Added(before + endpointHashes)
  {
    out' := out;
    var seen' := seen;
    assert before + endpointHashes[..0] == before;
    for i := 0 to |endpointHashes|
      invariant out' == Added(before + endpointHashes[..i])
      invariant seen' == Elements(out')
    {
      PrefixNext(before, endpointHashes, i);
      out', seen' := AddHash(before + endpointHashes[..i], out', seen', endpointHashes[i]);
    }
    assert endpointHashes[..|endpointHashes|] == endpointHashes;
  }

  method HashDocument(endpoints: seq<string>, hash: Hash) returns (endpointHashes: seq<string>, inDoc: set<string>)
    ensures endpointHashes == HashesOf(Clean(endpoints), hash)
    ensures inDoc == Elements(endpointHashes)
  {
    endpointHashes, inDoc := [], {};
    for i := 0 to |endpoints|
      invariant endpointHashes == HashesOf(Clean(endpoints[..i]), hash)
      invariant inDoc == Elements(endpointHashes)
    {
      CleanNext(endpoints, i);
      var e := TrimSpace(endpoints[i]);
      if e == "" { continue; }
      HashesSnoc(Clean(endpoints[..i]), e, hash);
      var h := hash(e);
      if h.None? { continue; }
      ElementsSnoc(endpointHashes, h.value);
      endpointHashes := endpointHashes + [h.value];
      inDoc := inDoc + {h.value};
    }
    assert endpoints[..|endpoints|] == endpoints;
  }

  method KeepExisting(ghost before: seq<string>, out: seq<string>, seen: set<string>, existing: seq<string>,
                      ghost docHashes: seq<string>, inDoc: set<string>)
    returns (out': seq<string>, seen': set<string>)
    requires out == Added(before) && seen == Elements(out)
    requires inDoc == Elements(docHashes)
    ensures out' == Added(Kept(before, existing, docHashes))
    ensures seen' == Elements(out')
  {
    out', seen' := out, seen;
    assert Kept(before, existing[..0], docHashes) == before;
    for i := 0 to |existing|
      invariant out' == Added(Kept(before, existing[..i], docHashes))
      invariant seen' == Elements(out')
    {
      var h := TrimSpace(existing[i]);
      KeptNext(before, existing, docHashes, i);
      InElements(docHashes, h);
      if h !in inDoc { continue; }
      out', seen' := AddHash(Kept(before, existing[..i], docHashes), out', seen', h);
    }
    assert existing[..|existing|] == existing;
  }

  /** Appends a hash unless it is blank or already there. `before` is what was added so far. */
  method AddHash(ghost before: seq<string>, out: seq<string>, seen: set<string>, hash: string)
    returns (out': seq<string>, seen': set<string>)
    requires out == Added(before) && seen == Elements(out)
    ensures out' == Added(before + [hash]) && seen' == Elements(out')
  {
    var h := TrimSpace(hash);
    AddedSnoc(before, hash);
    InElements(out, h);
    ElementsSnoc(out, h);
    if h == "" { return out, seen; }
    if h in seen { return out, seen; }
    return out + [h], seen + {h};
  }

  // ----- unfolding one element

  lemma CleanSnoc(es: seq<string>, e: string)
    ensures Clean(es + [e]) == if Blank(e) then Clean(es) else Clean(es) + [TrimSpace(e)]
  {
    assert (es + [e])[..|es + [e]| - 1] == es;
  }

  lemma CleanNext(es: seq<string>, i: nat)
    requires i < |es|
    ensures Clean(es[..i + 1]) == if Blank(es[i]) then Clean(es[..i]) else Clean(es[..i]) + [TrimSpace(es[i])]
  {
    assert es[..i + 1] == es[..i] + [es[i]];
    CleanSnoc(es[..i], es[i]);
  }

  lemma PrefixNext(before: seq<string>, xs: seq<string>, i: nat)
    requires i < |xs|
    ensures before + xs[..i] + [xs[i]] == before + xs[..i + 1]
  {
  }

  lemma HashesSnoc(es: seq<string>, e: string, hash: Hash)
    ensures HashesOf(es + [e], hash) ==
            if hash(e).Some? then HashesOf(es, hash) + [hash(e).value] else HashesOf(es, hash)
  {
    assert (es + [e])[..|es + [e]| - 1] == es;
  }

  lemma KeptSnoc(before: seq<string>, hs: seq<string>, h: string, doc: seq<string>)
    ensures Kept(before, hs + [h], doc) ==
            if TrimSpace(h) in doc then Kept(before, hs, doc) + [TrimSpace(h)] else Kept(before, hs, doc)
  {
    assert (hs + [h])[..|hs + [h]| - 1] == hs;
  }

  lemma KeptNext(before: seq<string>, hs: seq<string>, doc: seq<string>, i: nat)
    requires i < |hs|
    ensures Kept(before, hs[..i + 1], doc) ==
            if TrimSpace(hs[i]) in doc then Kept(before, hs[..i], doc) + [TrimSpace(hs[i])] else Kept(before, hs[..i], doc)
  {
    assert hs[..i + 1] == hs[..i] + [hs[i]];
    KeptSnoc(before, hs[..i], hs[i], doc);
  }

  lemma AddedSnoc(hs: seq<string>, h: string)
    ensures Added(hs + [h]) ==
            if TrimSpace(h) == "" || TrimSpace(h) in Added(hs) then Added(hs) else Added(hs) + [TrimSpace(h)]
  {
    assert (hs + [h])[..|hs + [h]| - 1] == hs;
  }

  lemma {:induction false} AddedIsDedup(hs: seq<string>)
    ensures Added(hs) == Dedup(Clean(hs))
  {
    if hs != [] {
      var front, h := hs[..|hs| - 1], TrimSpace(hs[|hs| - 1]);
      AddedIsDedup(front);
      if h != "" {
        DedupSnoc(Clean(front), h);
        InDedup(Clean(front), h);
      } else {
        assert Clean(hs) == Clean(front);
      }
    }
  }

  lemma LeadSnoc(es: seq<string>, hs: seq<string>, h: string, hash: Hash)
    ensures var lead, found := Dedup(Named(es, hs, hash)), FirstWith(es, TrimSpace(h), hash);
            Dedup(Named(es, hs + [h], hash)) ==
            if found.Some? && found.value !in lead then lead + [found.value] else lead
  {
    NamedSnoc(es, hs, h, hash);
    var found := FirstWith(es, TrimSpace(h), hash);
    if found.Some? {
      DedupSnoc(Named(es, hs, hash), found.value);
      InDedup(Named(es, hs, hash), found.value);
    }
  }

  lemma NamedSnoc(es: seq<string>, hs: seq<string>, h: string, hash: Hash)
    ensures Named(es, hs + [h], hash) ==
            var found := FirstWith(es, TrimSpace(h), hash);
            if found.Some? then Named(es, hs, hash) + [found.value] else Named(es, hs, hash)
  {
    assert (hs + [h])[..|hs + [h]| - 1] == hs;
  }

  lemma FirstWithSnoc(es: seq<string>, e: string, hash: Hash)
    ensures forall h :: FirstWith(es + [e], h, hash) ==
                        if FirstWith(es, h, hash).Some? then FirstWith(es, h, hash)
                        else if hash(e) == Some(h) then Some(e) else None
  {
    assert (es + [e])[..|es + [e]| - 1] == es;
  }

  lemma {:induction false} FirstWithFinds(es: seq<string>, h: string, hash: Hash)
    ensures FirstWith(es, h, hash).Some? ==>
              FirstWith(es, h, hash).value in es && hash(FirstWith(es, h, hash).value) == Some(h)
    ensures FirstWith(es, h, hash).None? ==> forall e <- es :: hash(e) != Some(h)
  {
    if es != [] {
      FirstWithFinds(es[..|es| - 1], h, hash);
      assert forall e <- es :: e in es[..|es| - 1] || e == es[|es| - 1];
    }
  }

  lemma {:induction false} CleanIsClean(es: seq<string>)
    ensures forall e <- Clean(es) :: e != "" && Trimmed(e)
  {
    if es != [] {
      CleanIsClean(es[..|es| - 1]);
    }
  }

  ghost predicate AllClean(es: seq<string>) {
    forall i :: 0 <= i < |es| ==> es[i] != "" && Trimmed(es[i])
  }

  lemma {:induction false} CleanOfCleaned(es: seq<string>)
    requires AllClean(es)
    ensures Clean(es) == es
  {
    if es != [] {
      CleanOfCleaned(es[..|es| - 1]);
      CleanKeeps(es[..|es| - 1], es[|es| - 1]);
      assert es == es[..|es| - 1] + [es[|es| - 1]];
    }
  }

  lemma CleanKeeps(front: seq<string>, last: string)
    requires Clean(front) == front && last != "" && Trimmed(last)
    ensures Clean(front + [last]) == front + [last]
  {
    CleanSnoc(front, last);
  }

  lemma CleanOfClean(es: seq<string>)
    requires forall e <- es :: e != "" && Trimmed(e)
    ensures Clean(es) == es
  {
    assert forall i :: 0 <= i < |es| ==> es[i] in es;
    CleanOfCleaned(es);
  }

  /** `e` is one of the endpoints, trimmed. */
  ghost predicate Mentions(es: seq<string>, e: string) {
    exists i :: 0 <= i < |es| && TrimSpace(es[i]) == e
  }

  lemma MentionsLast(es: seq<string>, e: string)
    requires es != []
    ensures Mentions(es, e) <==> Mentions(es[..|es| - 1], e) || TrimSpace(es[|es| - 1]) == e
  {
    var front := es[..|es| - 1];
    assert forall i :: 0 <= i < |front| ==> TrimSpace(front[i]) == TrimSpace(es[i]);
  }

  /** Cleaning loses no endpoint and invents none. */
  lemma {:induction false} InClean(es: seq<string>, e: string)
    ensures e in Clean(es) <==> e != "" && Mentions(es, e)
  {
    if es != [] {
      InClean(es[..|es| - 1], e);
      MentionsLast(es, e);
    }
  }

  lemma {:induction false} HashContents(es: seq<string>, hash: Hash)
    ensures forall h :: h in HashesOf(es, hash) <==> exists e <- es :: hash(e) == Some(h)
  {
    if es != [] {
      var front, last := es[..|es| - 1], es[|es| - 1];
      HashContents(front, hash);
      assert forall e <- es :: e in front || e == last;
      assert last in es;
    }
  }
}
