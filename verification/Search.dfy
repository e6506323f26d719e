/** Customer identification. Hits are the rows of the union of match sources; a
    ranking is one best row per customer, strongest tier first, in any tie order. */
module Search {
  datatype Hit = Hit(customer: nat, tier: int)

  const STRONG_TIER_MIN := 70
  const MAX_CANDIDATE_LIMIT := 10

  // ---- one row per customer, strongest first -----------------------------------

  ghost predicate IsBest(hits: seq<Hit>, h: Hit) {
    h in hits && forall g :: g in hits && g.customer == h.customer ==> g.tier <= h.tier
  }

  ghost predicate IsRanking(hits: seq<Hit>, ranking: seq<Hit>) {
    (forall h :: h in ranking <==> IsBest(hits, h))
    && (forall i, j :: 0 <= i < j < |ranking| ==> ranking[i].tier >= ranking[j].tier)
    && (forall i, j :: 0 <= i < j < |ranking| ==> ranking[i].customer != ranking[j].customer)
  }

  function Without(ranking: seq<Hit>, customer: nat): (r: seq<Hit>)
    ensures forall h :: h in r <==> h in ranking && h.customer != customer
  {
    if ranking == [] then []
    else
      (if ranking[0].customer == customer then [] else [ranking[0]]) + Without(ranking[1..], customer)
  }

  function Place(ranking: seq<Hit>, h: Hit): (r: seq<Hit>)
    ensures forall g :: g in r <==> g == h || g in ranking
  {
    if ranking == [] || ranking[0].tier < h.tier then [h] + ranking
    else [ranking[0]] + Place(ranking[1..], h)
  }

  /** The search result: fold the hits into a ranking, keeping each customer's best. */
  function Rank(hits: seq<Hit>): seq<Hit> {
    if hits == [] then []
    else
      var h, ranking := hits[|hits| - 1], Rank(hits[..|hits| - 1]);
      if exists g :: g in ranking && g.customer == h.customer && h.tier <= g.tier then ranking
      else Place(Without(ranking, h.customer), h)
  }

  ghost predicate Ordered(ranking: seq<Hit>) {
    (forall i, j :: 0 <= i < j < |ranking| ==> ranking[i].tier >= ranking[j].tier)
    && (forall i, j :: 0 <= i < j < |ranking| ==> ranking[i].customer != ranking[j].customer)
  }

  lemma {:induction false} WithoutKeepsOrder(ranking: seq<Hit>, customer: nat)
    requires Ordered(ranking)
    ensures Ordered(Without(ranking, customer))
  {
    if ranking != [] {
      var rest := Without(ranking[1..], customer);
      WithoutKeepsOrder(ranking[1..], customer);
      RestIsBelow(ranking, rest);
      if ranking[0].customer == customer {
        assert Without(ranking, customer) == rest;
      } else {
        HeadKeepsOrder(ranking[0], rest);
      }
    }
  }

  lemma {:induction false} RestIsBelow(ranking: seq<Hit>, rest: seq<Hit>)
    requires ranking != [] && Ordered(ranking) && forall h :: h in rest ==> h in ranking[1..]
    ensures forall j :: 0 <= j < |rest| ==> rest[j].tier <= ranking[0].tier && rest[j].customer != ranking[0].customer
  {
    forall j | 0 <= j < |rest| ensures rest[j].tier <= ranking[0].tier && rest[j].customer != ranking[0].customer {
      assert rest[j] in ranking[1..];
    }
  }

  lemma {:induction false} HeadKeepsOrder(h: Hit, rest: seq<Hit>)
    requires Ordered(rest)
    requires forall j :: 0 <= j < |rest| ==> rest[j].tier <= h.tier && rest[j].customer != h.customer
    ensures Ordered([h] + rest)
  {
  }

  lemma {:induction false} PlaceKeepsOrder(ranking: seq<Hit>, h: Hit)
    requires Ordered(ranking) && forall g :: g in ranking ==> g.customer != h.customer
    ensures Ordered(Place(ranking, h))
  {
    if ranking != [] && h.tier <= ranking[0].tier {
      PlaceKeepsOrder(ranking[1..], h);
      var rest := Place(ranking[1..], h);
      forall j | 0 <= j < |rest| ensures rest[j].tier <= ranking[0].tier && rest[j].customer != ranking[0].customer {
        assert rest[j] == h || rest[j] in ranking[1..];
      }
    }
  }

  ghost predicate HoldsBests(hits: seq<Hit>, ranking: seq<Hit>) {
    forall h :: h in ranking <==> IsBest(hits, h)
  }

  /** Adding a hit below (or equal to) its customer's best changes no best. */
  lemma BestsUnchanged(before: seq<Hit>, ranking: seq<Hit>, h: Hit, g: Hit)
    requires HoldsBests(before, ranking) && g in ranking && g.customer == h.customer && h.tier <= g.tier
    ensures HoldsBests(before + [h], ranking)
  {
    assert IsBest(before, g);
    forall x ensures x in ranking <==> IsBest(before + [h], x) {
      assert IsBest(before + [h], x) ==> h.customer != x.customer || h.tier <= x.tier;
      if x == h { assert IsBest(before + [h], x) ==> g.tier <= x.tier; }
    }
  }

  /** A hit above every earlier one of its customer replaces that customer's best. */
  lemma BestsReplaced(before: seq<Hit>, ranking: seq<Hit>, h: Hit)
    requires HoldsBests(before, ranking)
    requires forall g :: g in ranking && g.customer == h.customer ==> g.tier < h.tier
    ensures HoldsBests(before + [h], Place(Without(ranking, h.customer), h))
  {
    forall g | g in before && g.customer == h.customer ensures g.tier < h.tier {
      var best := BestOf(before, g);
      assert best in ranking;
    }
    forall x ensures x in Place(Without(ranking, h.customer), h) <==> IsBest(before + [h], x) {
      if x.customer != h.customer {
        assert IsBest(before + [h], x) <==> IsBest(before, x);
      } else if IsBest(before + [h], x) {
        assert h in before + [h];
      }
    }
  }

  /** Every collection of hits has a ranking, and `Rank` computes one. */
  lemma {:induction false} RankIsRanking(hits: seq<Hit>)
    ensures IsRanking(hits, Rank(hits))
  {
    if hits != [] {
      var h, before := hits[|hits| - 1], hits[..|hits| - 1];
      assert hits == before + [h];
      RankIsRanking(before);
      OneMoreRanked(before, Rank(before), h);
    }
  }

  lemma OneMoreRanked(before: seq<Hit>, ranking: seq<Hit>, h: Hit)
    requires HoldsBests(before, ranking) && Ordered(ranking)
    ensures var next := if exists g :: g in ranking && g.customer == h.customer && h.tier <= g.tier then ranking
                        else Place(Without(ranking, h.customer), h);
            HoldsBests(before + [h], next) && Ordered(next)
  {
    if g :| g in ranking && g.customer == h.customer && h.tier <= g.tier {
      BestsUnchanged(before, ranking, h, g);
    } else {
      BestsReplaced(before, ranking, h);
      WithoutKeepsOrder(ranking, h.customer);
      PlaceKeepsOrder(Without(ranking, h.customer), h);
    }
  }

  lemma {:induction false} BestOf(hits: seq<Hit>, g: Hit) returns (best: Hit)
    requires g in hits
    ensures IsBest(hits, best) && best.customer == g.customer && g.tier <= best.tier
  {
    best := g;
    var i := 0;
    while i < |hits|
      invariant 0 <= i <= |hits|
      invariant best in hits && best.customer == g.customer && g.tier <= best.tier
      invariant forall k :: 0 <= k < i && hits[k].customer == g.customer ==> hits[k].tier <= best.tier
    {
      if hits[i].customer == g.customer && best.tier < hits[i].tier {
        best := hits[i];
      }
      i := i + 1;
    }
  }

  // ---- the decision ------------------------------------------------------------

  datatype Resolution =
    | Resolved(customer: nat)
    | Ambiguous(candidates: seq<Hit>)
    | NotFound

  function Clamp(limit: int): (r: int)
    ensures 1 <= r <= MAX_CANDIDATE_LIMIT
  {
    if limit < 1 then 1 else if MAX_CANDIDATE_LIMIT < limit then MAX_CANDIDATE_LIMIT else limit
  }

  function Take(ranking: seq<Hit>, n: nat): seq<Hit> {
    if n < |ranking| then ranking[..n] else ranking
  }

  function AtTier(matches: seq<Hit>, tier: int): (r: seq<Hit>)
    ensures |r| <= |matches|
  {
    if matches == [] then []
    else (if matches[0].tier == tier then [matches[0]] else []) + AtTier(matches[1..], tier)
  }

  /** Decide from at most `limit + 1` matches, strongest first. */
  function ResolveCustomer(blank: bool, ranking: seq<Hit>, limit: int): Resolution {
    var matches := Take(ranking, Clamp(limit) + 1);
    if blank || matches == [] then NotFound
    else
      var best := matches[0].tier;
      var atBest := AtTier(matches, best);
      if STRONG_TIER_MIN <= best && |atBest| == 1 then Resolved(atBest[0].customer)
      else Ambiguous(Take(matches, Clamp(limit)))
  }

  lemma {:induction false} AtTierOfSorted(matches: seq<Hit>)
    requires Ordered(matches) && matches != []
    ensures var r := AtTier(matches, matches[0].tier);
            1 <= |r| && r[0] == matches[0]
            && (|r| == 1 <==> |matches| == 1 || matches[1].tier < matches[0].tier)
  {
    var best := matches[0].tier;
    var rest := matches[1..];
    if rest != [] {
      if rest[0].tier == best {
        AtTierOfSorted(rest);
      } else {
        AtTierBelow(rest, best);
      }
    }
  }

  lemma {:induction false} AtTierBelow(matches: seq<Hit>, tier: int)
    requires forall i :: 0 <= i < |matches| ==> matches[i].tier < tier
    ensures AtTier(matches, tier) == []
  {
    if matches != [] {
      AtTierBelow(matches[1..], tier);
    }
  }

  /** Over ALL hits: one customer alone reaches the strongest tier, and it is strong. */
  ghost predicate Identifies(hits: seq<Hit>, customer: nat, tier: int) {
    70 <= tier && Hit(customer, tier) in hits
    && (forall g :: g in hits ==> g.tier <= tier)
    && (forall g :: g in hits && g.tier == tier ==> g.customer == customer)
  }

  lemma RankedIsHit(hits: seq<Hit>, ranking: seq<Hit>, k: nat)
    requires IsRanking(hits, ranking) && k < |ranking|
    ensures ranking[k] in hits
  {
    assert IsBest(hits, ranking[k]);
  }

  /** The strongest hit stands first, and whoever reaches its tier stands in the ranking. */
  lemma TopOfRanking(hits: seq<Hit>, ranking: seq<Hit>)
    requires IsRanking(hits, ranking) && hits != []
    ensures ranking != [] && IsBest(hits, ranking[0])
    ensures forall g :: g in hits ==> g.tier <= ranking[0].tier && (g.tier == ranking[0].tier ==> g in ranking)
  {
    var any := BestOf(hits, hits[0]);
    assert any in ranking && ranking[0] in ranking;
    forall g | g in hits ensures g.tier <= ranking[0].tier && (g.tier == ranking[0].tier ==> g in ranking) {
      var best := BestOf(hits, g);
      assert best in ranking;
    }
  }

  /** So the first two decide. */
  lemma IdentifiedIsAlone(hits: seq<Hit>, ranking: seq<Hit>, customer: nat)
    requires IsRanking(hits, ranking) && hits != [] && ranking != []
    ensures (exists tier :: Identifies(hits, customer, tier))
            <==> 70 <= ranking[0].tier && ranking[0].customer == customer
                 && (|ranking| == 1 || ranking[1].tier < ranking[0].tier)
  {
    var top := ranking[0];
    TopOfRanking(hits, ranking);
    if tier :| Identifies(hits, customer, tier) {
      assert tier == top.tier && top.customer == customer;
      if 1 < |ranking| {
        assert IsBest(hits, ranking[1]);
      }
    }
    if 70 <= top.tier && top.customer == customer && (|ranking| == 1 || ranking[1].tier < top.tier) {
      forall g | g in hits && g.tier == top.tier ensures g.customer == customer {
        var k :| 0 <= k < |ranking| && ranking[k] == g;
      }
      assert Identifies(hits, customer, top.tier);
    }
  }

  /** Truncation never changes identification, whatever the limit and the tie order. */
  lemma ResolvesExactlyTheIdentified(hits: seq<Hit>, ranking: seq<Hit>, limit: int, customer: nat)
    requires IsRanking(hits, ranking)
    ensures ResolveCustomer(false, ranking, limit) == Resolved(customer)
            <==> exists tier :: Identifies(hits, customer, tier)
    ensures ResolveCustomer(false, ranking, limit) == NotFound <==> hits == []
  {
    if hits == [] {
      if ranking != [] {
        RankedIsHit(hits, ranking, 0);
      }
    } else {
      TopOfRanking(hits, ranking);
      IdentifiedIsAlone(hits, ranking, customer);
      AtTierOfSorted(Take(ranking, Clamp(limit) + 1));
    }
  }

  /** What an AMBIGUOUS answer carries: of the customers that match, as many as were asked
      for, between one and ten, each with its strongest match, strongest first; and nobody
      who is left out has a stronger one. */
  ghost predicate Offers(hits: seq<Hit>, limit: int, candidates: seq<Hit>) {
    (forall h :: h in candidates ==> IsBest(hits, h))
    && (forall i, j :: 0 <= i < j < |candidates| ==> candidates[i].tier >= candidates[j].tier)
    && (forall i, j :: 0 <= i < j < |candidates| ==> candidates[i].customer != candidates[j].customer)
    && (forall g, h :: IsBest(hits, g) && g !in candidates && h in candidates ==> g.tier <= h.tier)
    && |candidates| <= (if limit < 1 then 1 else if limit <= 10 then limit else 10)
    && (|candidates| < (if limit < 1 then 1 else if limit <= 10 then limit else 10) ==>
          forall g :: IsBest(hits, g) ==> g in candidates)
  }

  /** A blank query finds nobody. Any other is AMBIGUOUS exactly when somebody matches and
      nobody is identified, and then offers its strongest candidates. */
  lemma AmbiguousExactly(hits: seq<Hit>, ranking: seq<Hit>, limit: int)
    requires IsRanking(hits, ranking)
    ensures ResolveCustomer(true, ranking, limit) == NotFound
    ensures ResolveCustomer(false, ranking, limit).Ambiguous?
            <==> hits != [] && forall customer, tier :: !Identifies(hits, customer, tier)
    ensures ResolveCustomer(false, ranking, limit).Ambiguous? ==>
              Offers(hits, limit, ResolveCustomer(false, ranking, limit).candidates)
  {
    var r := ResolveCustomer(false, ranking, limit);
    ResolvesExactlyTheIdentified(hits, ranking, limit, 0);
    if r.Resolved? {
      ResolvesExactlyTheIdentified(hits, ranking, limit, r.customer);
    }
    if customer, tier :| Identifies(hits, customer, tier) {
      ResolvesExactlyTheIdentified(hits, ranking, limit, customer);
    }
    if r.Ambiguous? {
      assert r.candidates == Take(ranking, Clamp(limit));
      TopIsOffered(hits, ranking, limit);
    }
  }

  lemma TopIsOffered(hits: seq<Hit>, ranking: seq<Hit>, limit: int)
    requires IsRanking(hits, ranking)
    ensures Offers(hits, limit, Take(ranking, Clamp(limit)))
  {
    var top := Take(ranking, Clamp(limit));
    assert forall k :: 0 <= k < |top| ==> top[k] == ranking[k];
    forall h | h in top ensures IsBest(hits, h) {
      assert h in ranking;
    }
    forall g, h | IsBest(hits, g) && g !in top && h in top ensures g.tier <= h.tier {
      assert g in ranking;
      var i :| 0 <= i < |ranking| && ranking[i] == g;
      var j :| 0 <= j < |top| && top[j] == h;
    }
  }

  // ---- whole-word matching -----------------------------------------------------

  predicate IsToken(t: string) {
    0 < |t| && forall i :: 0 <= i < |t| ==> t[i] != ' '
  }

  predicate AreTokens(ts: seq<string>) {
    forall i :: 0 <= i < |ts| ==> IsToken(ts[i])
  }

  /** A stored name: its tokens joined by single spaces. */
  function Joined(ts: seq<string>): string {
    if ts == [] then "" else if |ts| == 1 then ts[0] else ts[0] + " " + Joined(ts[1..])
  }

  predicate OccursAt(pattern: string, text: string, p: nat) {
    p + |pattern| <= |text| && forall i :: 0 <= i < |pattern| ==> text[p + i] == pattern[i]
  }

  predicate Occurs(pattern: string, text: string) {
    exists p :: 0 <= p <= |text| && OccursAt(pattern, text, p)
  }

  /** `padded LIKE '% token %'` for every token of the query. */
  predicate WholeWordMatch(column: string, query: seq<string>) {
    forall i :: 0 <= i < |query| ==> Occurs(" " + query[i] + " ", " " + column + " ")
  }

  /** Where a padded token starts a text that itself starts with a padded word, the two
      are the same word: both run to the first space. */
  lemma FirstWordMatches(t: string, w: string, rest: string)
    requires IsToken(t) && IsToken(w)
    ensures OccursAt(" " + t + " ", " " + w + " " + rest, 0) <==> t == w
  {
    var pattern, text := " " + t + " ", " " + w + " " + rest;
    assert forall i :: 0 <= i < |t| ==> pattern[i + 1] == t[i];
    assert forall i :: 0 <= i < |w| ==> text[i + 1] == w[i];
    assert pattern[|t| + 1] == ' ' && text[|w| + 1] == ' ';
    if OccursAt(pattern, text, 0) {
      forall i | 1 <= i <= |t| ensures text[i] == t[i - 1] != ' ' {
        assert text[0 + i] == pattern[i];
      }
      assert forall i :: 1 <= i <= |w| ==> text[i] == w[i - 1] != ' ';
      assert text[0 + (|t| + 1)] == ' ';
      assert |t| == |w|;
      assert forall i :: 0 <= i < |t| ==> t[i] == text[i + 1] == w[i];
    }
  }

  /** A padded token starting later can only start at or after the word's closing space. */
  lemma LaterOccurrence(t: string, w: string, rest: string, p: nat)
    requires IsToken(t) && IsToken(w) && 0 < p
    requires OccursAt(" " + t + " ", " " + w + " " + rest, p)
    ensures |w| + 1 <= p && OccursAt(" " + t + " ", " " + rest, p - (|w| + 1))
  {
    var pattern, text, tail := " " + t + " ", " " + w + " " + rest, " " + rest;
    assert text[p + 0] == pattern[0] == ' ';
    assert forall i :: 1 <= i < |w| + 1 ==> text[i] == w[i - 1];
    assert text[|w| + 1..] == tail;
    var q := p - (|w| + 1);
    forall i | 0 <= i < |pattern| ensures tail[q + i] == pattern[i] {
      assert tail[q + i] == text[p + i];
    }
  }

  /** Peeling the first word off a padded text. */
  lemma FirstWord(t: string, w: string, rest: string)
    requires IsToken(t) && IsToken(w)
    ensures Occurs(" " + t + " ", " " + w + " " + rest) <==> t == w || Occurs(" " + t + " ", " " + rest)
  {
    var pattern, text, tail := " " + t + " ", " " + w + " " + rest, " " + rest;
    FirstWordMatches(t, w, rest);
    assert t == w ==> OccursAt(pattern, text, 0);
    if Occurs(pattern, tail) {
      var p: nat :| p <= |tail| && OccursAt(pattern, tail, p);
      var q := p + |w| + 1;
      assert text[|w| + 1..] == tail;
      forall i | 0 <= i < |pattern| ensures text[q + i] == pattern[i] {
        assert text[q + i] == tail[p + i];
      }
      assert OccursAt(pattern, text, q);
    }
    if Occurs(pattern, text) {
      var p: nat :| p <= |text| && OccursAt(pattern, text, p);
      if 0 < p {
        LaterOccurrence(t, w, rest, p);
      }
    }
  }

  /** A padded token occurs in a padded column exactly when it is one of its words. */
  lemma {:induction false} OccursIffWord(t: string, ts: seq<string>)
    requires IsToken(t) && AreTokens(ts)
    ensures Occurs(" " + t + " ", " " + Joined(ts) + " ") <==> t in ts
  {
    var text, pattern := " " + Joined(ts) + " ", " " + t + " ";
    if |ts| <= 1 {
      assert pattern[1] == t[0];
      forall p: nat ensures !OccursAt(pattern, " ", p) && !OccursAt(pattern, "  ", p) {
      }
      if |ts| == 1 {
        FirstWord(t, ts[0], "");
        assert text == " " + ts[0] + " " + "";
        assert " " + "" == " ";
      } else {
        assert text == "  ";
      }
    } else {
      var rest := Joined(ts[1..]) + " ";
      OccursIffWord(t, ts[1..]);
      FirstWord(t, ts[0], rest);
      assert text == " " + ts[0] + " " + rest;
      assert " " + rest == " " + Joined(ts[1..]) + " ";
      assert t in ts <==> t == ts[0] || t in ts[1..];
    }
  }

  /** Whole-word matching is containment of token sets, so word order is irrelevant. */
  lemma WholeWordIsTokenSubset(column: seq<string>, query: seq<string>)
    requires AreTokens(column) && AreTokens(query)
    ensures WholeWordMatch(Joined(column), query) <==> (set t | t in query) <= (set t | t in column)
  {
    forall i | 0 <= i < |query|
      ensures Occurs(" " + query[i] + " ", " " + Joined(column) + " ") <==> query[i] in column
    {
      OccursIffWord(query[i], column);
    }
    var wanted, held := set t | t in query, set t | t in column;
    assert WholeWordMatch(Joined(column), query) <==> forall i :: 0 <= i < |query| ==> query[i] in column;
    assert forall t :: t in wanted <==> t in query;
    assert forall t :: t in held <==> t in column;
    assert wanted <= held ==> forall i :: 0 <= i < |query| ==> query[i] in wanted;
  }
}
