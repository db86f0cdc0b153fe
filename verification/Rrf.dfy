/**
 Reciprocal rank fusion: the hits of two arms accumulated into one entry per chunk, in order
 of score. Scores are reals; `less` stands for localeCompare(a, b) < 0.
 */
module Rrf {
  import opened Common
  import opened Candidates
  import opened OrderedMaps
  import opened Sorting

  const RRF_K := 60

  /** What the hit at this index adds to the score of its chunk. */
  function Contribution(index: nat): real {
    1.0 / (RRF_K + index + 1) as real
  }

  lemma ContributionFalls(i: nat, j: nat)
    ensures Contribution(i) > 0.0
    ensures i < j ==> Contribution(j) < Contribution(i)
  {
  }

  // ----- reference: one chunk's entry from all its hits -----

  /** A hit and its place in its arm. */
  datatype Place = Place(hit: Candidate, index: nat)

  function Places(hits: seq<Candidate>): (ps: seq<Place>)
    ensures |ps| == |hits| && forall i :: 0 <= i < |hits| ==> ps[i] == Place(hits[i], i)
  {
    seq(|hits|, i requires 0 <= i < |hits| => Place(hits[i], i))
  }

  function ChunkOf(p: Place): string { p.hit.chunkId }

  function Total(ps: seq<Place>): real {
    if ps == [] then 0.0 else Contribution(ps[0].index) + Total(ps[1..])
  }

  function FirstSome<T>(xs: seq<Option<T>>): Option<T> {
    if xs == [] then None else if xs[0].Some? then xs[0] else FirstSome(xs[1..])
  }

  function OwnText(p: Place): Option<string> { if |p.hit.text| > 0 then Some(p.hit.text) else None }

  function OwnVectorScore(p: Place): Option<real> { if p.hit.arm.VectorArm? then p.hit.vectorScore else None }

  function OwnFtsScore(p: Place): Option<real> { if p.hit.arm.FtsArm? then p.hit.ftsScore else None }

  /** The scores add up; every other field is the first one there is. */
  function Merged(ps: seq<Place>): Fused
    requires ps != []
  {
    Fused(ps[0].hit.chunkId, ps[0].hit.projectId, ps[0].hit.documentId,
          FirstSome(Map(ps, OwnText)).GetOr(""),
          Total(ps),
          FirstSome(Map(ps, OwnVectorScore)),
          FirstSome(Map(ps, OwnFtsScore)))
  }

  lemma {:induction false} TotalAppend(a: seq<Place>, b: seq<Place>)
    ensures Total(a + b) == Total(a) + Total(b)
  {
    if a == [] {
      assert a + b == b;
    } else {
      assert (a + b)[0] == a[0] && (a + b)[1..] == a[1..] + b;
      TotalAppend(a[1..], b);
    }
  }

  lemma {:induction false} FirstSomeAppend<T>(xs: seq<Option<T>>, x: Option<T>)
    ensures FirstSome(xs + [x]) == if FirstSome(xs).Some? then FirstSome(xs) else x
  {
    if xs == [] {
      assert xs + [x] == [x];
    } else {
      assert (xs + [x])[0] == xs[0] && (xs + [x])[1..] == xs[1..] + [x];
      FirstSomeAppend(xs[1..], x);
    }
  }

  lemma FirstOfAppend<T>(ps: seq<Place>, p: Place, own: Place -> Option<T>)
    ensures FirstSome(Map(ps + [p], own)) == if FirstSome(Map(ps, own)).Some? then FirstSome(Map(ps, own)) else own(p)
  {
    assert Map(ps + [p], own) == Map(ps, own) + [own(p)];
    FirstSomeAppend(Map(ps, own), own(p));
  }

  // ----- the accumulation -----

  /** The entry that a first hit creates. */
  function Entry(p: Place): Fused {
    Fused(p.hit.chunkId, p.hit.projectId, p.hit.documentId, p.hit.text, Contribution(p.index),
          OwnVectorScore(p), OwnFtsScore(p))
  }

  /** The entry after a further hit. */
  function Extended(was: Fused, p: Place): Fused {
    was.(text := if |was.text| > 0 then was.text else p.hit.text,
         rrfScore := was.rrfScore + Contribution(p.index),
         vectorScore := if was.vectorScore.Some? then was.vectorScore else OwnVectorScore(p),
         ftsScore := if was.ftsScore.Some? then was.ftsScore else OwnFtsScore(p))
  }

  lemma FirstOfOne<T>(p: Place, own: Place -> Option<T>)
    ensures FirstSome(Map([p], own)) == own(p)
  {
    assert Map([p], own) == [] + [own(p)];
    FirstSomeAppend([], own(p));
  }

  lemma EntryIsMerged(p: Place)
    ensures Entry(p) == Merged([p])
  {
    FirstOfOne(p, OwnText);
    FirstOfOne(p, OwnVectorScore);
    FirstOfOne(p, OwnFtsScore);
    assert Total([p]) == Contribution(p.index) + Total([]);
    assert |p.hit.text| == 0 ==> p.hit.text == "";
  }

  lemma {:induction false} FirstTextNotEmpty(ps: seq<Place>)
    ensures FirstSome(Map(ps, OwnText)).Some? ==> |FirstSome(Map(ps, OwnText)).value| > 0
  {
    if ps != [] {
      assert Map(ps, OwnText)[1..] == Map(ps[1..], OwnText);
      FirstTextNotEmpty(ps[1..]);
    }
  }

  lemma ExtendedIsMerged(ps: seq<Place>, p: Place)
    requires ps != []
    ensures Extended(Merged(ps), p) == Merged(ps + [p])
  {
    TotalAppend(ps, [p]);
    FirstOfAppend(ps, p, OwnText);
    FirstOfAppend(ps, p, OwnVectorScore);
    FirstOfAppend(ps, p, OwnFtsScore);
    FirstTextNotEmpty(ps);
  }

  /** The entry of a chunk is merged from all its hits. */
  ghost predicate Right(entries: map<string, Fused>, seen: seq<Place>, k: string) {
    k in entries ==>
      var ps := Members(seen, ChunkOf, k);
      ps != [] && entries[k] == Merged(ps)
  }

  /** One entry per chunk seen, in the order of first sight. */
  ghost predicate Accumulated(scores: OrderedMap<string, Fused>, seen: seq<Place>) {
    && scores.Valid()
    && scores.keys == FirstSeen(Map(seen, ChunkOf))
    && forall k :: k in scores.entries ==> Right(scores.entries, seen, k)
  }

  /** The map after one more hit. */
  function Added(scores: OrderedMap<string, Fused>, p: Place): OrderedMap<string, Fused> {
    var k := ChunkOf(p);
    scores.Set(k, if k in scores.entries then Extended(scores.entries[k], p) else Entry(p))
  }

  lemma AddedRight(scores: OrderedMap<string, Fused>, seen: seq<Place>, p: Place, k: string)
    requires k in scores.entries ==> Right(scores.entries, seen, k)
    requires k !in scores.entries ==> k !in Map(seen, ChunkOf)
    ensures Right(Added(scores, p).entries, seen + [p], k)
  {
    MembersAppend(seen, p, ChunkOf, k);
    var ps := Members(seen, ChunkOf, k);
    if ChunkOf(p) != k {
      assert ps + [] == ps;
    } else if k in scores.entries {
      ExtendedIsMerged(ps, p);
    } else {
      NoMembers(seen, ChunkOf, k);
      assert ps + [p] == [p];
      EntryIsMerged(p);
    }
  }

  lemma AddedKeys(scores: OrderedMap<string, Fused>, seen: seq<Place>, p: Place)
    requires scores.Valid() && scores.keys == FirstSeen(Map(seen, ChunkOf))
    ensures Added(scores, p).Valid() && Added(scores, p).keys == FirstSeen(Map(seen + [p], ChunkOf))
  {
    var ids := Map(seen + [p], ChunkOf);
    assert ids[..|ids| - 1] == Map(seen, ChunkOf);
    assert ChunkOf(p) in scores.entries <==> ChunkOf(p) in scores.keys;
  }

  lemma AddedAccumulated(scores: OrderedMap<string, Fused>, seen: seq<Place>, p: Place)
    requires Accumulated(scores, seen)
    ensures Accumulated(Added(scores, p), seen + [p])
  {
    AddedKeys(scores, seen, p);
    forall k | k in Added(scores, p).entries ensures Right(Added(scores, p).entries, seen + [p], k) {
      assert k in scores.entries <==> k in scores.keys;
      AddedRight(scores, seen, p, k);
    }
  }

  /** One turn of addArm's loop. */
  method AddHit(scores: OrderedMap<string, Fused>, hit: Candidate, index: nat, ghost seen: seq<Place>)
    returns (next: OrderedMap<string, Fused>)
    requires Accumulated(scores, seen)
    ensures Accumulated(next, seen + [Place(hit, index)])
  {
    AddedAccumulated(scores, seen, Place(hit, index));
    if hit.chunkId !in scores.entries {
      next := scores.Set(hit.chunkId, Entry(Place(hit, index)));
    } else {
      next := scores.Set(hit.chunkId, Extended(scores.entries[hit.chunkId], Place(hit, index)));
    }
  }

  method AddArm(scores: OrderedMap<string, Fused>, hits: seq<Candidate>, ghost seen: seq<Place>)
    returns (next: OrderedMap<string, Fused>)
    requires Accumulated(scores, seen)
    ensures Accumulated(next, seen + Places(hits))
  {
    next := scores;
    ghost var ps := Places(hits);
    assert seen + ps[..0] == seen;
    for index := 0 to |hits|
      invariant Accumulated(next, seen + ps[..index])
    {
      next := AddHit(next, hits[index], index, seen + ps[..index]);
      assert seen + ps[..index + 1] == seen + ps[..index] + [Place(hits[index], index)];
    }
    assert ps[..|hits|] == ps;
  }

  // ----- fusion -----

  predicate FusedBefore(a: Fused, b: Fused, less: (string, string) -> bool) {
    if a.rrfScore != b.rrfScore then a.rrfScore > b.rrfScore else less(a.chunkId, b.chunkId)
  }

  function FusedOrder(less: (string, string) -> bool): (Fused, Fused) -> bool {
    (a: Fused, b: Fused) => FusedBefore(a, b, less)
  }

  /** localeCompare tells any two different ids apart. */
  ghost predicate TotalOrder(less: (string, string) -> bool) {
    StrictWeakOrder(less) && forall a, b :: a != b ==> less(a, b) || less(b, a)
  }

  lemma FusedOrderIsOrder(less: (string, string) -> bool)
    requires StrictWeakOrder(less)
    ensures StrictWeakOrder(FusedOrder(less))
  {
  }

  predicate Identified(hits: seq<Candidate>) {
    forall i :: 0 <= i < |hits| ==> hits[i].chunkId != "" && hits[i].projectId != "" && hits[i].documentId != ""
  }

  function IdOf(c: Fused): string { c.chunkId }

  function HitId(c: Candidate): string { c.chunkId }

  /** All the hits of a chunk, the vector arm's first. */
  function Occurrences(vectorHits: seq<Candidate>, ftsHits: seq<Candidate>, id: string): seq<Place> {
    Members(Places(vectorHits) + Places(ftsHits), ChunkOf, id)
  }

  ghost predicate IsFusion(r: seq<Fused>, vectorHits: seq<Candidate>, ftsHits: seq<Candidate>,
                           less: (string, string) -> bool) {
    && Sorted(r, FusedOrder(less))
    && Distinct(Map(r, IdOf))
    && (forall id :: id in Map(r, IdOf) <==> id in Map(vectorHits, HitId) || id in Map(ftsHits, HitId))
    && forall c :: c in r ==>
      var ps := Occurrences(vectorHits, ftsHits, c.chunkId);
      ps != [] && c == Merged(ps)
  }

  /** A listing of the values of a map whose entries carry their keys. */
  lemma ValuesListed(scores: OrderedMap<string, Fused>, r: seq<Fused>)
    requires scores.Valid() && forall k :: k in scores.entries ==> scores.entries[k].chunkId == k
    requires multiset(r) == multiset(scores.Values())
    ensures Distinct(Map(r, IdOf))
    ensures forall id :: id in Map(r, IdOf) <==> id in scores.entries
    ensures forall c :: c in r ==> c.chunkId in scores.entries && c == scores.entries[c.chunkId]
  {
    var vs := scores.Values();
    SameMembers(r, vs);
    PermutationDistinct(vs, r) by {
      forall i, j | 0 <= i < j < |vs| ensures vs[i] != vs[j] {
        assert scores.keys[i] != scores.keys[j];
      }
    }
    forall c | c in r ensures c.chunkId in scores.entries && c == scores.entries[c.chunkId] {
      var i :| 0 <= i < |vs| && vs[i] == c;
      assert scores.keys[i] in scores.entries;
    }
    forall id | id in scores.entries ensures id in Map(r, IdOf) {
      var i :| 0 <= i < |scores.keys| && scores.keys[i] == id;
      assert vs[i] in r;
      var j :| 0 <= j < |r| && r[j] == vs[i];
      assert Map(r, IdOf)[j] == id;
    }
    forall id | id in Map(r, IdOf) ensures id in scores.entries {
      var j :| 0 <= j < |r| && Map(r, IdOf)[j] == id;
      assert r[j] in r;
    }
  }

  lemma SeenIds(vectorHits: seq<Candidate>, ftsHits: seq<Candidate>, id: string)
    ensures id in Map(Places(vectorHits) + Places(ftsHits), ChunkOf)
      <==> id in Map(vectorHits, HitId) || id in Map(ftsHits, HitId)
  {
    assert Map(Places(vectorHits) + Places(ftsHits), ChunkOf) == Map(vectorHits, HitId) + Map(ftsHits, HitId);
  }

  lemma SortedValuesAreFusion(scores: OrderedMap<string, Fused>, r: seq<Fused>,
                              vectorHits: seq<Candidate>, ftsHits: seq<Candidate>, less: (string, string) -> bool)
    requires Accumulated(scores, Places(vectorHits) + Places(ftsHits))
    requires multiset(r) == multiset(scores.Values()) && Sorted(r, FusedOrder(less))
    ensures IsFusion(r, vectorHits, ftsHits, less)
  {
    var seen := Places(vectorHits) + Places(ftsHits);
    forall k | k in scores.entries ensures scores.entries[k].chunkId == k {
      assert Right(scores.entries, seen, k);
      var ps := Members(seen, ChunkOf, k);
      assert ps[0] in ps;
    }
    ValuesListed(scores, r);
    forall id ensures id in scores.entries <==> id in Map(vectorHits, HitId) || id in Map(ftsHits, HitId) {
      SeenIds(vectorHits, ftsHits, id);
      assert id in scores.entries <==> id in scores.keys;
    }
    forall c | c in r
      ensures var ps := Occurrences(vectorHits, ftsHits, c.chunkId); ps != [] && c == Merged(ps)
    {
      assert Right(scores.entries, seen, c.chunkId);
    }
  }

  /** fuseRrf: None when a hit lacks an identity. */
  method FuseRrf(vectorHits: seq<Candidate>, ftsHits: seq<Candidate>, less: (string, string) -> bool)
    returns (r: Option<seq<Fused>>)
    requires StrictWeakOrder(less)
    ensures r.Some? <==> Identified(vectorHits + ftsHits)
    ensures r.Some? ==> IsFusion(r.value, vectorHits, ftsHits, less)
  {
    if !Identified(vectorHits + ftsHits) {
      return None;
    }
    var scores := OrderedMap([], map[]);
    scores := AddArm(scores, vectorHits, []);
    assert [] + Places(vectorHits) == Places(vectorHits);
    scores := AddArm(scores, ftsHits, Places(vectorHits));
    var fused := Sort(scores.Values(), FusedOrder(less));
    FusedOrderIsOrder(less);
    SortSorted(scores.Values(), FusedOrder(less));
    SortedValuesAreFusion(scores, fused, vectorHits, ftsHits, less);
    r := Some(fused);
  }

  // ----- what the scores are -----

  /** The sum of 1 / (60 + rank) over the positions before n at which an arm lists the chunk. */
  function ArmScoreTo(hits: seq<Candidate>, id: string, n: nat): real
    requires n <= |hits|
  {
    if n == 0 then 0.0
    else ArmScoreTo(hits, id, n - 1) + if hits[n - 1].chunkId == id then 1.0 / (60 + n) as real else 0.0
  }

  function ArmScore(hits: seq<Candidate>, id: string): real {
    ArmScoreTo(hits, id, |hits|)
  }

  lemma {:induction false} TotalIsArmScore(hits: seq<Candidate>, id: string, n: nat)
    requires n <= |hits|
    ensures Total(Members(Places(hits)[..n], ChunkOf, id)) == ArmScoreTo(hits, id, n)
  {
    if n > 0 {
      TotalIsArmScore(hits, id, n - 1);
      TakeOneMore(Places(hits), n - 1);
      TotalOneMore(Places(hits)[..n - 1], Places(hits)[n - 1], id);
    }
  }

  lemma TotalOneMore(ps: seq<Place>, p: Place, id: string)
    ensures Total(Members(ps + [p], ChunkOf, id))
      == Total(Members(ps, ChunkOf, id)) + if ChunkOf(p) == id then Contribution(p.index) else 0.0
  {
    MembersAppend(ps, p, ChunkOf, id);
    TotalAppend(Members(ps, ChunkOf, id), if ChunkOf(p) == id then [p] else []);
    assert Total([p]) == Contribution(p.index) + Total([]);
  }

  lemma TotalOfOccurrences(vectorHits: seq<Candidate>, ftsHits: seq<Candidate>, id: string)
    ensures Total(Occurrences(vectorHits, ftsHits, id)) == ArmScore(vectorHits, id) + ArmScore(ftsHits, id)
  {
    var a, b := Places(vectorHits), Places(ftsHits);
    MembersConcat(a, b, ChunkOf, id);
    TotalAppend(Members(a, ChunkOf, id), Members(b, ChunkOf, id));
    TotalIsArmScore(vectorHits, id, |vectorHits|);
    TotalIsArmScore(ftsHits, id, |ftsHits|);
    assert a[..|vectorHits|] == a && b[..|ftsHits|] == b;
  }

  /** A fused score is the sum over all positions of the chunk in both arms. */
  lemma FusedScore(r: seq<Fused>, vectorHits: seq<Candidate>, ftsHits: seq<Candidate>, less: (string, string) -> bool)
    requires IsFusion(r, vectorHits, ftsHits, less)
    ensures forall c :: c in r ==> c.rrfScore == ArmScore(vectorHits, c.chunkId) + ArmScore(ftsHits, c.chunkId)
  {
    forall c | c in r ensures c.rrfScore == ArmScore(vectorHits, c.chunkId) + ArmScore(ftsHits, c.chunkId) {
      TotalOfOccurrences(vectorHits, ftsHits, c.chunkId);
    }
  }

  // ----- swapping the arms -----

  datatype Standing = Standing(id: string, score: real)

  function StandingOf(c: Fused): Standing { Standing(c.chunkId, c.rrfScore) }

  predicate StandsBefore(a: Standing, b: Standing, less: (string, string) -> bool) {
    if a.score != b.score then a.score > b.score else less(a.id, b.id)
  }

  function StandingOrder(less: (string, string) -> bool): (Standing, Standing) -> bool {
    (a: Standing, b: Standing) => StandsBefore(a, b, less)
  }

  function ScoreOf(vectorHits: seq<Candidate>, ftsHits: seq<Candidate>, id: string): real {
    ArmScore(vectorHits, id) + ArmScore(ftsHits, id)
  }

  lemma StandingsInOrder(r: seq<Fused>, less: (string, string) -> bool)
    requires Sorted(r, FusedOrder(less)) && Distinct(Map(r, IdOf))
    ensures Distinct(Map(r, StandingOf)) && Sorted(Map(r, StandingOf), StandingOrder(less))
  {
    var xs, ids := Map(r, StandingOf), Map(r, IdOf);
    forall i, j | 0 <= i < j < |r| ensures xs[i] != xs[j] && !StandsBefore(xs[j], xs[i], less) {
      assert ids[i] != ids[j];
      assert !FusedOrder(less)(r[j], r[i]);
    }
  }

  lemma StandingsListed(r: seq<Fused>, score: string -> real, x: Standing)
    requires forall c :: c in r ==> c.rrfScore == score(c.chunkId)
    ensures x in Map(r, StandingOf) <==> x.id in Map(r, IdOf) && x.score == score(x.id)
  {
    var xs, ids := Map(r, StandingOf), Map(r, IdOf);
    if x in xs {
      var i :| 0 <= i < |xs| && xs[i] == x;
      assert r[i] in r && ids[i] == x.id;
    }
    if x.id in ids && x.score == score(x.id) {
      var i :| 0 <= i < |ids| && ids[i] == x.id;
      assert r[i] in r && xs[i] == x;
    }
  }

  /** Ids, scores and order do not depend on which arm is which. */
  lemma SwappingArms(r: seq<Fused>, q: seq<Fused>, vectorHits: seq<Candidate>, ftsHits: seq<Candidate>,
                     less: (string, string) -> bool)
    requires TotalOrder(less)
    requires IsFusion(r, vectorHits, ftsHits, less) && IsFusion(q, ftsHits, vectorHits, less)
    ensures Map(r, StandingOf) == Map(q, StandingOf)
  {
    var xs, ys := Map(r, StandingOf), Map(q, StandingOf);
    FusedScore(r, vectorHits, ftsHits, less);
    FusedScore(q, ftsHits, vectorHits, less);
    StandingsInOrder(r, less);
    StandingsInOrder(q, less);
    forall x ensures x in xs <==> x in ys {
      StandingsListed(r, (id: string) => ScoreOf(vectorHits, ftsHits, id), x);
      StandingsListed(q, (id: string) => ScoreOf(ftsHits, vectorHits, id), x);
    }
    OnlyOneStanding(r, less);
    SortedSetUnique(xs, ys, StandingOrder(less));
  }

  lemma OnlyOneStanding(r: seq<Fused>, less: (string, string) -> bool)
    requires TotalOrder(less) && Distinct(Map(r, IdOf))
    ensures var xs := Map(r, StandingOf);
      forall x, y :: x in xs && y in xs && x != y ==> StandingOrder(less)(x, y) || StandingOrder(less)(y, x)
  {
    var xs, ids := Map(r, StandingOf), Map(r, IdOf);
    forall x, y | x in xs && y in xs && x != y ensures x.id != y.id {
      var i :| 0 <= i < |xs| && xs[i] == x;
      var j :| 0 <= j < |xs| && xs[j] == y;
      assert ids[i] == x.id && ids[j] == y.id;
    }
  }

  // ----- dominance -----

  ghost predicate DuplicateFree(hits: seq<Candidate>) {
    forall i, j :: 0 <= i < j < |hits| ==> hits[i].chunkId != hits[j].chunkId
  }

  ghost predicate ListedAt(hits: seq<Candidate>, id: string, i: nat) {
    i < |hits| && hits[i].chunkId == id
  }

  /** Wherever the arm lists b, it lists a at the same place or earlier. */
  ghost predicate NoWorse(hits: seq<Candidate>, a: string, b: string) {
    forall j: nat :: ListedAt(hits, b, j) ==> exists i: nat :: i <= j && ListedAt(hits, a, i)
  }

  /** The arm lists a, and lists b later or not at all. */
  ghost predicate Better(hits: seq<Candidate>, a: string, b: string) {
    exists i: nat :: ListedAt(hits, a, i) && forall j: nat :: ListedAt(hits, b, j) ==> i < j
  }

  lemma {:induction false} ScoreAbsent(hits: seq<Candidate>, id: string, n: nat)
    requires n <= |hits| && forall i :: 0 <= i < n ==> hits[i].chunkId != id
    ensures ArmScoreTo(hits, id, n) == 0.0
  {
    if n > 0 { ScoreAbsent(hits, id, n - 1); }
  }

  lemma {:induction false} ScoreListed(hits: seq<Candidate>, id: string, i: nat, n: nat)
    requires DuplicateFree(hits) && ListedAt(hits, id, i) && i < n <= |hits|
    ensures ArmScoreTo(hits, id, n) == Contribution(i)
  {
    if i == n - 1 {
      ScoreAbsent(hits, id, n - 1);
    } else {
      ScoreListed(hits, id, i, n - 1);
    }
  }

  lemma ArmScoreMonotone(hits: seq<Candidate>, a: string, b: string)
    requires DuplicateFree(hits) && NoWorse(hits, a, b)
    ensures ArmScore(hits, a) >= ArmScore(hits, b)
  {
    if j: nat :| ListedAt(hits, b, j) {
      var i: nat :| i <= j && ListedAt(hits, a, i);
      ScoreListed(hits, a, i, |hits|);
      ScoreListed(hits, b, j, |hits|);
      ContributionFalls(i, j);
    } else {
      forall j | 0 <= j < |hits| ensures hits[j].chunkId != b { assert !ListedAt(hits, b, j); }
      ScoreAbsent(hits, b, |hits|);
      ScoreNotNegative(hits, a, |hits|);
    }
  }

  lemma {:induction false} ScoreNotNegative(hits: seq<Candidate>, id: string, n: nat)
    requires n <= |hits|
    ensures ArmScoreTo(hits, id, n) >= 0.0
  {
    if n > 0 { ScoreNotNegative(hits, id, n - 1); }
  }

  lemma ArmScoreBetter(hits: seq<Candidate>, a: string, b: string)
    requires DuplicateFree(hits) && Better(hits, a, b)
    ensures ArmScore(hits, a) > ArmScore(hits, b)
  {
    var i: nat :| ListedAt(hits, a, i) && forall j: nat :: ListedAt(hits, b, j) ==> i < j;
    ScoreListed(hits, a, i, |hits|);
    if j: nat :| ListedAt(hits, b, j) {
      ScoreListed(hits, b, j, |hits|);
      ContributionFalls(i, j);
    } else {
      forall j | 0 <= j < |hits| ensures hits[j].chunkId != b { assert !ListedAt(hits, b, j); }
      ScoreAbsent(hits, b, |hits|);
      ContributionFalls(i, i);
    }
  }

  /** Ranked no worse in each arm and strictly better in one, a chunk comes first. */
  lemma DominanceWins(r: seq<Fused>, vectorHits: seq<Candidate>, ftsHits: seq<Candidate>,
                      less: (string, string) -> bool, a: nat, b: nat)
    requires IsFusion(r, vectorHits, ftsHits, less) && a < |r| && b < |r|
    requires DuplicateFree(vectorHits) && DuplicateFree(ftsHits)
    requires NoWorse(vectorHits, r[a].chunkId, r[b].chunkId) && NoWorse(ftsHits, r[a].chunkId, r[b].chunkId)
    requires Better(vectorHits, r[a].chunkId, r[b].chunkId) || Better(ftsHits, r[a].chunkId, r[b].chunkId)
    ensures a < b
  {
    FusedScore(r, vectorHits, ftsHits, less);
    var x, y := r[a].chunkId, r[b].chunkId;
    ArmScoreMonotone(vectorHits, x, y);
    ArmScoreMonotone(ftsHits, x, y);
    if Better(vectorHits, x, y) { ArmScoreBetter(vectorHits, x, y); }
    if Better(ftsHits, x, y) { ArmScoreBetter(ftsHits, x, y); }
    assert r[a] in r && r[b] in r;
    assert FusedOrder(less)(r[a], r[b]);
  }

  // ----- reranking -----

  predicate RankedBefore(a: Ranked, b: Ranked, less: (string, string) -> bool) {
    if a.rerankScore != b.rerankScore then a.rerankScore > b.rerankScore else FusedBefore(a.fused, b.fused, less)
  }

  function RankedOrder(less: (string, string) -> bool): (Ranked, Ranked) -> bool {
    (a: Ranked, b: Ranked) => RankedBefore(a, b, less)
  }

  /** Each candidate with the score at its index, or 0 where the scores run out. */
  function Scored(fused: seq<Fused>, scores: seq<real>): (r: seq<Ranked>)
    ensures |r| == |fused|
  {
    seq(|fused|, i requires 0 <= i < |fused| => Ranked(fused[i], if i < |scores| then scores[i] else 0.0))
  }

  function OrderByScores(fused: seq<Fused>, scores: seq<real>, less: (string, string) -> bool): (r: seq<Ranked>)
    ensures multiset(r) == multiset(Scored(fused, scores))
  {
    Sort(Scored(fused, scores), RankedOrder(less))
  }

  function FusedOf(r: Ranked): Fused { r.fused }

  lemma Without<T>(s: seq<T>, j: nat)
    requires j < |s|
    ensures multiset(s) == multiset(s[..j] + s[j + 1..]) + multiset{s[j]}
  {
    assert s == s[..j] + [s[j]] + s[j + 1..];
  }

  lemma MapWithout<T, U>(s: seq<T>, j: nat, f: T -> U)
    requires j < |s|
    ensures multiset(Map(s, f)) == multiset(Map(s[..j] + s[j + 1..], f)) + multiset{f(s[j])}
  {
    Without(Map(s, f), j);
    assert Map(s[..j] + s[j + 1..], f) == Map(s, f)[..j] + Map(s, f)[j + 1..];
  }

  lemma Cancel<T>(a: multiset<T>, b: multiset<T>, x: T)
    requires a + multiset{x} == b + multiset{x}
    ensures a == b
  {
    assert a == (a + multiset{x}) - multiset{x};
    assert b == (b + multiset{x}) - multiset{x};
  }

  lemma {:induction false} MapPermuted<T, U>(a: seq<T>, b: seq<T>, f: T -> U)
    requires multiset(a) == multiset(b)
    ensures multiset(Map(a, f)) == multiset(Map(b, f))
    decreases |a|
  {
    if a == [] {
      assert |b| == |multiset(b)| == |multiset(a)| == 0;
    } else {
      var j := RestPermuted(a, b);
      MapPermuted(a[..0] + a[1..], b[..j] + b[j + 1..], f);
      MapWithout(a, 0, f);
      MapWithout(b, j, f);
    }
  }

  /** Where the first of a is in b, and that the rests are permutations too. */
  lemma RestPermuted<T>(a: seq<T>, b: seq<T>) returns (j: nat)
    requires a != [] && multiset(a) == multiset(b)
    ensures j < |b| && b[j] == a[0] && multiset(a[..0] + a[1..]) == multiset(b[..j] + b[j + 1..])
  {
    assert a[0] in multiset(b);
    j :| 0 <= j < |b| && b[j] == a[0];
    Without(a, 0);
    Without(b, j);
    Cancel(multiset(a[..0] + a[1..]), multiset(b[..j] + b[j + 1..]), a[0]);
  }

  /** Reranking permutes the fused list into descending score, ties by fused order. */
  lemma RerankPermutes(fused: seq<Fused>, scores: seq<real>, less: (string, string) -> bool)
    requires StrictWeakOrder(less)
    ensures var r := OrderByScores(fused, scores, less);
      && multiset(Map(r, FusedOf)) == multiset(fused)
      && Sorted(r, RankedOrder(less))
      && forall x :: x in r ==>
        exists i :: 0 <= i < |fused| && x.fused == fused[i] && x.rerankScore == if i < |scores| then scores[i] else 0.0
  {
    var xs, r := Scored(fused, scores), OrderByScores(fused, scores, less);
    FusedOrderIsOrder(less);
    assert StrictWeakOrder(RankedOrder(less)) by {
      assert forall a, b: Fused :: FusedOrder(less)(a, b) == FusedBefore(a, b, less);
    }
    SortSorted(xs, RankedOrder(less));
    MapPermuted(r, xs, FusedOf);
    assert Map(xs, FusedOf) == fused;
    SameMembers(r, xs);
    forall x | x in r
      ensures exists i ::
        0 <= i < |fused| && x.fused == fused[i] && x.rerankScore == if i < |scores| then scores[i] else 0.0
    {
      var i :| 0 <= i < |xs| && xs[i] == x;
      assert x.fused == fused[i];
    }
  }
}
