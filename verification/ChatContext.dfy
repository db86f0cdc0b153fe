/**
 Assembly of the chat context: grounded hits in order, one per chunk, spread over documents,
 cut to a number of chunks and a token budget. `less` stands for localeCompare(a, b) < 0.
 */
module ChatContext {
  import opened Common
  import opened Candidates
  import opened EvidenceTypes
  import opened OrderedMaps
  import opened Sorting

  const MAX_CHUNKS := 8
  const TOKEN_BUDGET := 3000

  // ----- order -----

  predicate HitBefore(a: SearchHit, b: SearchHit, less: (string, string) -> bool) {
    if a.ranked.rerankScore != b.ranked.rerankScore then a.ranked.rerankScore > b.ranked.rerankScore
    else less(a.ChunkId(), b.ChunkId())
  }

  function HitOrder(less: (string, string) -> bool): (SearchHit, SearchHit) -> bool {
    (a: SearchHit, b: SearchHit) => HitBefore(a, b, less)
  }

  predicate Grounded(hit: SearchHit) { hit.evidenceRefs != [] }

  function ChunkOf(hit: SearchHit): string { hit.ChunkId() }

  function DocumentOf(hit: SearchHit): string { hit.DocumentId() }

  // ----- one hit per chunk -----

  /** The hits whose chunk no earlier hit has. */
  function Deduped(hits: seq<SearchHit>): seq<SearchHit> {
    if hits == [] then []
    else
      var kept := Deduped(hits[..|hits| - 1]);
      var hit := hits[|hits| - 1];
      if ChunkOf(hit) in Map(kept, ChunkOf) then kept else kept + [hit]
  }

  method Dedupe(hits: seq<SearchHit>) returns (kept: seq<SearchHit>)
    ensures kept == Deduped(hits)
  {
    kept := [];
    var seen: set<string> := {};
    for i := 0 to |hits|
      invariant kept == Deduped(hits[..i])
      invariant forall id :: id in seen <==> id in Map(kept, ChunkOf)
    {
      var hit := hits[i];
      assert hits[..i + 1][..i] == hits[..i];
      if hit.ChunkId() !in seen {
        assert Map(kept + [hit], ChunkOf) == Map(kept, ChunkOf) + [ChunkOf(hit)];
        seen := seen + {hit.ChunkId()};
        kept := kept + [hit];
      }
    }
    TakeAll(hits);
  }

  lemma {:induction false} DedupedOnce(hits: seq<SearchHit>)
    ensures Map(Deduped(hits), ChunkOf) == FirstSeen(Map(hits, ChunkOf))
  {
    if hits != [] {
      var n := |hits| - 1;
      var kept := Deduped(hits[..n]);
      DedupedOnce(hits[..n]);
      assert Map(hits, ChunkOf)[..n] == Map(hits[..n], ChunkOf);
      assert Map(kept + [hits[n]], ChunkOf) == Map(kept, ChunkOf) + [ChunkOf(hits[n])];
    }
  }

  /** Of the hits of a chunk the first is kept; in a sorted list, none of them comes before it. */
  lemma {:induction false} DedupedKeepsBest(hits: seq<SearchHit>, order: (SearchHit, SearchHit) -> bool, i: nat)
    returns (best: SearchHit)
    requires Sorted(hits, order) && i < |hits|
    requires forall h :: h in hits ==> !order(h, h)
    ensures best in Deduped(hits) && best in hits && best.ChunkId() == hits[i].ChunkId() && !order(hits[i], best)
  {
    var n := |hits| - 1;
    var kept := Deduped(hits[..n]);
    if i < n {
      best := DedupedKeepsBest(hits[..n], order, i);
    } else if ChunkOf(hits[n]) in Map(kept, ChunkOf) {
      var j :| 0 <= j < |kept| && Map(kept, ChunkOf)[j] == ChunkOf(hits[n]);
      best := kept[j];
      DedupedFrom(hits[..n]);
      assert best in kept && best in hits[..n];
      var k :| 0 <= k < n && hits[k] == best;
    } else {
      best := hits[n];
    }
  }

  lemma {:induction false} DedupedFrom(hits: seq<SearchHit>)
    ensures forall h :: h in Deduped(hits) ==> h in hits
  {
    if hits != [] { DedupedFrom(hits[..|hits| - 1]); }
  }

  // ----- round robin over documents -----

  function Heads<T>(queues: seq<seq<T>>): seq<T> {
    if queues == [] then [] else First(queues[0]) + Heads(queues[1..])
  }

  function First<T>(q: seq<T>): seq<T> { if q == [] then [] else [q[0]] }

  function Rest<T>(q: seq<T>): seq<T> { if q == [] then [] else q[1..] }

  function Tails<T>(queues: seq<seq<T>>): (r: seq<seq<T>>)
    ensures |r| == |queues| && forall i :: 0 <= i < |queues| ==> r[i] == Rest(queues[i])
  {
    seq(|queues|, i requires 0 <= i < |queues| => Rest(queues[i]))
  }

  function Size<T>(queues: seq<seq<T>>): nat {
    if queues == [] then 0 else |queues[0]| + Size(queues[1..])
  }

  lemma {:induction false} TailsShrink<T>(queues: seq<seq<T>>)
    ensures Size(Tails(queues)) + |Heads(queues)| == Size(queues)
  {
    if queues != [] {
      TailsShrink(queues[1..]);
      assert Tails(queues)[1..] == Tails(queues[1..]);
    }
  }

  lemma {:induction false} HeadsAppend<T>(a: seq<seq<T>>, q: seq<T>)
    ensures Heads(a + [q]) == Heads(a) + First(q)
  {
    if a == [] {
      assert a + [q] == [q];
    } else {
      assert (a + [q])[0] == a[0] && (a + [q])[1..] == a[1..] + [q];
      HeadsAppend(a[1..], q);
    }
  }

  /** Round after round, the head of every queue that is not empty. */
  function RoundRobin<T>(queues: seq<seq<T>>): seq<T>
    decreases Size(queues)
  {
    if Heads(queues) == [] then []
    else
      TailsShrink(queues);
      Heads(queues) + RoundRobin(Tails(queues))
  }

  /** The first queues have been shifted. */
  ghost predicate Shifted<T>(queues: seq<seq<T>>, left: seq<seq<T>>, i: nat) {
    && |left| == |queues|
    && forall j :: 0 <= j < |queues| ==> left[j] == if j < i then Rest(queues[j]) else queues[j]
  }

  lemma ShiftOne<T>(queues: seq<seq<T>>, left: seq<seq<T>>, i: nat)
    requires Shifted(queues, left, i) && i < |queues|
    ensures left[i] == queues[i]
    ensures Shifted(queues, if left[i] == [] then left else left[i := left[i][1..]], i + 1)
  {
  }

  /** One round: shifts every queue and appends what comes out. */
  method Round<T>(queues: seq<seq<T>>, out: seq<T>) returns (left: seq<seq<T>>, more: seq<T>, progressed: bool)
    ensures left == Tails(queues) && more == out + Heads(queues)
    ensures progressed <==> Heads(queues) != []
  {
    left, more, progressed := queues, out, false;
    for i := 0 to |queues|
      invariant Shifted(queues, left, i)
      invariant more == out + Heads(queues[..i])
      invariant progressed <==> Heads(queues[..i]) != []
    {
      TakeOneMore(queues, i);
      HeadsAppend(queues[..i], queues[i]);
      Associates(out, Heads(queues[..i]), First(queues[i]));
      ShiftOne(queues, left, i);
      if left[i] != [] {
        more := more + [left[i][0]];
        left := left[i := left[i][1..]];
        progressed := true;
      }
    }
    TakeAll(queues);
  }

  /** The hits of each document, documents in the order they first appear. */
  function Queues(hits: seq<SearchHit>): (queues: seq<seq<SearchHit>>)
    ensures |queues| == |FirstSeen(Map(hits, DocumentOf))|
  {
    Map(FirstSeen(Map(hits, DocumentOf)), (d: string) => Members(hits, DocumentOf, d))
  }

  lemma GroupsAreQueues(groups: OrderedMap<string, seq<SearchHit>>, hits: seq<SearchHit>)
    requires Grouped(groups, hits, DocumentOf)
    ensures groups.Values() == Queues(hits)
  {
    forall i | 0 <= i < |groups.keys| ensures groups.Values()[i] == Queues(hits)[i] {
      assert groups.keys[i] in groups.keys;
    }
  }

  lemma NextRound<T>(queues: seq<seq<T>>, out: seq<T>)
    ensures out + RoundRobin(queues) == (out + Heads(queues)) + RoundRobin(Tails(queues))
    ensures Size(Tails(queues)) + |Heads(queues)| == Size(queues)
    ensures Heads(queues) == [] ==> RoundRobin(queues) == []
  {
    TailsShrink(queues);
    if Heads(queues) == [] { EmptyStaysEmpty(queues); }
  }

  method DiversifyByDocument(hits: seq<SearchHit>) returns (out: seq<SearchHit>)
    ensures out == RoundRobin(Queues(hits))
  {
    var byDoc := GroupBy(hits, DocumentOf);
    var queues := byDoc.Values();
    GroupsAreQueues(byDoc, hits);
    out := RunRounds(queues);
  }

  method RunRounds<T>(queues: seq<seq<T>>) returns (out: seq<T>)
    ensures out == RoundRobin(queues)
  {
    out := [];
    var left, progressed := queues, true;
    while progressed
      invariant out + RoundRobin(left) == RoundRobin(queues)
      invariant !progressed ==> RoundRobin(left) == []
      decreases progressed, Size(left)
    {
      NextRound(left, out);
      NextRound(Tails(left), out + Heads(left));
      if Heads(left) == [] { EmptyStaysEmpty(left); }
      left, out, progressed := Round(left, out);
    }
  }

  lemma {:induction false} EmptyStaysEmpty<T>(queues: seq<seq<T>>)
    requires Heads(queues) == []
    ensures Heads(Tails(queues)) == []
  {
    if queues != [] {
      assert Tails(queues)[1..] == Tails(queues[1..]);
      EmptyStaysEmpty(queues[1..]);
    }
  }

  // ----- the round robin is fair -----

  /** The queue of document d. */
  function QueueOf(queues: seq<seq<SearchHit>>, docs: seq<string>, d: string): seq<SearchHit>
    requires |queues| == |docs|
  {
    if queues == [] then [] else if docs[0] == d then queues[0] else QueueOf(queues[1..], docs[1..], d)
  }

  /** One queue per document. */
  ghost predicate Separated(queues: seq<seq<SearchHit>>, docs: seq<string>) {
    && |queues| == |docs|
    && Distinct(docs)
    && forall i :: 0 <= i < |docs| ==> forall h :: h in queues[i] ==> h.DocumentId() == docs[i]
  }

  lemma {:induction false} QueueOfNone(queues: seq<seq<SearchHit>>, docs: seq<string>, d: string)
    requires |queues| == |docs| && d !in docs
    ensures QueueOf(queues, docs, d) == []
  {
    if queues != [] { QueueOfNone(queues[1..], docs[1..], d); }
  }

  lemma {:induction false} QueueOfTails(queues: seq<seq<SearchHit>>, docs: seq<string>, d: string)
    requires |queues| == |docs|
    ensures QueueOf(Tails(queues), docs, d) == Rest(QueueOf(queues, docs, d))
  {
    if queues != [] {
      assert Tails(queues)[1..] == Tails(queues[1..]);
      QueueOfTails(queues[1..], docs[1..], d);
    }
  }

  lemma MembersOfFirst(q: seq<SearchHit>, doc: string, d: string)
    requires forall h :: h in q ==> h.DocumentId() == doc
    ensures Members(First(q), DocumentOf, d) == if doc == d then First(q) else []
  {
    if q != [] {
      assert q[0] in q;
      MembersStep([q[0]], DocumentOf, d);
    }
  }

  lemma {:induction false} HeadsOfDocument(queues: seq<seq<SearchHit>>, docs: seq<string>, d: string)
    requires Separated(queues, docs)
    ensures Members(Heads(queues), DocumentOf, d) == First(QueueOf(queues, docs, d))
  {
    if queues != [] {
      var h, t := First(queues[0]), Heads(queues[1..]);
      assert forall x :: x in queues[0] ==> x.DocumentId() == docs[0];
      MembersOfFirst(queues[0], docs[0], d);
      MembersConcat(h, t, DocumentOf, d);
      HeadsOfDocument(queues[1..], docs[1..], d);
      if docs[0] == d { QueueOfNone(queues[1..], docs[1..], d); }
    }
  }

  lemma TailsSeparated(queues: seq<seq<SearchHit>>, docs: seq<string>)
    requires Separated(queues, docs)
    ensures Separated(Tails(queues), docs)
  {
  }

  /** The turns of a document are its queue, in order. */
  lemma {:induction false} TurnsOfDocument(queues: seq<seq<SearchHit>>, docs: seq<string>, d: string)
    requires Separated(queues, docs)
    ensures Members(RoundRobin(queues), DocumentOf, d) == QueueOf(queues, docs, d)
    decreases Size(queues)
  {
    HeadsOfDocument(queues, docs, d);
    if Heads(queues) == [] {
      assert First(QueueOf(queues, docs, d)) == [];
    } else {
      TailsShrink(queues);
      TailsSeparated(queues, docs);
      TurnsOfDocument(Tails(queues), docs, d);
      QueueOfTails(queues, docs, d);
      MembersConcat(Heads(queues), RoundRobin(Tails(queues)), DocumentOf, d);
      assert RoundRobin(queues) == Heads(queues) + RoundRobin(Tails(queues));
    }
  }

  /** How many hits of its document come before the hit at p. */
  function Turn(s: seq<SearchHit>, p: nat): nat
    requires p < |s|
  {
    |Members(s[..p], DocumentOf, s[p].DocumentId())|
  }

  /** Turns never go back. */
  ghost predicate Rises(s: seq<SearchHit>) {
    forall p, q :: 0 <= p <= q < |s| ==> Turn(s, p) <= Turn(s, q)
  }

  /** Hits of the same turn come in the order of their documents. */
  ghost predicate InOrder(s: seq<SearchHit>, docs: seq<string>) {
    forall p, q :: 0 <= p < q < |s| && Turn(s, p) == Turn(s, q) ==>
      IndexOf(docs, s[p].DocumentId()) < IndexOf(docs, s[q].DocumentId())
  }

  function IndexOf(docs: seq<string>, d: string): nat {
    if docs == [] || docs[0] == d then 0 else 1 + IndexOf(docs[1..], d)
  }

  /** A round: every document that still has a turn later has exactly one in it. */
  ghost predicate IsRound(round: seq<SearchHit>, later: seq<SearchHit>) {
    && (forall p :: 0 <= p < |round| ==> Turn(round, p) == 0)
    && (forall hit :: hit in later ==> |Members(round, DocumentOf, hit.DocumentId())| == 1)
  }

  lemma TurnInRound(round: seq<SearchHit>, later: seq<SearchHit>, p: nat)
    requires IsRound(round, later) && p < |round|
    ensures Turn(round + later, p) == 0
  {
    assert (round + later)[..p] == round[..p];
    assert Turn(round, p) == 0;
  }

  lemma TurnAfterRound(round: seq<SearchHit>, later: seq<SearchHit>, q: nat)
    requires IsRound(round, later) && q < |later|
    ensures Turn(round + later, |round| + q) == 1 + Turn(later, q)
  {
    assert (round + later)[..|round| + q] == round + later[..q];
    MembersConcat(round, later[..q], DocumentOf, later[q].DocumentId());
    assert later[q] in later;
  }

  lemma TurnWithRound(round: seq<SearchHit>, later: seq<SearchHit>, p: nat)
    requires IsRound(round, later) && p < |round + later|
    ensures Turn(round + later, p) == if p < |round| then 0 else 1 + Turn(later, p - |round|)
  {
    if p < |round| { TurnInRound(round, later, p); } else { TurnAfterRound(round, later, p - |round|); }
  }

  lemma RoundRises(round: seq<SearchHit>, later: seq<SearchHit>)
    requires IsRound(round, later) && Rises(later)
    ensures Rises(round + later)
  {
    forall p, q | 0 <= p <= q < |round + later| ensures Turn(round + later, p) <= Turn(round + later, q) {
      TurnWithRound(round, later, p);
      TurnWithRound(round, later, q);
    }
  }

  lemma RoundInOrder(round: seq<SearchHit>, later: seq<SearchHit>, docs: seq<string>)
    requires IsRound(round, later) && InOrder(round, docs) && InOrder(later, docs)
    ensures InOrder(round + later, docs)
  {
    var s := round + later;
    forall p, q | 0 <= p < q < |s| && Turn(s, p) == Turn(s, q)
      ensures IndexOf(docs, s[p].DocumentId()) < IndexOf(docs, s[q].DocumentId())
    {
      TurnWithRound(round, later, p);
      TurnWithRound(round, later, q);
      if q < |round| {
        assert Turn(round, p) == Turn(round, q) == 0;
      }
    }
  }

  lemma HeadsOnce(queues: seq<seq<SearchHit>>, docs: seq<string>, p: nat)
    requires Separated(queues, docs) && p < |Heads(queues)|
    ensures Turn(Heads(queues), p) == 0
  {
    var h := Heads(queues);
    var d := h[p].DocumentId();
    HeadsOfDocument(queues, docs, d);
    MembersConcat(h[..p], h[p..], DocumentOf, d);
    assert h == h[..p] + h[p..] && h[p] == h[p..][0];
    MembersStep(h[p..], DocumentOf, d);
  }

  /** A document with a turn left had one in this round. */
  lemma OneHead(queues: seq<seq<SearchHit>>, docs: seq<string>, hit: SearchHit)
    requires Separated(queues, docs) && hit in RoundRobin(Tails(queues))
    ensures |Members(Heads(queues), DocumentOf, hit.DocumentId())| == 1
  {
    var d := hit.DocumentId();
    TailsSeparated(queues, docs);
    TurnsOfDocument(Tails(queues), docs, d);
    IsMember(RoundRobin(Tails(queues)), DocumentOf, d, hit);
    QueueOfTails(queues, docs, d);
    HeadsOfDocument(queues, docs, d);
  }

  lemma HeadsAreRound(queues: seq<seq<SearchHit>>, docs: seq<string>)
    requires Separated(queues, docs)
    ensures IsRound(Heads(queues), RoundRobin(Tails(queues)))
  {
    forall p | 0 <= p < |Heads(queues)| ensures Turn(Heads(queues), p) == 0 {
      HeadsOnce(queues, docs, p);
    }
    forall hit | hit in RoundRobin(Tails(queues)) ensures |Members(Heads(queues), DocumentOf, hit.DocumentId())| == 1 {
      OneHead(queues, docs, hit);
    }
  }

  lemma {:induction false} HeadIsListed(queues: seq<seq<SearchHit>>, docs: seq<string>, hit: SearchHit)
    requires Separated(queues, docs) && hit in Heads(queues)
    ensures hit.DocumentId() in docs
  {
    if hit in First(queues[0]) {
      assert hit in queues[0];
    } else {
      HeadIsListed(queues[1..], docs[1..], hit);
    }
  }

  lemma {:induction false} HeadsAscend(queues: seq<seq<SearchHit>>, docs: seq<string>, p: nat, q: nat)
    requires Separated(queues, docs) && p < q < |Heads(queues)|
    ensures IndexOf(docs, Heads(queues)[p].DocumentId()) < IndexOf(docs, Heads(queues)[q].DocumentId())
  {
    var first, rest := First(queues[0]), Heads(queues[1..]);
    assert Heads(queues) == first + rest;
    var n := |first|;
    HeadIsListed(queues[1..], docs[1..], rest[q - n]);
    if p < n {
      assert first[p] in queues[0];
    } else {
      HeadIsListed(queues[1..], docs[1..], rest[p - n]);
      HeadsAscend(queues[1..], docs[1..], p - n, q - n);
    }
  }

  lemma HeadsInOrder(queues: seq<seq<SearchHit>>, docs: seq<string>)
    requires Separated(queues, docs)
    ensures InOrder(Heads(queues), docs)
  {
    var h := Heads(queues);
    forall p, q | 0 <= p < q < |h| ensures IndexOf(docs, h[p].DocumentId()) < IndexOf(docs, h[q].DocumentId()) {
      HeadsAscend(queues, docs, p, q);
    }
  }

  lemma {:induction false} RoundsAreFair(queues: seq<seq<SearchHit>>, docs: seq<string>)
    requires Separated(queues, docs)
    ensures Rises(RoundRobin(queues)) && InOrder(RoundRobin(queues), docs)
    decreases Size(queues)
  {
    if Heads(queues) != [] {
      var round, later := Heads(queues), RoundRobin(Tails(queues));
      TailsShrink(queues);
      TailsSeparated(queues, docs);
      RoundsAreFair(Tails(queues), docs);
      HeadsAreRound(queues, docs);
      HeadsInOrder(queues, docs);
      RoundRises(round, later);
      RoundInOrder(round, later, docs);
      assert RoundRobin(queues) == round + later;
    }
  }

  lemma QueuesSeparated(hits: seq<SearchHit>)
    ensures Separated(Queues(hits), FirstSeen(Map(hits, DocumentOf)))
  {
  }

  lemma {:induction false} QueueAt(queues: seq<seq<SearchHit>>, docs: seq<string>, i: nat)
    requires |queues| == |docs| && Distinct(docs) && i < |docs|
    ensures QueueOf(queues, docs, docs[i]) == queues[i]
  {
    if i > 0 {
      assert docs[0] != docs[i];
      QueueAt(queues[1..], docs[1..], i - 1);
    }
  }

  /**
   Diversifying keeps the hits of every document, all of them and in order. It takes every
   document's r-th hit before any document's next one, and the r-th hits in the order in which
   the documents first appear.
   */
  lemma DiversifyIsFair(hits: seq<SearchHit>)
    ensures var out := RoundRobin(Queues(hits));
      && (forall d :: Members(out, DocumentOf, d) == Members(hits, DocumentOf, d))
      && Rises(out)
      && InOrder(out, FirstSeen(Map(hits, DocumentOf)))
  {
    var out, docs := RoundRobin(Queues(hits)), FirstSeen(Map(hits, DocumentOf));
    QueuesSeparated(hits);
    forall d ensures Members(out, DocumentOf, d) == Members(hits, DocumentOf, d) {
      TurnsOfDocument(Queues(hits), docs, d);
      if d in docs {
        var i :| 0 <= i < |docs| && docs[i] == d;
        QueueAt(Queues(hits), docs, i);
      } else {
        QueueOfNone(Queues(hits), docs, d);
        NoMembers(hits, DocumentOf, d);
      }
    }
    RoundsAreFair(Queues(hits), docs);
  }

  // ----- only one list is fair -----

  datatype Slot = Slot(turn: nat, document: string)

  function SlotAt(s: seq<SearchHit>, p: nat): Slot
    requires p < |s|
  {
    Slot(Turn(s, p), s[p].DocumentId())
  }

  function Slots(s: seq<SearchHit>): (r: seq<Slot>)
    ensures |r| == |s| && forall p :: 0 <= p < |s| ==> r[p] == SlotAt(s, p)
  {
    seq(|s|, p requires 0 <= p < |s| => SlotAt(s, p))
  }

  function SlotOrder(docs: seq<string>): (Slot, Slot) -> bool {
    (a: Slot, b: Slot) =>
      a.turn < b.turn || (a.turn == b.turn && IndexOf(docs, a.document) < IndexOf(docs, b.document))
  }

  lemma {:induction false} SlotsTaken(s: seq<SearchHit>, slot: Slot)
    ensures slot in Slots(s) <==> slot.turn < |Members(s, DocumentOf, slot.document)|
  {
    if s != [] {
      var n := |s| - 1;
      TakeAll(s);
      SlotsTaken(s[..n], slot);
      MembersAppend(s[..n], s[n], DocumentOf, slot.document);
      assert forall p :: 0 <= p < n ==> s[..n][..p] == s[..p];
      assert Slots(s) == Slots(s[..n]) + [SlotAt(s, n)];
    }
  }

  lemma HitOfSlot(s: seq<SearchHit>, p: nat)
    requires p < |s|
    ensures var ms := Members(s, DocumentOf, s[p].DocumentId());
      Turn(s, p) < |ms| && ms[Turn(s, p)] == s[p]
  {
    var d := s[p].DocumentId();
    assert s == s[..p] + s[p..];
    MembersConcat(s[..p], s[p..], DocumentOf, d);
    MembersStep(s[p..], DocumentOf, d);
  }

  lemma SlotsAscend(s: seq<SearchHit>, docs: seq<string>)
    requires Rises(s) && InOrder(s, docs)
    ensures Distinct(Slots(s)) && Sorted(Slots(s), SlotOrder(docs))
    ensures forall x, y :: x in Slots(s) && y in Slots(s) && x != y ==> SlotOrder(docs)(x, y) || SlotOrder(docs)(y, x)
  {
    var order := SlotOrder(docs);
    var r := Slots(s);
    forall p, q | 0 <= p < q < |s| ensures order(r[p], r[q]) && !order(r[q], r[p]) {
      assert Turn(s, p) <= Turn(s, q);
    }
  }

  /** Two fair lists with the same hits per document are the same list. */
  lemma FairIsUnique(a: seq<SearchHit>, b: seq<SearchHit>, docs: seq<string>)
    requires Rises(a) && InOrder(a, docs) && Rises(b) && InOrder(b, docs)
    requires forall d :: Members(a, DocumentOf, d) == Members(b, DocumentOf, d)
    ensures a == b
  {
    SlotsAscend(a, docs);
    SlotsAscend(b, docs);
    forall slot ensures slot in Slots(a) <==> slot in Slots(b) {
      SlotsTaken(a, slot);
      SlotsTaken(b, slot);
    }
    SortedSetUnique(Slots(a), Slots(b), SlotOrder(docs));
    forall p | 0 <= p < |a| ensures a[p] == b[p] {
      assert Slots(a)[p] == Slots(b)[p];
      HitOfSlot(a, p);
      HitOfSlot(b, p);
    }
  }

  lemma {:induction false} CountInMembers(s: seq<SearchHit>, h: SearchHit)
    ensures multiset(s)[h] == multiset(Members(s, DocumentOf, h.DocumentId()))[h]
  {
    if s != [] {
      CountInMembers(s[1..], h);
      assert s == [s[0]] + s[1..];
      MembersStep(s, DocumentOf, h.DocumentId());
    }
  }

  lemma DiversifyPermutes(hits: seq<SearchHit>)
    ensures multiset(RoundRobin(Queues(hits))) == multiset(hits)
  {
    DiversifyIsFair(hits);
    var out := RoundRobin(Queues(hits));
    forall h ensures multiset(out)[h] == multiset(hits)[h] {
      CountInMembers(out, h);
      CountInMembers(hits, h);
      assert Members(out, DocumentOf, h.DocumentId()) == Members(hits, DocumentOf, h.DocumentId());
    }
  }

  // ----- selection under the caps -----

  /** Math.max(1, Math.ceil(text.length / 4)) */
  function EstimateTokens(text: string): (n: nat)
    ensures n >= 1
  {
    var quarters := (|text| + 3) / 4;
    if quarters >= 1 then quarters else 1
  }

  function Cost(hits: seq<SearchHit>): nat {
    if hits == [] then 0 else Cost(hits[..|hits| - 1]) + EstimateTokens(hits[|hits| - 1].Text())
  }

  lemma {:induction false} CostGrows(hits: seq<SearchHit>, n: nat)
    requires n <= |hits|
    ensures Cost(hits[..n]) <= Cost(hits)
  {
    if n < |hits| {
      assert hits[..|hits| - 1][..n] == hits[..n];
      CostGrows(hits[..|hits| - 1], n);
    } else {
      TakeAll(hits);
    }
  }

  /** n hits are within the caps; a single hit may exceed the budget. */
  predicate Fits(hits: seq<SearchHit>, maxChunks: int, tokenBudget: int, n: nat)
    requires n <= |hits|
  {
    n == 0 || (n <= maxChunks && (n == 1 || Cost(hits[..n]) <= tokenBudget))
  }

  /** The longest prefix within the caps. */
  ghost predicate LongestFit(hits: seq<SearchHit>, maxChunks: int, tokenBudget: int, n: nat) {
    && n <= |hits|
    && Fits(hits, maxChunks, tokenBudget, n)
    && forall m :: n < m <= |hits| ==> !Fits(hits, maxChunks, tokenBudget, m)
  }

  lemma NoLongerFit(hits: seq<SearchHit>, maxChunks: int, tokenBudget: int, n: nat)
    requires n < |hits| && Fits(hits, maxChunks, tokenBudget, n) && !Fits(hits, maxChunks, tokenBudget, n + 1)
    ensures LongestFit(hits, maxChunks, tokenBudget, n)
  {
    forall m | n < m <= |hits| ensures !Fits(hits, maxChunks, tokenBudget, m) {
      CostGrows(hits[..m], n + 1);
      assert hits[..m][..n + 1] == hits[..n + 1];
    }
  }

  datatype ContextChunk = ContextChunk(
    chunkId: string,
    documentId: string,
    text: string,
    evidenceIds: seq<string>,
    sourceId: string,
    annotation: Kind)

  function AsChunk(hit: SearchHit): ContextChunk {
    ContextChunk(hit.ChunkId(), hit.DocumentId(), hit.Text(), hit.evidenceRefs, hit.sourceId, hit.annotation)
  }

  method Select(hits: seq<SearchHit>, maxChunks: int, tokenBudget: int)
    returns (selected: seq<ContextChunk>, truncated: bool)
    ensures LongestFit(hits, maxChunks, tokenBudget, |selected|)
    ensures selected == Map(hits[..|selected|], AsChunk)
    ensures truncated <==> |selected| < |hits| || maxChunks < 0
  {
    selected := [];
    var tokensUsed := 0;
    truncated := |hits| > maxChunks;
    for i := 0 to |hits|
      invariant |selected| == i && selected == Map(hits[..i], AsChunk)
      invariant tokensUsed == Cost(hits[..i])
      invariant Fits(hits, maxChunks, tokenBudget, i)
      invariant truncated <==> |hits| > maxChunks
    {
      var hit := hits[i];
      assert hits[..i + 1][..i] == hits[..i];
      if |selected| >= maxChunks {
        NoLongerFit(hits, maxChunks, tokenBudget, i);
        truncated := true;
        break;
      }
      var estimate := EstimateTokens(hit.Text());
      if tokensUsed + estimate > tokenBudget && |selected| > 0 {
        NoLongerFit(hits, maxChunks, tokenBudget, i);
        truncated := true;
        break;
      }
      assert Map(hits[..i + 1], AsChunk) == Map(hits[..i], AsChunk) + [AsChunk(hit)];
      selected := selected + [AsChunk(hit)];
      tokensUsed := tokensUsed + estimate;
    }
  }

  // ----- evidence ids -----

  method UniqueStable(ids: seq<string>) returns (out: seq<string>)
    ensures out == FirstSeen(ids)
  {
    out := [];
    var seen: set<string> := {};
    for i := 0 to |ids|
      invariant out == FirstSeen(ids[..i])
      invariant forall id :: id in seen <==> id in out
    {
      assert ids[..i + 1][..i] == ids[..i];
      if ids[i] !in seen {
        seen := seen + {ids[i]};
        out := out + [ids[i]];
      }
    }
    TakeAll(ids);
  }

  function EvidenceOf(chunk: ContextChunk): seq<string> { chunk.evidenceIds }

  // ----- assembly -----

  datatype Context = Context(chunks: seq<ContextChunk>, evidenceIds: seq<string>, truncated: bool)

  /** The hits in the order in which they are offered to the context. */
  function Lineup(hits: seq<SearchHit>, less: (string, string) -> bool): seq<SearchHit> {
    RoundRobin(Queues(Deduped(Sort(Filter(hits, Grounded), HitOrder(less)))))
  }

  /** The longest prefix of the line-up within the caps, with its evidence ids, each once. */
  ghost predicate IsContext(context: Context, line: seq<SearchHit>, maxChunks: int, tokenBudget: int) {
    var n := |context.chunks|;
    && LongestFit(line, maxChunks, tokenBudget, n)
    && context.chunks == Map(line[..n], AsChunk)
    && (context.truncated <==> n < |line| || maxChunks < 0)
    && context.evidenceIds == FirstSeen(Flatten(Map(context.chunks, EvidenceOf)))
  }

  method AssembleChatContext(hits: seq<SearchHit>, less: (string, string) -> bool,
                             maxChunks: int := MAX_CHUNKS, tokenBudget: int := TOKEN_BUDGET)
    returns (context: Context)
    ensures IsContext(context, Lineup(hits, less), maxChunks, tokenBudget)
  {
    var ordered := Sort(Filter(hits, Grounded), HitOrder(less));
    var deduped := Dedupe(ordered);
    var diversified := DiversifyByDocument(deduped);
    var selected, truncated := Select(diversified, maxChunks, tokenBudget);
    var evidenceIds := UniqueStable(Flatten(Map(selected, EvidenceOf)));
    context := Context(selected, evidenceIds, truncated);
  }

  lemma HitOrderIsOrder(less: (string, string) -> bool)
    requires StrictWeakOrder(less)
    ensures StrictWeakOrder(HitOrder(less))
  {
  }

  /** Only grounded hits are offered, and each chunk at most once. */
  lemma LineupIsGrounded(hits: seq<SearchHit>, less: (string, string) -> bool)
    ensures forall h :: h in Lineup(hits, less) ==> h in hits && Grounded(h)
    ensures Distinct(Map(Lineup(hits, less), ChunkOf))
  {
    var grounded := Filter(hits, Grounded);
    var ordered := Sort(grounded, HitOrder(less));
    var deduped := Deduped(ordered);
    var line := Lineup(hits, less);
    SameMembers(ordered, grounded);
    DedupedFrom(ordered);
    DedupedOnce(ordered);
    DiversifyPermutes(deduped);
    SameMembers(line, deduped);
    MapPermutedDistinct(deduped, line);
  }

  lemma MapPermutedDistinct(a: seq<SearchHit>, b: seq<SearchHit>)
    requires multiset(a) == multiset(b) && Distinct(Map(a, ChunkOf))
    ensures Distinct(Map(b, ChunkOf))
  {
    var ids := Map(a, ChunkOf);
    forall i, j | 0 <= i < j < |a| ensures a[i] != a[j] { assert ids[i] != ids[j]; }
    PermutationDistinct(a, b);
    SameMembers(a, b);
    forall i, j | 0 <= i < j < |b| ensures ChunkOf(b[i]) != ChunkOf(b[j]) {
      assert b[i] in a && b[j] in a;
      var k :| 0 <= k < |a| && a[k] == b[i];
      var l :| 0 <= l < |a| && a[l] == b[j];
      assert k != l && ids[k] != ids[l];
    }
  }

  /** Every grounded hit's chunk is offered, by a hit that scores at least as high. */
  lemma LineupHasBest(hits: seq<SearchHit>, less: (string, string) -> bool, hit: SearchHit) returns (best: SearchHit)
    requires StrictWeakOrder(less) && hit in hits && Grounded(hit)
    ensures best in Lineup(hits, less) && best.ChunkId() == hit.ChunkId()
    ensures best.ranked.rerankScore >= hit.ranked.rerankScore
  {
    var grounded := Filter(hits, Grounded);
    var order := HitOrder(less);
    var ordered := Sort(grounded, order);
    HitOrderIsOrder(less);
    SortSorted(grounded, order);
    SameMembers(ordered, grounded);
    assert hit in ordered;
    var i :| 0 <= i < |ordered| && ordered[i] == hit;
    best := DedupedKeepsBest(ordered, order, i);
    DiversifyPermutes(Deduped(ordered));
    SameMembers(Lineup(hits, less), Deduped(ordered));
  }
}
