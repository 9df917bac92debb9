/**
 * The hit-rate experiment: each trial plants a gold document at one node, sends one search for
 * its query from one node at every hop distance from it, forwards for a bounded number of epochs
 * and scores each search; the trials' scores are accumulated per hop and reduced to hit rates.
 */
module HitRateAnalysis {
  import opened Wrappers
  import opened Collaborators
  import opened Outcomes

  /** The random draws and collaborator answers one trial consumes. */
  datatype Draw = Draw(
    query: Query,                          // sample_gold_pair: the query ...
    gold: Document,                        // ... and its gold document
    sampleOthers: nat -> seq<Document>,    // sample_other_docs
    goldNode: Node,                        // sample_node
    layers: seq<seq<Node>>,                // stream_hops(gold_node): the nodes at hop 0, 1, ...
    choice: seq<nat>,                      // the index random.choice picks in each layer
    forward: Forwarding)                   // forward_messages

  /** The collaborators keep their contracts: every layer is non-empty and random.choice picks
      inside it; the dataset returns as many documents as asked, none of them the gold one. */
  ghost predicate ValidDraw(d: Draw)
  {
    && |d.choice| == |d.layers|
    && (forall h :: 0 <= h < |d.layers| ==> d.choice[h] < |d.layers[h]|)
    && forall n: nat :: |d.sampleOthers(n)| == n && d.gold !in d.sampleOthers(n)
  }

  /** `hop2node`: one node per layer, the one random.choice picked. */
  function HopToNode(layers: seq<seq<Node>>, choice: seq<nat>): (r: map<nat, Node>)
    requires |choice| == |layers|
    requires forall h :: 0 <= h < |layers| ==> choice[h] < |layers[h]|
    ensures forall h: nat :: h in r <==> h < |layers|
    ensures forall h :: 0 <= h < |layers| ==> r[h] in layers[h]
  {
    map h | h in HopRange(|layers|) :: layers[h][choice[h]]
  }

  /** The messages a trial queues, as forwarding sees them: hop h's from hop h's node. */
  function Dispatched(d: Draw, ttl: nat): (r: seq<Dispatch>)
    requires ValidDraw(d)
    ensures |r| == |d.layers|
    ensures forall h :: 0 <= h < |r| ==> r[h] == Dispatch(HopToNode(d.layers, d.choice)[h], d.query, ttl)
  {
    var hop2node := HopToNode(d.layers, d.choice);
    seq(|d.layers|, h requires 0 <= h < |d.layers| => Dispatch(hop2node[h], d.query, ttl))
  }

  /** `int(search.candidate_doc == gold_doc)`. */
  function Score(candidate: Option<Document>, gold: Document): (r: nat)
    ensures r <= 1
    ensures r == 1 <==> candidate == Some(gold)
  {
    if candidate == Some(gold) then 1 else 0
  }

  /** The outcome a trial reports: one entry per layer, 1 exactly when that hop's search ended
      with the gold document as candidate after 5 * ttl epochs of forwarding. */
  function TrialResult(d: Draw, ttl: nat): (r: TrialOutcome)
    requires ValidDraw(d)
    ensures forall h: nat :: h in r <==> h < |d.layers|
    ensures Contiguous(r) && AllBits(r)
    ensures forall h :: h in r ==>
      (r[h] == 1 <==> d.forward(Dispatched(d, ttl), 5 * ttl, h) == Some(d.gold))
  {
    map h | h in HopRange(|d.layers|) :: Score(d.forward(Dispatched(d, ttl), 5 * ttl, h), d.gold)
  }

  /** A map with one entry per layer holding that hop's score is the trial's result. */
  lemma TrialResultByScores(d: Draw, ttl: nat, r: TrialOutcome)
    requires ValidDraw(d)
    requires r.Keys == HopRange(|d.layers|)
    requires forall h :: h in r ==> r[h] == Score(d.forward(Dispatched(d, ttl), 5 * ttl, h), d.gold)
    ensures r == TrialResult(d, ttl)
  {
  }

  /** The outcomes of a sequence of trials. */
  function TrialResults(draws: seq<Draw>, ttl: nat): (r: seq<TrialOutcome>)
    requires forall i :: 0 <= i < |draws| ==> ValidDraw(draws[i])
    ensures |r| == |draws|
    ensures forall i :: 0 <= i < |draws| ==> r[i] == TrialResult(draws[i], ttl)
  {
    seq(|draws|, i requires 0 <= i < |draws| && ValidDraw(draws[i]) => TrialResult(draws[i], ttl))
  }

  /** Some draw's layers reach hop `h`. */
  predicate Reached(draws: seq<Draw>, h: nat)
  {
    exists i :: 0 <= i < |draws| && h < |draws[i].layers|
  }

  /** What `postprocess` reports after `run`: the hops 0, 1, ... up to the deepest layer any trial
      reached, each with the rate over exactly the trials whose layers reached it (a value in
      [0, 1]), and no more trials behind a farther hop than behind a nearer one. */
  lemma RunReport(draws: seq<Draw>, ttl: nat)
    requires forall i :: 0 <= i < |draws| ==> ValidDraw(draws[i])
    ensures var os := TrialResults(draws, ttl);
      var r := Postprocess(Accumulate(os));
      && (forall h: nat :: h in r.hops <==> Reached(draws, h))
      && (forall k :: 0 <= k < |r.hops| ==> r.hops[k] == k && RateOfHop(os, k, r.hitRates[k]))
      && (forall j, k :: 0 <= j <= k < |r.hops| ==> r.hitRates[k].trials <= r.hitRates[j].trials)
  {
    var os := TrialResults(draws, ttl);
    TrialResultsShape(draws, ttl);
    PrefixReport(os);
    forall h: nat ensures ObservedBy(os, h) <==> Reached(draws, h) {
      ObservedByLayers(draws, ttl, h);
    }
  }

  lemma TrialResultsShape(draws: seq<Draw>, ttl: nat)
    requires forall i :: 0 <= i < |draws| ==> ValidDraw(draws[i])
    ensures var os := TrialResults(draws, ttl);
      forall i :: 0 <= i < |os| ==> AllBits(os[i]) && Contiguous(os[i])
  {
    var os := TrialResults(draws, ttl);
    forall i | 0 <= i < |os| ensures AllBits(os[i]) && Contiguous(os[i]) {
      var o := TrialResult(draws[i], ttl);
      assert os[i] == o;
    }
  }

  /** Some trial observed hop `h` exactly when some draw's layers reach `h`. */
  lemma ObservedByLayers(draws: seq<Draw>, ttl: nat, h: nat)
    requires forall i :: 0 <= i < |draws| ==> ValidDraw(draws[i])
    ensures ObservedBy(TrialResults(draws, ttl), h) <==> Reached(draws, h)
  {
    var os := TrialResults(draws, ttl);
    if ObservedBy(os, h) {
      var i :| 0 <= i < |os| && h in os[i];
      var o := TrialResult(draws[i], ttl);
      assert os[i] == o;
      assert h < |draws[i].layers|;
    }
    if Reached(draws, h) {
      var i :| 0 <= i < |draws| && h < |draws[i].layers|;
      var o := TrialResult(draws[i], ttl);
      assert os[i] == o;
      assert h in os[i];
    }
  }

  /** A configured document count: the gold document plus nDocs - 1 others. */
  type DocCount = n: nat | n >= 1 witness 1

  /** The calls that prepare a trial: the gold document at the gold node, the nDocs - 1 other
      documents, diffusion. */
  function Prepared(d: Draw, nDocs: nat): seq<Event>
    requires nDocs >= 1
  {
    [AddedDoc(d.goldNode, d.gold), Scattered(d.sampleOthers(nDocs - 1)), Diffused]
  }

  /** The calls a trial makes on the cleared network, given the messages it queued: the
      preparation, the messages, and forwarding for 5 * ttl epochs. */
  function TrialLog(d: Draw, nDocs: nat, ttl: nat, queue: seq<(Node, Message)>): seq<Event>
    requires nDocs >= 1
  {
    Prepared(d, nDocs) + MessageEvents(queue) + [Forwarded(5 * ttl)]
  }

  /** The order of a trial's calls: the gold document is added first and only at the gold node,
      exactly nDocs - 1 other documents (none of them the gold one) are scattered next, diffusion
      follows, then every message is queued, and forwarding for 5 * ttl epochs comes last. */
  lemma TrialLogShape(d: Draw, nDocs: nat, ttl: nat, queue: seq<(Node, Message)>)
    requires ValidDraw(d) && nDocs >= 1
    ensures var log := TrialLog(d, nDocs, ttl, queue);
      && |log| == |queue| + 4
      && log[0] == AddedDoc(d.goldNode, d.gold)
      && (forall i :: 1 <= i < |log| ==> !log[i].AddedDoc?)
      && log[1].Scattered? && |log[1].docs| == nDocs - 1 && d.gold !in log[1].docs
      && log[2] == Diffused
      && (forall i :: 0 <= i < |log| ==> (log[i].AddedMessage? <==> 3 <= i < 3 + |queue|))
      && log[|log| - 1] == Forwarded(5 * ttl)
  {
    var log := TrialLog(d, nDocs, ttl, queue);
    var events := MessageEvents(queue);
    assert forall i :: 3 <= i < 3 + |queue| ==> log[i] == events[i - 3];
  }

  lemma TrialResultsSnoc(draws: seq<Draw>, i: nat, ttl: nat)
    requires i < |draws|
    requires forall i :: 0 <= i < |draws| ==> ValidDraw(draws[i])
    ensures Accumulate(TrialResults(draws[..i + 1], ttl))
         == Absorb(Accumulate(TrialResults(draws[..i], ttl)), TrialResult(draws[i], ttl))
  {
    var os := TrialResults(draws[..i + 1], ttl);
    assert os[..i] == TrialResults(draws[..i], ttl);
  }

  /** The inner loop of `run`: each hop's success of one trial appended to that hop's list,
      a hop seen for the first time starting a new list. */
  method AppendOutcomes(agg: Aggregate, results: TrialOutcome) returns (r: Aggregate)
    ensures r == Absorb(agg, results)
  {
    r := agg;
    var pending := results.Keys;
    while pending != {}
      invariant pending <= results.Keys
      invariant r.Keys == agg.Keys + (results.Keys - pending)
      invariant forall h :: h in results && h !in pending ==> r[h] == Lookup(agg, h) + [results[h]]
      invariant forall h :: h in agg && (h !in results || h in pending) ==> r[h] == agg[h]
      decreases pending
    {
      var hop :| hop in pending;
      r := r[hop := Lookup(r, hop) + [results[hop]]];
      pending := pending - {hop};
    }
    AbsorbPointwise(agg, results, r);
  }

  class Simulation {
    const nDocs: DocCount
    const nIters: nat
    const ttl: nat
    const network: Network

    constructor (network: Network, nDocs: DocCount, nIters: nat, ttl: nat)
      ensures this.network == network && this.nDocs == nDocs && this.nIters == nIters && this.ttl == ttl
    {
      this.network := network;
      this.nDocs := nDocs;
      this.nIters := nIters;
      this.ttl := ttl;
    }

    /** `iterate`: one trial. The network afterwards has received exactly the calls of `TrialLog`,
        and the messages it queued are the ones `Dispatched` describes. */
    method Iterate(d: Draw) returns (hop2success: TrialOutcome)
      requires ValidDraw(d)
      modifies network
      ensures hop2success == TrialResult(d, ttl)
      ensures network.log == TrialLog(d, nDocs, ttl, network.queue)
      ensures Dispatches(network.queue) == Dispatched(d, ttl)
    {
      network.Clear();

      var query, goldDoc := d.query, d.gold;
      var otherDocs := d.sampleOthers(nDocs - 1);

      var goldNode := d.goldNode;
      network.AddDoc(goldNode, goldDoc);
      network.ScatterDocs(otherDocs);

      network.DiffuseFastEmbeddings();

      var hop2node := HopToNode(d.layers, d.choice);
      ghost var prepared := network.log;
      assert prepared == Prepared(d, nDocs);
      var searches := SendSearches(hop2node, |d.layers|, query);
      ghost var queued := network.queue;
      var view := Dispatched(d, ttl);
      assert Dispatches(queued) == view;
      network.ForwardMessages(5 * ttl, d.forward);
      assert network.log == TrialLog(d, nDocs, ttl, queued);
      hop2success := map h | h in HopRange(|searches|) :: Score(searches[h].candidate, goldDoc);
      forall h | h in hop2success ensures hop2success[h] == Score(d.forward(view, 5 * ttl, h), goldDoc) {
        assert queued[h].1.search == searches[h];
      }
      TrialResultByScores(d, ttl, hop2success);
    }

    /** The dispatch loop of `iterate`: a fresh search per hop, its message queued at that hop's
        node, on a network with no messages queued yet. */
    method SendSearches(hop2node: map<nat, Node>, n: nat, query: Query) returns (searches: seq<Search>)
      requires forall h :: 0 <= h < n ==> h in hop2node
      requires network.queue == []
      modifies network
      ensures |searches| == n
      ensures network.log == old(network.log) + MessageEvents(network.queue)
      ensures |network.queue| == n
      ensures forall h :: 0 <= h < n ==> network.queue[h] == (hop2node[h], Message(searches[h], ttl))
      ensures forall h :: 0 <= h < n ==> fresh(searches[h]) && searches[h].query == query
      ensures DistinctSearches(network.queue)
    {
      ghost var log0 := network.log;
      ghost var queued: seq<(Node, Message)> := [];
      ghost var created: set<Search> := {};
      searches := [];
      var hop := 0;
      while hop < n
        invariant 0 <= hop <= n
        invariant |searches| == hop
        invariant network.queue == queued
        invariant network.log == log0 + MessageEvents(queued)
        invariant |queued| == hop
        invariant forall h :: 0 <= h < hop ==> queued[h] == (hop2node[h], Message(searches[h], ttl))
        invariant fresh(created)
        invariant forall h :: 0 <= h < hop ==> searches[h] in created && searches[h].query == query
        invariant DistinctSearches(queued)
      {
        var search := new Search(query);
        created := created + {search};
        assert fresh(created);
        ghost var m := (hop2node[hop], search.SpawnMessage(ttl));
        DistinctSearchesSnoc(queued, m);
        network.AddMessage(hop2node[hop], search.SpawnMessage(ttl));
        MessageEventsSnoc(log0, queued, m);
        searches := searches + [search];
        queued := queued + [m];
        hop := hop + 1;
      }
    }

    /** `run`: `nIters` trials, one per draw, their outcomes appended per hop in trial order. */
    method Run(draws: seq<Draw>) returns (hop2success: Aggregate)
      requires |draws| == nIters
      requires forall i :: 0 <= i < |draws| ==> ValidDraw(draws[i])
      modifies network
      ensures hop2success == Accumulate(TrialResults(draws, ttl))
    {
      hop2success := map[];
      var i := 0;
      while i < nIters
        invariant 0 <= i <= nIters
        invariant hop2success == Accumulate(TrialResults(draws[..i], ttl))
      {
        var results := Iterate(draws[i]);
        hop2success := AppendOutcomes(hop2success, results);
        TrialResultsSnoc(draws, i, ttl);
        i := i + 1;
      }
      assert draws[..i] == draws;
    }
  }
}
