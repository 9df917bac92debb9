/**
 * The collaborators the experiment drives but whose internals are not part of this model:
 * the peer-to-peer network (its documents, its message queues, its diffusion and forwarding
 * engine) and the query searches whose candidate document the forwarding updates.
 * The network is modelled only by the calls it receives; what forwarding decides is an oracle.
 */
module Collaborators {
  import opened Wrappers

  /** A node handle of the network. */
  type Node = nat

  /** A document of the retrieval dataset (its embedding plays no part here). */
  datatype Document = Document(id: nat)

  /** A query of the retrieval dataset. */
  datatype Query = Query(id: nat)

  /** A search for one query; forwarding may overwrite its best candidate document. */
  class Search {
    const query: Query
    var candidate: Option<Document>

    constructor (query: Query)
      ensures this.query == query && candidate == None
    {
      this.query := query;
      candidate := None;
    }

    /** A message that carries this search (and so shares its candidate slot) with the given ttl. */
    function SpawnMessage(ttl: nat): Message
    {
      Message(this, ttl)
    }
  }

  /** A message in flight: the search it serves and its time-to-live. */
  datatype Message = Message(search: Search, ttl: nat)

  /** What forwarding can see of a queued message: where it was injected, its query and its ttl. */
  datatype Dispatch = Dispatch(node: Node, query: Query, ttl: nat)

  /** The forwarding engine as an oracle: given the queued messages and the epoch budget, the
      final candidate document of the i-th queued message's search. */
  type Forwarding = (seq<Dispatch>, nat, nat) -> Option<Document>

  /** A call the network received. */
  datatype Event =
    | AddedDoc(node: Node, doc: Document)
    | Scattered(docs: seq<Document>)
    | Diffused
    | AddedMessage(node: Node, msg: Message)
    | Forwarded(epochs: nat)

  /** The calls that queue the messages of `queue`, in order. */
  function MessageEvents(queue: seq<(Node, Message)>): (r: seq<Event>)
    ensures |r| == |queue|
    ensures forall i :: 0 <= i < |queue| ==> r[i] == AddedMessage(queue[i].0, queue[i].1)
  {
    seq(|queue|, i requires 0 <= i < |queue| => AddedMessage(queue[i].0, queue[i].1))
  }

  lemma MessageEventsSnoc(prefix: seq<Event>, queue: seq<(Node, Message)>, m: (Node, Message))
    ensures prefix + MessageEvents(queue) + [AddedMessage(m.0, m.1)] == prefix + MessageEvents(queue + [m])
  {
  }

  /** The forwarding engine's view of a queue. */
  function Dispatches(queue: seq<(Node, Message)>): (r: seq<Dispatch>)
    ensures |r| == |queue|
    ensures forall i :: 0 <= i < |queue| ==>
      r[i] == Dispatch(queue[i].0, queue[i].1.search.query, queue[i].1.ttl)
  {
    seq(|queue|, i requires 0 <= i < |queue| => Dispatch(queue[i].0, queue[i].1.search.query, queue[i].1.ttl))
  }

  /** The searches served by a queue. */
  ghost function SearchesOf(queue: seq<(Node, Message)>): set<Search>
  {
    set i | 0 <= i < |queue| :: queue[i].1.search
  }

  /** No two queued messages serve the same search. */
  predicate DistinctSearches(queue: seq<(Node, Message)>)
  {
    forall i, j :: 0 <= i < j < |queue| ==> queue[i].1.search != queue[j].1.search
  }

  lemma DistinctSearchesSnoc(queue: seq<(Node, Message)>, m: (Node, Message))
    requires DistinctSearches(queue)
    requires forall i :: 0 <= i < |queue| ==> queue[i].1.search != m.1.search
    ensures DistinctSearches(queue + [m])
  {
  }

  /** The network's per-trial state: the calls it received since it was last cleared and the
      messages queued at its nodes, in the order they were added. */
  class Network {
    var log: seq<Event>
    var queue: seq<(Node, Message)>

    constructor ()
      ensures log == [] && queue == []
    {
      log, queue := [], [];
    }

    /** `clear`: forgets the documents and messages of the previous trial. */
    method Clear()
      modifies this
      ensures log == [] && queue == []
    {
      log, queue := [], [];
    }

    /** `node.add_doc(doc)`. */
    method AddDoc(node: Node, doc: Document)
      modifies this
      ensures log == old(log) + [AddedDoc(node, doc)] && queue == old(queue)
    {
      log := log + [AddedDoc(node, doc)];
    }

    /** `scatter_docs(docs)`: places each document at a node of the network's choosing. */
    method ScatterDocs(docs: seq<Document>)
      modifies this
      ensures log == old(log) + [Scattered(docs)] && queue == old(queue)
    {
      log := log + [Scattered(docs)];
    }

    /** `diffuse_fast_embeddings`: propagates the placed documents' embeddings. */
    method DiffuseFastEmbeddings()
      modifies this
      ensures log == old(log) + [Diffused] && queue == old(queue)
    {
      log := log + [Diffused];
    }

    /** `node.add_message(msg)`: queues a message at a node. */
    method AddMessage(node: Node, msg: Message)
      modifies this
      ensures log == old(log) + [AddedMessage(node, msg)]
      ensures queue == old(queue) + [(node, msg)]
    {
      log := log + [AddedMessage(node, msg)];
      queue := queue + [(node, msg)];
    }

    /** `forward_messages(epochs, monitor=None)`: runs forwarding for `epochs` epochs; afterwards
        each queued message's search holds the candidate the forwarding engine settled on. */
    method ForwardMessages(epochs: nat, forward: Forwarding)
      requires DistinctSearches(queue)
      modifies this, SearchesOf(queue)
      ensures log == old(log) + [Forwarded(epochs)] && queue == old(queue)
      ensures forall i :: 0 <= i < |queue| ==>
        queue[i].1.search.candidate == forward(Dispatches(queue), epochs, i)
    {
      var view := Dispatches(queue);
      var i := 0;
      while i < |queue|
        invariant 0 <= i <= |queue|
        invariant log == old(log) && queue == old(queue)
        invariant forall j :: 0 <= j < i ==> queue[j].1.search.candidate == forward(view, epochs, j)
      {
        queue[i].1.search.candidate := forward(view, epochs, i);
        i := i + 1;
      }
      log := log + [Forwarded(epochs)];
    }
  }
}
