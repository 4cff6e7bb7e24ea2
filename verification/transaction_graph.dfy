/**
 * The transaction graph of the wallet page: a list of transaction records from
 * the transactions API is folded into a set of wallet nodes, keyed and
 * deduplicated by address, and one directed link per usable transaction.
 */
module TransactionGraph {
  import opened Wrappers

  const AliceAddress := "0x1234567890123456789012345678901234567890"
  const BobAddress := "0x0987654321098765432109876543210987654321"
  const InvalidLabel := "Invalid"
  const InvalidData := "Invalid transaction data"

  /** The role that fixed a node: first seen as a receiver (`In`) or as a sender
      (`Out`). `Both` exists in the node type but the build never produces it. */
  datatype NodeType = In | Out | Both

  /** A wallet node; `caption` is the source's `label` field. Its random colour and the layout coordinates the drawing
      library adds are not part of the model. */
  datatype GraphNode = GraphNode(id: string, caption: string, kind: NodeType)

  /** A directed link from sender to receiver; `value` is the raw amount text
      (`"0"` when absent) before it is read as a floating-point number. */
  datatype Link = Link(source: string, target: string, value: string)

  /** A transaction record: `From.addressId`, `To.addressId` and
      `Transfer.value`, each possibly missing. */
  datatype Transaction = Transaction(from: Option<string>, to: Option<string>, value: Option<string>)

  /** The API's reply: `transactions` is `None` when the field is not an array. */
  datatype ApiResponse = ApiResponse(success: bool, transactions: Option<seq<Transaction>>, error: Option<string>)

  datatype GraphData = GraphData(nodes: seq<GraphNode>, links: seq<Link>)

  function Min(a: nat, b: nat): nat {
    if a < b then a else b
  }

  /** `0x1234...abcd`: the first six characters, an ellipsis and the last four,
      each clipped to the address; `"Invalid"` for the empty address. */
  function ShortenAddress(address: string): (r: string)
    ensures r == InvalidLabel <==> address == ""
    ensures address != "" ==>
      var head, tail := Min(6, |address|), Min(4, |address|);
      |r| == head + 3 + tail && r[..head] == address[..head] && r[head..head + 3] == "..."
      && r[head + 3..] == address[|address| - tail..]
  {
    if address == "" then InvalidLabel
    else
      var head, tail := Min(6, |address|), Min(4, |address|);
      var r := address[..head] + "..." + address[|address| - tail..];
      assert r[head..head + 3] == "...";
      assert r != InvalidLabel by {
        if |r| == 7 {
          assert head == 2 && r[2..5] == "...";
          assert InvalidLabel[2..5] == "val";
        }
      }
      r
  }

  /** The display name of the two known wallets; `None` for every other address. */
  function NameForAddress(address: string): (r: Option<string>)
    ensures r == Some("Alice") <==> address == AliceAddress
    ensures r == Some("Bob") <==> address == BobAddress
    ensures r.None? <==> address != AliceAddress && address != BobAddress
  {
    if address == AliceAddress then Some("Alice")
    else if address == BobAddress then Some("Bob")
    else None
  }

  /** A node's label: the known name, else the shortened address. */
  function NodeLabel(address: string): (r: string)
    ensures NameForAddress(address).Some? ==> r == NameForAddress(address).value
    ensures NameForAddress(address).None? ==> r == ShortenAddress(address)
  {
    match NameForAddress(address)
    case Some(name) => name
    case None => ShortenAddress(address)
  }

  /** A shortened address is `Invalid` or at least five characters long, and
      when it has exactly five its second character is the first dot of the
      ellipsis; so it never equals a short name without a dot there. */
  lemma ShortenedIsNoName(address: string, name: string)
    requires |name| < 5 || (|name| == 5 && name[1] != '.')
    ensures ShortenAddress(address) != name
  {
    var r := ShortenAddress(address);
    if address != "" && |r| == 5 {
      assert Min(6, |address|) == 1 && r[1..4] == "...";
      assert r[1] == '.';
    }
  }

  /** The label reads as a name exactly for the known wallets: a shortened
      address never passes for `Alice` or `Bob`. */
  lemma LabelNamesKnownWallets(address: string)
    ensures NodeLabel(address) == "Alice" <==> address == AliceAddress
    ensures NodeLabel(address) == "Bob" <==> address == BobAddress
  {
    if NameForAddress(address).None? {
      ShortenedIsNoName(address, "Alice");
      ShortenedIsNoName(address, "Bob");
    }
  }

  /** JavaScript truthiness of an optional string: present and non-empty. */
  predicate Present(s: Option<string>) {
    s.Some? && s.value != ""
  }

  /** A record contributes to the graph only when both addresses are present. */
  predicate IsComplete(tx: Transaction) {
    Present(tx.from) && Present(tx.to)
  }

  function LinkOf(tx: Transaction): (l: Link)
    requires IsComplete(tx)
    ensures l.source == tx.from.value && l.target == tx.to.value
  {
    Link(tx.from.value, tx.to.value, if Present(tx.value) then tx.value.value else "0")
  }

  /** The response check before the build: an unsuccessful reply, a missing
      reply or one whose `transactions` is not an array is an error carrying
      the reply's own error text, or a generic one. */
  function CheckResponse(response: Option<ApiResponse>): (r: Result<seq<Transaction>, string>)
    ensures r.Success? <==> response.Some? && response.value.success && response.value.transactions.Some?
    ensures r.Success? ==> r.value == response.value.transactions.value
    ensures r.Failure? && response.Some? && Present(response.value.error) ==> r.error == response.value.error.value
    ensures r.Failure? && !(response.Some? && Present(response.value.error)) ==> r.error == InvalidData
  {
    if response.Some? && response.value.success && response.value.transactions.Some? then
      Success(response.value.transactions.value)
    else if response.Some? && Present(response.value.error) then
      Failure(response.value.error.value)
    else
      Failure(InvalidData)
  }

  // ---------------------------------------------------------------------------
  // Reference definition of the graph

  /** The complete records, in input order. */
  function Complete(txs: seq<Transaction>): (c: seq<Transaction>)
    ensures |c| <= |txs|
    ensures forall k :: 0 <= k < |c| ==> IsComplete(c[k])
    ensures (forall k :: 0 <= k < |txs| ==> IsComplete(txs[k])) ==> c == txs
  {
    if txs == [] then []
    else
      var p, tx := txs[..|txs| - 1], txs[|txs| - 1];
      assert txs == p + [tx];
      Complete(p) + (if IsComplete(tx) then [tx] else [])
  }

  /** One link per complete record, in the same order. */
  function LinksOf(c: seq<Transaction>): (links: seq<Link>)
    requires forall k :: 0 <= k < |c| ==> IsComplete(c[k])
  {
    seq(|c|, k requires 0 <= k < |c| => LinkOf(c[k]))
  }

  /** One address seen in one role. */
  datatype Sighting = Sighting(address: string, kind: NodeType)

  /** Every address the build visits, in visiting order: sender then receiver
      of each complete record. */
  function Sightings(txs: seq<Transaction>): seq<Sighting>
  {
    if txs == [] then []
    else
      var tx := txs[|txs| - 1];
      Sightings(txs[..|txs| - 1])
      + (if IsComplete(tx) then [Sighting(tx.from.value, Out), Sighting(tx.to.value, In)] else [])
  }

  function Addresses(s: seq<Sighting>): set<string> {
    set k | 0 <= k < |s| :: s[k].address
  }

  /** No address occurs twice. */
  predicate Distinct(fs: seq<Sighting>) {
    forall j, k :: 0 <= j < k < |fs| ==> fs[j].address != fs[k].address
  }

  lemma AddressesAppend(a: seq<Sighting>, b: seq<Sighting>)
    ensures Addresses(a + b) == Addresses(a) + Addresses(b)
  {
    forall x | x in Addresses(a + b) ensures x in Addresses(a) + Addresses(b) {
      var k :| 0 <= k < |a + b| && (a + b)[k].address == x;
      if k >= |a| { assert b[k - |a|].address == x; }
    }
    forall x | x in Addresses(b) ensures x in Addresses(a + b) {
      var k :| 0 <= k < |b| && b[k].address == x;
      assert (a + b)[|a| + k].address == x;
    }
    forall x | x in Addresses(a) ensures x in Addresses(a + b) {
      var k :| 0 <= k < |a| && a[k].address == x;
      assert (a + b)[k].address == x;
    }
  }

  /** The first sighting of each address, in order: later sightings of an
      address already seen are dropped. */
  function FirstSightings(s: seq<Sighting>): (r: seq<Sighting>)
    ensures Addresses(r) == Addresses(s)
  {
    if s == [] then []
    else
      var prior := s[..|s| - 1];
      var last := s[|s| - 1];
      var p := FirstSightings(prior);
      var r := p + (if last.address in Addresses(prior) then [] else [last]);
      AddressesAppend(prior, [last]);
      assert s == prior + [last];
      AddressesAppend(p, if last.address in Addresses(prior) then [] else [last]);
      r
  }

  /** Every first sighting is a sighting, and no address is kept twice. */
  lemma {:induction false} FirstSightingsFacts(s: seq<Sighting>)
    ensures forall k :: 0 <= k < |FirstSightings(s)| ==> FirstSightings(s)[k] in s
    ensures Distinct(FirstSightings(s))
  {
    if s != [] {
      var prior, last := s[..|s| - 1], s[|s| - 1];
      var p := FirstSightings(prior);
      FirstSightingsFacts(prior);
      assert s == prior + [last];
      assert forall k :: 0 <= k < |p| ==> p[k].address in Addresses(p);
    }
  }

  /** The node literal set for an address first seen in role `s.kind`. */
  function NodeOf(s: Sighting): (n: GraphNode)
    ensures n.id == s.address && n.kind == s.kind
  {
    GraphNode(s.address, NodeLabel(s.address), s.kind)
  }

  function NodesOf(fs: seq<Sighting>): seq<GraphNode> {
    seq(|fs|, k requires 0 <= k < |fs| => NodeOf(fs[k]))
  }

  /** The graph the build must produce: one node per first sighting and one
      link per complete record. */
  function ExpectedGraph(txs: seq<Transaction>): GraphData {
    GraphData(NodesOf(FirstSightings(Sightings(txs))), LinksOf(Complete(txs)))
  }

  // ---------------------------------------------------------------------------
  // The build

  /** `Array.from(nodes.values())`: the values of the map in insertion order. */
  function InsertionOrderValues(order: seq<string>, nodes: map<string, GraphNode>): seq<GraphNode>
    requires forall k :: 0 <= k < |order| ==> order[k] in nodes
  {
    seq(|order|, k requires 0 <= k < |order| => nodes[order[k]])
  }

  lemma FirstSightingsSnoc(s: seq<Sighting>, x: Sighting)
    ensures FirstSightings(s + [x]) == FirstSightings(s) + (if x.address in Addresses(s) then [] else [x])
  {
    assert (s + [x])[..|s|] == s;
  }

  lemma SightingsSnoc(txs: seq<Transaction>, tx: Transaction)
    ensures Sightings(txs + [tx])
         == Sightings(txs) + (if IsComplete(tx) then [Sighting(tx.from.value, Out), Sighting(tx.to.value, In)] else [])
    ensures Complete(txs + [tx]) == Complete(txs) + (if IsComplete(tx) then [tx] else [])
  {
    assert (txs + [tx])[..|txs|] == txs;
  }

  /** The keys of the node map in insertion order: one per first sighting. */
  function Ids(fs: seq<Sighting>): (ids: seq<string>)
    ensures |ids| == |fs|
  {
    if fs == [] then [] else Ids(fs[..|fs| - 1]) + [fs[|fs| - 1].address]
  }

  /** The node map after inserting the node of every first sighting. */
  function NodeMap(fs: seq<Sighting>): map<string, GraphNode> {
    if fs == [] then map[] else NodeMap(fs[..|fs| - 1])[fs[|fs| - 1].address := NodeOf(fs[|fs| - 1])]
  }

  lemma {:induction false} NodeMapKeys(fs: seq<Sighting>)
    ensures NodeMap(fs).Keys == Addresses(fs)
  {
    if fs != [] {
      var p := fs[..|fs| - 1];
      NodeMapKeys(p);
      assert fs == p + [fs[|fs| - 1]];
      AddressesAppend(p, [fs[|fs| - 1]]);
      assert Addresses([fs[|fs| - 1]]) == {fs[|fs| - 1].address};
    }
  }

  /** With distinct addresses, the `k`-th key is the `k`-th address and keeps
      the node of its own sighting. */
  lemma {:induction false} NodeMapAt(fs: seq<Sighting>, k: nat)
    requires Distinct(fs) && k < |fs|
    ensures Ids(fs)[k] == fs[k].address
    ensures fs[k].address in NodeMap(fs) && NodeMap(fs)[fs[k].address] == NodeOf(fs[k])
  {
    var p, last := fs[..|fs| - 1], fs[|fs| - 1];
    assert Ids(fs) == Ids(p) + [last.address];
    assert NodeMap(fs) == NodeMap(p)[last.address := NodeOf(last)];
    if k < |p| {
      assert fs[k] == p[k] && fs[k].address != last.address;
      assert Distinct(p) by {
        assert forall j :: 0 <= j < |p| ==> p[j] == fs[j];
      }
      NodeMapAt(p, k);
    }
  }

  lemma NodeMapValues(fs: seq<Sighting>)
    requires Distinct(fs)
    ensures forall k :: 0 <= k < |fs| ==> Ids(fs)[k] == fs[k].address
    ensures forall k :: 0 <= k < |fs| ==> fs[k].address in NodeMap(fs) && NodeMap(fs)[fs[k].address] == NodeOf(fs[k])
  {
    forall k | 0 <= k < |fs|
      ensures Ids(fs)[k] == fs[k].address
      ensures fs[k].address in NodeMap(fs) && NodeMap(fs)[fs[k].address] == NodeOf(fs[k])
    {
      NodeMapAt(fs, k);
    }
  }

  /** The node map read in insertion order gives one node per first sighting. */
  lemma ValuesInOrder(s: seq<Sighting>)
    ensures var fs := FirstSightings(s);
      && (forall k :: 0 <= k < |Ids(fs)| ==> Ids(fs)[k] in NodeMap(fs))
      && InsertionOrderValues(Ids(fs), NodeMap(fs)) == NodesOf(fs)
  {
    FirstSightingsFacts(s);
    NodeMapValues(FirstSightings(s));
  }

  lemma LinksSnoc(c: seq<Transaction>, tx: Transaction)
    requires forall k :: 0 <= k < |c| ==> IsComplete(c[k])
    requires IsComplete(tx)
    ensures LinksOf(c + [tx]) == LinksOf(c) + [LinkOf(tx)]
  {
  }

  /** `if (!nodes.has(a)) nodes.set(a, node)`: the node of an address not yet
      seen is appended as a new key; an address already present keeps its
      node and its place. */
  method SetIfAbsent(order: seq<string>, nodes: map<string, GraphNode>, ghost seen: seq<Sighting>, s: Sighting)
    returns (order': seq<string>, nodes': map<string, GraphNode>)
    requires order == Ids(FirstSightings(seen)) && nodes == NodeMap(FirstSightings(seen))
    ensures order' == Ids(FirstSightings(seen + [s])) && nodes' == NodeMap(FirstSightings(seen + [s]))
    ensures s.address in nodes ==> order' == order && nodes' == nodes
  {
    ghost var fs := FirstSightings(seen);
    FirstSightingsSnoc(seen, s);
    NodeMapKeys(fs);
    assert Addresses(fs) == Addresses(seen);
    if s.address in nodes {
      assert FirstSightings(seen + [s]) == fs + [] == fs;
      order', nodes' := order, nodes;
    } else {
      ghost var fs' := fs + [s];
      assert FirstSightings(seen + [s]) == fs';
      assert fs'[..|fs|] == fs;
      assert Ids(fs') == order + [s.address];
      assert NodeMap(fs') == nodes[s.address := NodeOf(s)];
      order', nodes' := order + [s.address], nodes[s.address := GraphNode(s.address, NodeLabel(s.address), s.kind)];
    }
  }

  /** The state of the build after the records `done`: the keys in insertion
      order, the node map and the links are those of the reference graph. */
  ghost predicate BuiltFrom(done: seq<Transaction>, order: seq<string>, nodes: map<string, GraphNode>, links: seq<Link>) {
    && order == Ids(FirstSightings(Sightings(done)))
    && nodes == NodeMap(FirstSightings(Sightings(done)))
    && links == LinksOf(Complete(done))
  }

  /** The body of the `forEach` callback for one record: a record with both
      addresses adds its sender (as `Out`) and its receiver (as `In`) when they
      are not yet nodes, and appends its link; any other record is skipped. */
  method AddTransaction(order: seq<string>, nodes: map<string, GraphNode>, links: seq<Link>,
                        ghost done: seq<Transaction>, tx: Transaction)
    returns (order': seq<string>, nodes': map<string, GraphNode>, links': seq<Link>)
    requires BuiltFrom(done, order, nodes, links)
    ensures BuiltFrom(done + [tx], order', nodes', links')
  {
    SightingsSnoc(done, tx);
    order', nodes', links' := order, nodes, links;
    if IsComplete(tx) {
      var from, to := tx.from.value, tx.to.value;
      ghost var seen := Sightings(done);
      order', nodes' := SetIfAbsent(order', nodes', seen, Sighting(from, Out));
      order', nodes' := SetIfAbsent(order', nodes', seen + [Sighting(from, Out)], Sighting(to, In));
      assert seen + [Sighting(from, Out)] + [Sighting(to, In)] == Sightings(done + [tx]);
      LinksSnoc(Complete(done), tx);
      links' := links' + [LinkOf(tx)];
    } else {
      assert Sightings(done + [tx]) == Sightings(done) && Complete(done + [tx]) == Complete(done);
    }
  }

  /** Folds the records into nodes and links. `nodes` with `order` is the
      insertion-ordered map of the source: an address is added only when it is
      not yet a key, and `links` only grows. */
  method BuildGraph(transactions: seq<Transaction>) returns (graph: GraphData)
    ensures graph == ExpectedGraph(transactions)
  {
    var nodes: map<string, GraphNode> := map[];
    var order: seq<string> := [];
    var links: seq<Link> := [];
    ghost var done: seq<Transaction> := [];
    var i := 0;
    while i < |transactions|
      invariant 0 <= i <= |transactions| && done == transactions[..i]
      invariant BuiltFrom(done, order, nodes, links)
    {
      order, nodes, links := AddTransaction(order, nodes, links, done, transactions[i]);
      done := done + [transactions[i]];
      i := i + 1;
    }
    assert done == transactions;
    BuiltGraph(transactions, order, nodes, links);
    graph := GraphData(InsertionOrderValues(order, nodes), links);
  }

  /** After the last record, reading the map in insertion order gives the
      expected graph. */
  lemma BuiltGraph(transactions: seq<Transaction>, order: seq<string>, nodes: map<string, GraphNode>, links: seq<Link>)
    requires BuiltFrom(transactions, order, nodes, links)
    ensures forall k :: 0 <= k < |order| ==> order[k] in nodes
    ensures GraphData(InsertionOrderValues(order, nodes), links) == ExpectedGraph(transactions)
  {
    ValuesInOrder(Sightings(transactions));
  }

  /** The component's data step: check the reply, then build. */
  method LoadGraph(response: Option<ApiResponse>) returns (r: Result<GraphData, string>)
    ensures CheckResponse(response).Failure? ==> r == Failure(CheckResponse(response).error)
    ensures CheckResponse(response).Success? ==> r == Success(ExpectedGraph(CheckResponse(response).value))
  {
    var checked := CheckResponse(response);
    if checked.Failure? {
      return Failure(checked.error);
    }
    var graph := BuildGraph(checked.value);
    return Success(graph);
  }

  // ---------------------------------------------------------------------------
  // Properties of the graph

  /** The ids of a node list. */
  function NodeIds(nodes: seq<GraphNode>): set<string> {
    set k | 0 <= k < |nodes| :: nodes[k].id
  }

  /** Every sender and receiver address of a complete record. */
  function Endpoints(txs: seq<Transaction>): set<string> {
    (set tx | tx in txs && IsComplete(tx) :: tx.from.value) + (set tx | tx in txs && IsComplete(tx) :: tx.to.value)
  }

  /** The node with a given id, searched from the front (`nodes.get(id)`). */
  function Lookup(nodes: seq<GraphNode>, id: string): (r: Option<GraphNode>)
    ensures r.Some? ==> r.value in nodes && r.value.id == id
    ensures r.None? ==> id !in NodeIds(nodes)
  {
    if nodes == [] then None
    else if nodes[0].id == id then Some(nodes[0])
    else
      var r := Lookup(nodes[1..], id);
      assert forall k :: 1 <= k < |nodes| ==> nodes[k] == nodes[1..][k - 1];
      r
  }

  lemma {:induction false} LookupAppend(x: seq<GraphNode>, y: seq<GraphNode>, id: string)
    ensures Lookup(x + y, id) == if Lookup(x, id).Some? then Lookup(x, id) else Lookup(y, id)
  {
    if x != [] {
      assert (x + y)[1..] == x[1..] + y;
      LookupAppend(x[1..], y, id);
    } else {
      assert x + y == y;
    }
  }

  lemma NodesOfAppend(x: seq<Sighting>, y: seq<Sighting>)
    ensures NodesOf(x + y) == NodesOf(x) + NodesOf(y)
  {
  }

  lemma NodeIdsOf(fs: seq<Sighting>)
    ensures NodeIds(NodesOf(fs)) == Addresses(fs)
  {
    assert forall k :: 0 <= k < |fs| ==> NodesOf(fs)[k].id == fs[k].address;
  }

  lemma EndpointsSnoc(txs: seq<Transaction>, tx: Transaction)
    ensures Endpoints(txs + [tx]) == Endpoints(txs) + (if IsComplete(tx) then {tx.from.value, tx.to.value} else {})
  {
    assert forall t :: t in txs + [tx] <==> t in txs || t == tx;
  }

  lemma AddressesPair(x: Sighting, y: Sighting)
    ensures Addresses([x, y]) == {x.address, y.address}
  {
    assert [x, y][0] == x && [x, y][1] == y;
  }

  lemma {:induction false} CompleteMembers(txs: seq<Transaction>)
    ensures forall k :: 0 <= k < |Complete(txs)| ==> Complete(txs)[k] in txs
  {
    if txs != [] {
      var p, tx := txs[..|txs| - 1], txs[|txs| - 1];
      CompleteMembers(p);
      assert forall t :: t in p ==> t in txs;
    }
  }

  /** What the build visits: exactly the endpoints of the complete records,
      each seen as a sender or a receiver, never as both. */
  lemma {:induction false} SightingsCover(txs: seq<Transaction>)
    ensures Addresses(Sightings(txs)) == Endpoints(txs)
    ensures forall k :: 0 <= k < |Sightings(txs)| ==> Sightings(txs)[k].kind != Both
  {
    if txs != [] {
      var p, tx := txs[..|txs| - 1], txs[|txs| - 1];
      assert txs == p + [tx];
      SightingsCover(p);
      SightingsSnoc(p, tx);
      EndpointsSnoc(p, tx);
      var extra := if IsComplete(tx) then [Sighting(tx.from.value, Out), Sighting(tx.to.value, In)] else [];
      AddressesAppend(Sightings(p), extra);
      if IsComplete(tx) {
        AddressesPair(Sighting(tx.from.value, Out), Sighting(tx.to.value, In));
      } else {
        assert Addresses(extra) == {};
      }
    }
  }

  /** Node ids are unique, every node is typed `In` or `Out` and labelled from
      its own address, and the nodes are exactly the endpoints of the complete
      records. */
  lemma GraphNodes(txs: seq<Transaction>)
    ensures var g := ExpectedGraph(txs);
      && (forall j, k :: 0 <= j < k < |g.nodes| ==> g.nodes[j].id != g.nodes[k].id)
      && (forall k :: 0 <= k < |g.nodes| ==> g.nodes[k].kind != Both && g.nodes[k].caption == NodeLabel(g.nodes[k].id))
      && NodeIds(g.nodes) == Endpoints(txs)
  {
    var fs := FirstSightings(Sightings(txs));
    FirstSightingsFacts(Sightings(txs));
    SightingsCover(txs);
    NodeIdsOf(fs);
    forall k | 0 <= k < |fs| ensures fs[k].kind != Both {
      var i :| 0 <= i < |Sightings(txs)| && Sightings(txs)[i] == fs[k];
    }
  }

  /** Links follow the complete records one to one and in order, and both ends
      of every link are nodes of the graph. */
  lemma GraphLinks(txs: seq<Transaction>)
    ensures var g := ExpectedGraph(txs);
      && |g.links| == |Complete(txs)|
      && (forall k :: 0 <= k < |g.links| ==>
            g.links[k].source == Complete(txs)[k].from.value && g.links[k].target == Complete(txs)[k].to.value)
      && (forall k :: 0 <= k < |g.links| ==> g.links[k].source in NodeIds(g.nodes) && g.links[k].target in NodeIds(g.nodes))
  {
    GraphNodes(txs);
    CompleteMembers(txs);
    var c := Complete(txs);
    forall k | 0 <= k < |c| ensures c[k].from.value in Endpoints(txs) && c[k].to.value in Endpoints(txs) {
      assert c[k] in txs;
    }
  }

  lemma {:induction false} SightingsAppend(a: seq<Transaction>, b: seq<Transaction>)
    ensures Sightings(a + b) == Sightings(a) + Sightings(b)
    ensures Complete(a + b) == Complete(a) + Complete(b)
  {
    if b == [] {
      assert a + b == a;
    } else {
      var p, tx := b[..|b| - 1], b[|b| - 1];
      assert a + b == (a + p) + [tx];
      assert b == p + [tx];
      SightingsAppend(a, p);
      SightingsSnoc(a + p, tx);
      SightingsSnoc(p, tx);
    }
  }

  lemma {:induction false} FirstSightingsPrefix(s: seq<Sighting>, t: seq<Sighting>)
    ensures |FirstSightings(s)| <= |FirstSightings(s + t)|
    ensures FirstSightings(s + t)[..|FirstSightings(s)|] == FirstSightings(s)
  {
    if t == [] {
      assert s + t == s;
    } else {
      var p, x := t[..|t| - 1], t[|t| - 1];
      assert s + t == (s + p) + [x];
      FirstSightingsPrefix(s, p);
      FirstSightingsSnoc(s + p, x);
    }
  }

  /** A later record never overwrites or reorders a node already built: the
      nodes of a prefix of the input are a prefix of the nodes of the whole. */
  lemma NodesNeverOverwritten(txs: seq<Transaction>, more: seq<Transaction>)
    ensures |ExpectedGraph(txs).nodes| <= |ExpectedGraph(txs + more).nodes|
    ensures ExpectedGraph(txs + more).nodes[..|ExpectedGraph(txs).nodes|] == ExpectedGraph(txs).nodes
  {
    SightingsAppend(txs, more);
    var fs := FirstSightings(Sightings(txs));
    var all := FirstSightings(Sightings(txs) + Sightings(more));
    FirstSightingsPrefix(Sightings(txs), Sightings(more));
    assert all == fs + all[|fs|..];
    NodesOfAppend(fs, all[|fs|..]);
  }

  /** Links are appended in input order: the links of `txs + more` are those of
      `txs` followed by those of `more`. */
  lemma LinksInInputOrder(txs: seq<Transaction>, more: seq<Transaction>)
    ensures ExpectedGraph(txs + more).links == ExpectedGraph(txs).links + ExpectedGraph(more).links
  {
    SightingsAppend(txs, more);
    LinksAppend(Complete(txs), Complete(more));
  }

  lemma LinksAppend(c: seq<Transaction>, d: seq<Transaction>)
    requires forall k :: 0 <= k < |c| ==> IsComplete(c[k])
    requires forall k :: 0 <= k < |d| ==> IsComplete(d[k])
    ensures LinksOf(c + d) == LinksOf(c) + LinksOf(d)
  {
  }

  /** A record missing either address adds no node and no link, wherever it
      stands in the input. */
  lemma IncompleteIgnored(before: seq<Transaction>, tx: Transaction, after: seq<Transaction>)
    requires !IsComplete(tx)
    ensures ExpectedGraph(before + [tx] + after) == ExpectedGraph(before + after)
  {
    SightingsAppend(before + [tx], after);
    SightingsAppend(before, after);
    SightingsSnoc(before, tx);
    assert Sightings(before + [tx] + after) == Sightings(before + after);
    assert Complete(before + [tx] + after) == Complete(before + after);
  }

  /** The nodes built from `txs` keep the node they give an address when more
      records follow. */
  lemma {:induction false} LookupPersists(txs: seq<Transaction>, more: seq<Transaction>, a: string)
    requires Lookup(ExpectedGraph(txs).nodes, a).Some?
    ensures Lookup(ExpectedGraph(txs + more).nodes, a) == Lookup(ExpectedGraph(txs).nodes, a)
  {
    NodesNeverOverwritten(txs, more);
    LookupPrefix(ExpectedGraph(txs).nodes, ExpectedGraph(txs + more).nodes, a);
  }

  lemma LookupPrefix(x: seq<GraphNode>, all: seq<GraphNode>, a: string)
    requires |x| <= |all| && all[..|x|] == x
    requires Lookup(x, a).Some?
    ensures Lookup(all, a) == Lookup(x, a)
  {
    assert all == x + all[|x|..];
    LookupAppend(x, all[|x|..], a);
  }

  /** Within the record that first mentions `a`: its sender is visited first. */
  lemma FirstMention(p: seq<Transaction>, tx: Transaction, a: string)
    requires IsComplete(tx)
    requires a == tx.from.value || a == tx.to.value
    requires a !in Endpoints(p)
    ensures Lookup(ExpectedGraph(p + [tx]).nodes, a)
         == Some(GraphNode(a, NodeLabel(a), if a == tx.from.value then Out else In))
  {
    var f, t := tx.from.value, tx.to.value;
    SightingsSnoc(p, tx);
    SightingsCover(p);
    var sp := Sightings(p);
    var fs0 := FirstSightings(sp);
    var sf := Sighting(f, Out);
    FirstSightingsSnoc(sp, sf);
    var fs1 := FirstSightings(sp + [sf]);
    assert sp + [sf] + [Sighting(t, In)] == Sightings(p + [tx]);
    FirstSightingsSnoc(sp + [sf], Sighting(t, In));
    var fs2 := FirstSightings(Sightings(p + [tx]));
    NodeIdsOf(fs0);
    assert Lookup(NodesOf(fs0), a) == None;
    if a == f {
      FirstAsSender(fs0, fs1, fs2, sf, a);
    } else {
      AddressesAppend(sp, [sf]);
      assert Addresses([sf]) == {f};
      NodeIdsOf(fs1);
      assert Lookup(NodesOf(fs1), a) == None;
      assert fs2 == fs1 + [Sighting(t, In)];
      NodesOfAppend(fs1, [Sighting(t, In)]);
      LookupAppend(NodesOf(fs1), NodesOf([Sighting(t, In)]), a);
    }
  }

  lemma FirstAsSender(fs0: seq<Sighting>, fs1: seq<Sighting>, fs2: seq<Sighting>, sf: Sighting, a: string)
    requires sf.address == a && sf.kind == Out
    requires Lookup(NodesOf(fs0), a) == None
    requires fs1 == fs0 + [sf]
    requires |fs1| <= |fs2| && fs2[..|fs1|] == fs1
    ensures Lookup(NodesOf(fs2), a) == Some(GraphNode(a, NodeLabel(a), Out))
  {
    NodesOfAppend(fs0, [sf]);
    LookupAppend(NodesOf(fs0), NodesOf([sf]), a);
    assert fs2 == fs1 + fs2[|fs1|..];
    NodesOfAppend(fs1, fs2[|fs1|..]);
    LookupAppend(NodesOf(fs1), NodesOf(fs2[|fs1|..]), a);
  }

  /** The first record that mentions an address fixes its node: `Out` when the
      address is that record's sender (a self-transfer included), `In` when it
      is only its receiver. */
  lemma FirstSightingFixesType(txs: seq<Transaction>, j: nat, a: string)
    requires j < |txs| && IsComplete(txs[j])
    requires a == txs[j].from.value || a == txs[j].to.value
    requires a !in Endpoints(txs[..j])
    ensures Lookup(ExpectedGraph(txs).nodes, a)
         == Some(GraphNode(a, NodeLabel(a), if a == txs[j].from.value then Out else In))
  {
    var q, rest := txs[..j + 1], txs[j + 1..];
    assert q == txs[..j] + [txs[j]];
    FirstMention(txs[..j], txs[j], a);
    LookupPersists(q, rest, a);
    assert q + rest == txs;
  }
}
