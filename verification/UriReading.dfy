/** Reading what the nodes of a list stand for. */
module UriReading {
  import opened Wrappers
  import opened UriHeap
  import opened UriChange
  import opened UriRelease

  /** The nodes s are what is left of the list of h from the node list on. */
  ghost predicate InList(w: World, h: Head, list: Option<NodeId>, s: seq<NodeId>) {
    && h in w.chains && h.uri in w.uris && h.uri in w.roles && !w.roles[h.uri].Config?
    && IsChain(w.nodes, list, s) && |s| <= |w.chains[h]| && s == w.chains[h][|w.chains[h]| - |s|..]
  }

  /** What a node has to show: what its URI gives if it still holds one that can be read, or what was read before. */
  function Shown(n: Node, x: NodeId, fetched: map<NodeId, nat>): Option<nat> {
    if n.uri.Some? && x in fetched then Some(fetched[x]) else n.data
  }

  /** What the nodes s have to show, those without anything left out. */
  ghost function Contents(nodes: map<NodeId, Node>, s: seq<NodeId>, fetched: map<NodeId, nat>): seq<Option<nat>>
    requires forall x :: x in s ==> x in nodes
  {
    if s == [] then []
    else
      var d := Shown(nodes[s[0]], s[0], fetched);
      (if d.Some? then [d] else []) + Contents(nodes, s[1..], fetched)
  }

  /** One node is in the array with what was fetched for the URI it held, else with what was read before, else not at all. */
  lemma ContentsOfOne(nodes: map<NodeId, Node>, x: NodeId, fetched: map<NodeId, nat>)
    requires x in nodes
    ensures nodes[x].uri.Some? && x in fetched ==> Contents(nodes, [x], fetched) == [Some(fetched[x])]
    ensures nodes[x].uri.None? || x !in fetched ==> Contents(nodes, [x], fetched) == (if nodes[x].data.Some? then [nodes[x].data] else [])
  {
    assert [x][1..] == [];
  }

  /** And the nodes are in the order of the list, wherever it is divided. */
  lemma {:induction false} ContentsInOrder(nodes: map<NodeId, Node>, s: seq<NodeId>, t: seq<NodeId>, fetched: map<NodeId, nat>)
    requires (forall x :: x in s ==> x in nodes) && (forall x :: x in t ==> x in nodes)
    ensures forall x :: x in s + t ==> x in nodes
    ensures Contents(nodes, s + t, fetched) == Contents(nodes, s, fetched) + Contents(nodes, t, fetched)
  {
    hide Shown;
    if s == [] {
      assert s + t == t;
    } else {
      ContentsInOrder(nodes, s[1..], t, fetched);
      assert (s + t)[1..] == s[1..] + t && (s + t)[0] == s[0];
    }
  }

  ghost function Read(n: Node, x: NodeId, fetched: map<NodeId, nat>): Node {
    if n.uri.Some? && x in fetched then n.(uri := None, data := Some(fetched[x])) else n.(uri := None)
  }

  /** The nodes s have been read; nothing else differs but for the URIs they held. */
  ghost predicate Opened(w: World, v: World, s: seq<NodeId>, fetched: map<NodeId, nat>) {
    && v.live == w.live && v.nodes.Keys == w.nodes.Keys
    && (forall x :: x in s ==> x in w.nodes && x in v.nodes && v.nodes[x] == Read(w.nodes[x], x, fetched))
    && (forall x :: x in w.nodes && x !in s ==> x in v.nodes && v.nodes[x] == w.nodes[x])
    && Others(w, v, {})
  }

  ghost function Open(w: World, x: NodeId, fetched: map<NodeId, nat>): World
    requires x in w.nodes && w.nodes[x].uri.Some?
  {
    w.(nodes := w.nodes[x := Read(w.nodes[x], x, fetched)], roles := w.roles[w.nodes[x].uri.value := User])
  }

  lemma OpenNode(w: World, x: NodeId, fetched: map<NodeId, nat>, y: NodeId)
    requires NodeOk(w, x) && w.nodes[x].uri.Some? && NodeOk(w, y)
    ensures NodeOk(Open(w, x, fetched), y)
  {
  }

  lemma OpenUri(w: World, x: NodeId, fetched: map<NodeId, nat>, t: UriId)
    requires NodeOk(w, x) && w.nodes[x].uri.Some? && UriOk(w, w.nodes[x].uri.value) && UriOk(w, t)
    ensures UriOk(Open(w, x, fetched), t)
  {
  }

  lemma OpenDomains(w: World, x: NodeId, fetched: map<NodeId, nat>)
    requires Domains(w) && x in w.nodes && w.nodes[x].uri.Some? && w.nodes[x].uri.value in w.roles
    ensures Domains(Open(w, x, fetched))
  {
  }

  lemma OpenHead(w: World, x: NodeId, fetched: map<NodeId, nat>, h: Head)
    requires x in w.nodes && w.nodes[x].uri.Some? && HeadOk(w, h)
    ensures HeadOk(Open(w, x, fetched), h)
  {
    ChainStays(w.nodes, Open(w, x, fetched).nodes, w.heads[h], w.chains[h]);
  }

  /** The URI of a node is about to be freed, and the node does not point to it any more. */
  lemma OpenKeeps(w: World, x: NodeId, fetched: map<NodeId, nat>)
    requires Valid(w) && x in w.nodes && w.nodes[x].uri.Some?
    ensures Valid(Open(w, x, fetched)) && Sound(Open(w, x, fetched))
    ensures
      var c := w.nodes[x].uri.value;
      && c in w.uris && c in w.roles && w.roles[c] == Config(x) && w.uris[c].sig == None
      && (forall k :: Head(c, k) in w.chains && w.chains[Head(c, k)] == [])
  {
    hide Domains, HeadOk, NodeOk, UriOk, Open;
    var v, c := Open(w, x, fetched), w.nodes[x].uri.value;
    assert NodeOk(w, x);
    NodeUri(w, x);
    assert UriOk(w, c);
    ConfigParts(w, c);
    OpenDomains(w, x, fetched);
    OpenFields(w, x, fetched);
    SoundDomains(w);
    HeadsKnown(w);
    forall h | h in v.chains ensures HeadOk(v, h) {
      OpenHead(w, x, fetched, h);
    }
    forall y | y in v.live ensures NodeOk(v, y) {
      OpenNode(w, x, fetched, y);
    }
    forall t | t in v.uris ensures UriOk(v, t) {
      OpenUri(w, x, fetched, t);
    }
  }

  lemma NodeUri(w: World, x: NodeId)
    requires NodeOk(w, x) && w.nodes[x].uri.Some? && Domains(w)
    ensures w.nodes[x].uri.value in w.uris && w.nodes[x].uri.value in w.roles && w.roles[w.nodes[x].uri.value] == Config(x)
  {
  }

  lemma ConfigParts(w: World, c: UriId)
    requires Sound(w) && c in w.uris && w.roles[c].Config?
    ensures w.uris[c].sig == None
    ensures forall k :: Head(c, k) in w.chains && w.chains[Head(c, k)] == []
  {
    assert UriOk(w, c);
    forall k ensures Head(c, k) in w.chains && w.chains[Head(c, k)] == [] {
      assert Head(c, k).uri == c;
      assert HeadOk(w, Head(c, k));
      ConfigHasNoList(w, Head(c, k));
    }
  }

  lemma OpenFields(w: World, x: NodeId, fetched: map<NodeId, nat>)
    requires x in w.nodes && w.nodes[x].uri.Some? && w.nodes[x].uri.value in w.roles
    ensures
      var v := Open(w, x, fetched);
      && v.live == w.live && v.chains == w.chains && v.heads == w.heads && v.uris == w.uris
      && v.nodes.Keys == w.nodes.Keys && v.nodes[x] == Read(w.nodes[x], x, fetched)
      && (forall y :: y in w.nodes && y != x ==> v.nodes[y] == w.nodes[y])
      && (forall t :: t in w.roles && t != w.nodes[x].uri.value ==> t in v.roles && v.roles[t] == w.roles[t])
      && w.nodes[x].uri.value in v.roles && v.roles[w.nodes[x].uri.value] == User
  {
  }

  lemma SameUsers(w: World, v: World, c: UriId, x: NodeId)
    requires Sound(w) && Sound(v) && Frame(w, v, {c}) && c !in v.uris
    requires forall k :: Head(c, k) in w.chains && w.chains[Head(c, k)] == []
    ensures Users(v.chains, x) == Users(w.chains, x)
  {
    hide HeadOk, NodeOk, UriOk;
    forall h | h in Users(w.chains, x) ensures h in Users(v.chains, x) {
      assert h == Head(h.uri, h.kind);
      ReachedStays(w, v, {c}, h, x);
    }
    forall h | h in Users(v.chains, x) ensures h in Users(w.chains, x) {
      HeadKnown(v, h);
      assert UriSame(w, v, h.uri);
      TwoHeads(h.uri, h);
    }
  }

  /** Reading one node has changed that node, and nothing else but for the URI it held. */
  lemma OpenDone(w: World, v: World, x: NodeId, fetched: map<NodeId, nat>)
    requires Valid(w) && x in w.nodes && w.nodes[x].uri.Some? && Valid(v)
    requires Frame(Open(w, x, fetched), v, Going(Open(w, x, fetched), w.nodes[x].uri.value))
    requires w.nodes[x].uri.value !in v.uris
    ensures Opened(w, v, [x], fetched)
  {
    hide Sound, HeadOk, NodeOk, UriOk, Open, IsChain, UriSame;
    var o, c := Open(w, x, fetched), w.nodes[x].uri.value;
    OpenKeeps(w, x, fetched);
    OpenFields(w, x, fetched);
    assert Going(o, c) == {c};
    forall y | y in o.live ensures y in v.live && v.nodes[y] == o.nodes[y] {
      NodesStay(o, v, c, y) by { NoLists(o, c); }
      SameUsers(o, v, c, y);
      SameRefs(o, v, y);
    }
    OpenOthers(w, o, v, c);
  }

  lemma SameRefs(o: World, v: World, y: NodeId)
    requires Sound(o) && Sound(v) && y in o.live && y in v.live && NodesFrame(o, v)
    requires Users(v.chains, y) == Users(o.chains, y)
    ensures y in v.nodes && y in o.nodes && v.nodes[y] == o.nodes[y]
  {
    assert NodeOk(o, y) && NodeOk(v, y);
    assert NodeSame(o, v, y);
  }

  lemma OpenOthers(w: World, o: World, v: World, c: UriId)
    requires UrisFrame(o, v, {c}) && c in w.roles && w.roles[c].Config?
    requires o.uris == w.uris && o.heads == w.heads && o.chains == w.chains
    requires forall t :: t in w.roles && t != c ==> t in o.roles && o.roles[t] == w.roles[t]
    ensures Others(w, v, {})
  {
    forall t | t in w.uris && t in w.roles && !w.roles[t].Config? ensures UriSame(w, v, t) {
      assert UriSame(o, v, t);
    }
  }

  lemma OpenNothing(w: World, x: NodeId, fetched: map<NodeId, nat>)
    requires Valid(w) && x in w.nodes && w.nodes[x].uri == None
    ensures Opened(w, w, [x], fetched)
  {
    hide HeadOk, NodeOk, UriOk;
    assert w.nodes[x] == Read(w.nodes[x], x, fetched);
    HeadsKnown(w);
  }

  /** What the first node is found to hold, and then the others. */
  lemma ContentsStep(w: World, v: World, s: seq<NodeId>, fetched: map<NodeId, nat>)
    requires s != [] && s[0] !in s[1..] && Opened(w, v, [s[0]], fetched) && forall x :: x in s ==> x in w.nodes
    ensures forall x :: x in s ==> x in v.nodes
    ensures
      Contents(w.nodes, s, fetched)
      == (if v.nodes[s[0]].data.Some? then [v.nodes[s[0]].data] else []) + Contents(v.nodes, s[1..], fetched)
  {
    assert forall x :: x in s[1..] ==> x in w.nodes && x in v.nodes && v.nodes[x] == w.nodes[x];
    assert v.nodes[s[0]] == Read(w.nodes[s[0]], s[0], fetched);
    SameContents(w.nodes, v.nodes, s[1..], fetched);
  }

  lemma {:induction false} SameContents(nodes: map<NodeId, Node>, more: map<NodeId, Node>, s: seq<NodeId>, fetched: map<NodeId, nat>)
    requires forall x :: x in s ==> x in nodes && x in more && more[x] == nodes[x]
    ensures Contents(more, s, fetched) == Contents(nodes, s, fetched)
  {
    if s != [] {
      SameContents(nodes, more, s[1..], fetched);
    }
  }

  /** What was read stays: collecting once more gives the same, whatever could be fetched by then. */
  lemma {:induction false} ReadOnce(nodes: map<NodeId, Node>, more: map<NodeId, Node>, s: seq<NodeId>, fetched: map<NodeId, nat>,
                                    later: map<NodeId, nat>)
    requires forall x :: x in s ==> x in nodes && x in more && more[x] == Read(nodes[x], x, fetched)
    ensures Contents(more, s, later) == Contents(nodes, s, fetched)
  {
    if s != [] {
      ReadOnce(nodes, more, s[1..], fetched, later);
    }
  }

  lemma InListNodes(w: World, h: Head, list: Option<NodeId>, s: seq<NodeId>)
    requires InList(w, h, list, s)
    ensures forall x :: x in s ==> x in w.nodes
  {
    forall x | x in s
      ensures x in w.nodes
    {
      var i: nat :| i < |s| && s[i] == x;
      ChainFrom(w.nodes, list, s, i);
    }
  }

  lemma OpenedAtOnce(w: World, h: Head, s: seq<NodeId>, fetched: map<NodeId, nat>)
    requires Valid(w) && InList(w, h, None, s)
    ensures s == [] && Opened(w, w, s, fetched) && Contents(w.nodes, s, fetched) == []
  {
    hide HeadOk, NodeOk, UriOk;
    HeadsKnown(w);
  }

  lemma InListParts(w: World, h: Head, list: Option<NodeId>, s: seq<NodeId>)
    requires list.Some? && InList(w, h, list, s)
    ensures s != [] && list == Some(s[0]) && s[0] in w.nodes
  {
  }

  lemma InListRest(w: World, v: World, h: Head, s: seq<NodeId>, fetched: map<NodeId, nat>)
    requires s != [] && InList(w, h, Some(s[0]), s) && Opened(w, v, [s[0]], fetched)
    ensures s[0] in v.nodes && InList(v, h, v.nodes[s[0]].next, s[1..])
    ensures s[0] !in s[1..]
  {
    var x := s[0];
    assert UriSame(w, v, h.uri);
    TwoHeads(h.uri, h);
    ChainIsDistinct(w.nodes, Some(x), s);
    ChainStays(w.nodes, v.nodes, w.nodes[x].next, s[1..]) by {
      AllAllocated(w, v, s, fetched);
    }
    assert s[1..] == w.chains[h][|w.chains[h]| - |s| + 1..];
  }

  lemma AllAllocated(w: World, v: World, s: seq<NodeId>, fetched: map<NodeId, nat>)
    requires s != [] && IsChain(w.nodes, Some(s[0]), s) && Opened(w, v, [s[0]], fetched)
    ensures forall y :: y in s[1..] ==> y in w.nodes && y in v.nodes && v.nodes[y].next == w.nodes[y].next
  {
    forall y | y in s[1..] ensures y in w.nodes && y in v.nodes && v.nodes[y].next == w.nodes[y].next {
      var i: nat :| i < |s| && s[i] == y;
      ChainFrom(w.nodes, Some(s[0]), s, i);
    }
  }

  lemma OpenedOn(w: World, v: World, u: World, s: seq<NodeId>, fetched: map<NodeId, nat>)
    requires s != [] && s[0] !in s[1..] && Opened(w, v, [s[0]], fetched) && Opened(v, u, s[1..], fetched)
    ensures Opened(w, u, s, fetched)
  {
    forall t | t in w.uris && t in w.roles && !w.roles[t].Config? ensures UriSame(w, u, t) {
      assert UriSame(w, v, t);
      assert UriSame(v, u, t);
    }
    forall x | x in s ensures x in u.nodes && u.nodes[x] == Read(w.nodes[x], x, fetched) {
      assert x == s[0] || x in s[1..];
    }
  }
}
