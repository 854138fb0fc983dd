/** URIs and their option lists in memory: shared tails, and one reference count for each node. */
module UriHeap {
  import opened Wrappers

  type NodeId = nat

  type UriId = nat

  datatype Kind = Pem | Pubkey

  /** One of the two lists of a URI. */
  datatype Head = Head(uri: UriId, kind: Kind)

  /** A list node. It holds the URI of a key or certificate, or what was read from it. */
  datatype Node = Node(next: Option<NodeId>, refs: nat, uri: Option<UriId>, data: Option<nat>, ghost kind: Kind)

  /** A URI object; fixed is set once it is registered for download or finished. */
  datatype Uri = Uri(pem: Option<NodeId>, pubkey: Option<NodeId>, sig: Option<UriId>, fixed: bool)

  /** Who holds the one reference to a URI. Busy: nobody, it is being changed or freed. */
  datatype Role = User | Signature(of: UriId) | Config(node: NodeId) | Busy

  /** Memory, and what the specification knows of it: the references held, the lists they head, the owners. */
  datatype World = World(nodes: map<NodeId, Node>, uris: map<UriId, Uri>, live: set<NodeId>,
                         heads: map<Head, Option<NodeId>>, chains: map<Head, seq<NodeId>>, roles: map<UriId, Role>)

  function ListOf(u: Uri, kind: Kind): Option<NodeId> {
    match kind
    case Pem => u.pem
    case Pubkey => u.pubkey
  }

  /** The nodes met from the list head on, in order, are s. */
  ghost predicate IsChain(nodes: map<NodeId, Node>, list: Option<NodeId>, s: seq<NodeId>)
    decreases s
  {
    if s == [] then list == None else
    list == Some(s[0]) && s[0] in nodes && IsChain(nodes, nodes[s[0]].next, s[1..])
  }

  /** The live list heads from which a node is reached. */
  ghost function Users(chains: map<Head, seq<NodeId>>, x: NodeId): set<Head> {
    set h | h in chains && x in chains[h]
  }

  ghost predicate HeadOk(w: World, h: Head) {
    && h in w.heads && h in w.chains
    && IsChain(w.nodes, w.heads[h], w.chains[h])
    && (forall x :: x in w.chains[h] ==> x in w.live && x in w.nodes && w.nodes[x].kind == h.kind)
  }

  /** The count of a node is the number of heads that reach it, and that is not zero. */
  ghost predicate NodeOk(w: World, x: NodeId) {
    && x in w.nodes
    && w.nodes[x].refs == |Users(w.chains, x)| > 0
    && (w.nodes[x].uri.Some? ==> w.nodes[x].uri.value in w.roles && w.roles[w.nodes[x].uri.value] == Config(x))
  }

  ghost predicate Matches(w: World, u: UriId) {
    && u in w.uris
    && (forall k :: Head(u, k) in w.heads && w.heads[Head(u, k)] == ListOf(w.uris[u], k))
  }

  ghost predicate UriOk(w: World, u: UriId) {
    && u in w.uris && u in w.roles
    && (w.roles[u] != Busy ==> Matches(w, u))
    && match w.roles[u]
       case User =>
         w.uris[u].sig.Some? ==> w.uris[u].sig.value in w.roles && w.roles[w.uris[u].sig.value] == Signature(u)
       case Signature(o) =>
         o in w.uris && o in w.roles && w.uris[o].sig == Some(u) && w.roles[o] in {User, Busy} && w.uris[u].sig == None
       case Config(x) =>
         x in w.live && x in w.nodes && w.nodes[x].uri == Some(u) && w.uris[u] == Uri(None, None, None, w.uris[u].fixed)
       case Busy => true
  }

  ghost predicate Domains(w: World) {
    && w.live <= w.nodes.Keys
    && w.roles.Keys == w.uris.Keys
    && (forall h: Head :: h.uri in w.uris <==> h in w.heads)
    && (forall h: Head :: h.uri in w.uris <==> h in w.chains)
  }

  /** The invariant, also in the middle of a call. */
  ghost predicate Sound(w: World) {
    && Domains(w)
    && (forall h :: h in w.chains ==> HeadOk(w, h))
    && (forall x :: x in w.live ==> NodeOk(w, x))
    && (forall u :: u in w.uris ==> UriOk(w, u))
  }

  /** Between calls nothing is half done, and every allocated node is live. */
  ghost predicate Valid(w: World) {
    && Sound(w)
    && w.live == w.nodes.Keys
    && (forall u :: u in w.uris ==> w.roles[u] != Busy)
  }

  /** A head has one list of nodes only. */
  lemma {:induction false} ChainIsUnique(nodes: map<NodeId, Node>, list: Option<NodeId>, s: seq<NodeId>, t: seq<NodeId>)
    requires IsChain(nodes, list, s) && IsChain(nodes, list, t)
    ensures s == t
    decreases s
  {
    if s != [] && t != [] {
      ChainIsUnique(nodes, nodes[s[0]].next, s[1..], t[1..]);
    }
  }

  lemma {:induction false} ChainFrom(nodes: map<NodeId, Node>, list: Option<NodeId>, s: seq<NodeId>, i: nat)
    requires IsChain(nodes, list, s) && i < |s|
    ensures s[i] in nodes && IsChain(nodes, Some(s[i]), s[i..])
    decreases s
  {
    if i > 0 {
      ChainFrom(nodes, nodes[s[0]].next, s[1..], i - 1);
      assert s[i..] == s[1..][i - 1..];
    }
  }

  /** A list that ends has no node twice. */
  lemma ChainIsDistinct(nodes: map<NodeId, Node>, list: Option<NodeId>, s: seq<NodeId>)
    requires IsChain(nodes, list, s)
    ensures forall i, j :: 0 <= i < j < |s| ==> s[i] != s[j]
  {
    forall i, j | 0 <= i < j < |s| ensures s[i] != s[j] {
      if s[i] == s[j] {
        ChainFrom(nodes, list, s, i);
        ChainFrom(nodes, list, s, j);
        ChainIsUnique(nodes, Some(s[i]), s[i..], s[j..]);
      }
    }
  }

  lemma {:induction false} ChainStays(nodes: map<NodeId, Node>, more: map<NodeId, Node>, list: Option<NodeId>, s: seq<NodeId>)
    requires IsChain(nodes, list, s)
    requires forall x :: x in s ==> x in more && x in nodes && more[x].next == nodes[x].next
    ensures IsChain(more, list, s)
    decreases s
  {
    if s != [] {
      ChainStays(nodes, more, nodes[s[0]].next, s[1..]);
    }
  }

  ghost predicate Reached(w: World, u: UriId, kind: Kind, x: NodeId) {
    u in w.uris && exists s :: IsChain(w.nodes, ListOf(w.uris[u], kind), s) && x in s
  }

  /** The reference count of a node is the number of list heads of live URIs from which it is reachable. */
  lemma CountIsReach(w: World, x: NodeId)
    requires Valid(w) && x in w.nodes
    ensures forall h: Head :: h in Users(w.chains, x) <==> Reached(w, h.uri, h.kind, x)
    ensures w.nodes[x].refs == |Users(w.chains, x)| > 0
  {
    assert NodeOk(w, x);
    forall h: Head ensures h in Users(w.chains, x) <==> Reached(w, h.uri, h.kind, x) {
      if h.uri in w.uris {
        assert HeadOk(w, h) && UriOk(w, h.uri);
        if s :| IsChain(w.nodes, ListOf(w.uris[h.uri], h.kind), s) && x in s {
          ChainIsUnique(w.nodes, w.heads[h], s, w.chains[h]);
        }
      }
    }
  }

  /** Nodes are allocated exactly as long as some URI reaches them. */
  lemma AllocatedIsReached(w: World, x: NodeId)
    requires Valid(w)
    ensures x in w.nodes <==> exists h: Head :: Reached(w, h.uri, h.kind, x)
  {
    if x in w.nodes {
      CountIsReach(w, x);
      var h :| h in Users(w.chains, x);
      assert Reached(w, h.uri, h.kind, x);
    } else if h: Head :| Reached(w, h.uri, h.kind, x) {
      assert HeadOk(w, h) && UriOk(w, h.uri);
      var s :| IsChain(w.nodes, ListOf(w.uris[h.uri], h.kind), s) && x in s;
      ChainIsUnique(w.nodes, w.heads[h], s, w.chains[h]);
    }
  }

  lemma NodeHolder(w: World, x: NodeId) returns (u: UriId)
    requires Valid(w) && x in w.nodes
    ensures u in w.uris && w.roles[u] == User
  {
    hide HeadOk;
    assert NodeOk(w, x);
    var h :| h in Users(w.chains, x);
    assert HeadOk(w, h) && UriOk(w, h.uri);
    ConfigHasNoList(w, h);
    u := h.uri;
    if w.roles[u].Signature? {
      u := w.roles[u].of;
    }
  }

  lemma ConfigHasNoList(w: World, h: Head)
    requires HeadOk(w, h) && UriOk(w, h.uri)
    ensures w.roles[h.uri].Config? ==> w.chains[h] == []
  {
  }

  lemma UriHolder(w: World, t: UriId) returns (u: UriId)
    requires Valid(w) && t in w.uris
    ensures u in w.uris && w.roles[u] == User
  {
    assert UriOk(w, t);
    match w.roles[t] {
      case User => u := t;
      case Signature(o) => u := o;
      case Config(x) => u := NodeHolder(w, x);
    }
  }

  /** Whoever frees all the URIs it made has freed everything. */
  lemma NothingLeaks(w: World)
    requires Valid(w)
    ensures (forall u :: u in w.uris ==> w.roles[u] != User) ==> w.uris == map[] && w.nodes == map[]
  {
    if x :| x in w.nodes {
      var u := NodeHolder(w, x);
    } else if t :| t in w.uris {
      var u := UriHolder(w, t);
    }
  }

  /** What is left of the nodes is as it was, but for the counts; what was not live stays as it was. */
  ghost predicate NodesFrame(w: World, v: World) {
    && v.live <= w.live && v.nodes.Keys - v.live == w.nodes.Keys - w.live
    && (forall x :: x in v.live ==> NodeSame(w, v, x))
    && (forall x :: x in w.nodes && x !in w.live ==> x in v.nodes && v.nodes[x] == w.nodes[x])
  }

  /** Only what is named in gone, and configuration URIs, may have vanished; what is left is as it was. */
  ghost predicate UrisFrame(w: World, v: World, gone: set<UriId>) {
    && v.uris.Keys <= w.uris.Keys
    && (forall u :: u in w.uris && u in w.roles && u !in gone && !w.roles[u].Config? ==> u in v.uris)
    && (forall u :: u in v.uris && u !in gone ==> UriSame(w, v, u))
  }

  ghost predicate Frame(w: World, v: World, gone: set<UriId>) {
    NodesFrame(w, v) && UrisFrame(w, v, gone)
  }

  ghost predicate UriSame(w: World, v: World, u: UriId) {
    && u in w.uris && u in v.uris && v.uris[u] == w.uris[u]
    && u in w.roles && u in v.roles && v.roles[u] == w.roles[u]
    && HeadSame(w, v, Head(u, Pem)) && HeadSame(w, v, Head(u, Pubkey))
  }

  ghost predicate HeadSame(w: World, v: World, h: Head) {
    && h in w.heads && h in v.heads && v.heads[h] == w.heads[h]
    && h in w.chains && h in v.chains && v.chains[h] == w.chains[h]
  }

  ghost predicate NodeSame(w: World, v: World, x: NodeId) {
    && x in w.nodes && x in v.nodes
    && v.nodes[x] == w.nodes[x].(refs := v.nodes[x].refs)
  }

  lemma NodesFrameOn(w: World, v: World, u: World)
    requires NodesFrame(w, v) && NodesFrame(v, u)
    ensures NodesFrame(w, u)
  {
    forall x | x in u.live ensures NodeSame(w, u, x) {
      assert NodeSame(v, u, x) && NodeSame(w, v, x);
    }
  }

  lemma UrisFrameOn(w: World, v: World, u: World, a: set<UriId>)
    requires UrisFrame(w, v, a) && UrisFrame(v, u, a)
    ensures UrisFrame(w, u, a)
  {
    forall t | t in u.uris && t !in a ensures UriSame(w, u, t) {
      assert UriSame(v, u, t) && UriSame(w, v, t);
    }
    forall t | t in w.uris && t in w.roles && t !in a && !w.roles[t].Config? ensures t in u.uris {
      assert UriSame(w, v, t);
    }
  }

  lemma FrameOn(w: World, v: World, u: World, a: set<UriId>)
    requires Frame(w, v, a) && Frame(v, u, a)
    ensures Frame(w, u, a)
  {
    hide NodesFrame, UrisFrame;
    NodesFrameOn(w, v, u);
    UrisFrameOn(w, v, u, a);
  }

  lemma TwoHeads(u: UriId, h: Head)
    ensures h in {Head(u, Pem), Head(u, Pubkey)} <==> h.uri == u
  {
    match h.kind {
      case Pem =>
      case Pubkey =>
    }
  }

  ghost function Idle(roles: map<UriId, Role>): set<UriId> {
    set u | u in roles && roles[u] != Busy
  }

  ghost function Without(t: World, x: NodeId): World {
    t.(nodes := t.nodes - {x})
  }

  lemma WithoutKeeps(t: World, x: NodeId)
    requires Sound(t) && x !in t.live
    ensures Sound(Without(t, x))
  {
    var v := Without(t, x);
    forall h | h in v.chains ensures HeadOk(v, h) {
      assert HeadOk(t, h);
      ChainStays(t.nodes, v.nodes, t.heads[h], t.chains[h]);
    }
    forall y | y in v.live ensures NodeOk(v, y) {
      assert NodeOk(t, y);
    }
    forall u | u in v.uris ensures UriOk(v, u) {
      assert UriOk(t, u);
    }
  }

  lemma HeadsKnown(w: World)
    requires Domains(w)
    ensures w.roles.Keys == w.uris.Keys
    ensures forall g: Head :: g.uri in w.uris ==> HeadSame(w, w, g)
  {
  }

  lemma HolderMatches(z: World, h: Head)
    requires Sound(z) && h.uri in z.uris && h.uri in z.roles && z.roles[h.uri] == User
    ensures Matches(z, h.uri) && HeadOk(z, h)
  {
    assert UriOk(z, h.uri);
    assert h in z.chains;
  }

  lemma SoundDomains(w: World)
    requires Sound(w)
    ensures Domains(w)
  {
  }

  function WithList(u: Uri, kind: Kind, list: Option<NodeId>): Uri {
    match kind
    case Pem => u.(pem := list)
    case Pubkey => u.(pubkey := list)
  }

  lemma OwnList(w: World, h: Head)
    requires Matches(w, h.uri) && Domains(w)
    ensures h in w.heads && h in w.chains && w.heads[h] == ListOf(w.uris[h.uri], h.kind)
  {
    assert h == Head(h.uri, h.kind);
  }

  lemma OnlyUris(w: World, v: World, a: set<UriId>)
    requires Frame(w, v, a) && Sound(w)
    ensures UrisFrame(w, v, a) && w.roles.Keys == w.uris.Keys
  {
  }

  lemma KeepsOther(w: World, v: World, a: set<UriId>, g: UriId)
    requires UrisFrame(w, v, a) && g !in a && g in w.uris && g in w.roles && !w.roles[g].Config?
    ensures UriSame(w, v, g)
  {
  }

  lemma UriSameOn(w: World, z: World, v: World, u: UriId)
    requires UriSame(w, z, u)
    ensures UriSame(z, z, u)
    ensures UriSame(z, v, u) ==> UriSame(w, v, u)
  {
  }

  lemma KnownHeads(w: World, u: UriId)
    requires Domains(w) && u in w.uris
    ensures forall k :: Head(u, k) in w.heads && Head(u, k) in w.chains
  {
    forall k ensures Head(u, k) in w.heads && Head(u, k) in w.chains {
      assert Head(u, k).uri == u;
    }
  }

  /** Freeing what nobody else holds leaves nothing half done. */
  lemma ValidAgain(w: World, v: World, a: set<UriId>)
    requires Sound(v) && Frame(w, v, a) && a !! v.uris.Keys
    ensures Valid(w) ==> Valid(v)
  {
    if Valid(w) {
      forall u | u in v.uris ensures v.roles[u] != Busy {
        assert UriSame(w, v, u);
      }
      forall x | x in v.nodes ensures x in v.live {
        assert x !in v.live ==> x in v.nodes.Keys - v.live;
      }
    }
  }

  /** A node stays as long as some other URI reaches it. */
  lemma ReachedStays(w: World, v: World, a: set<UriId>, h: Head, x: NodeId)
    requires Sound(w) && Sound(v) && Frame(w, v, a)
    requires h in w.chains && x in w.chains[h] && h.uri !in a
    ensures x in v.live && h in v.chains && v.chains[h] == w.chains[h]
  {
    assert HeadOk(w, h);
    assert UriOk(w, h.uri);
    ConfigHasNoList(w, h);
    assert UriSame(w, v, h.uri);
    TwoHeads(h.uri, h);
    assert HeadOk(v, h);
  }

  /** What goes when u is freed: the URI and its signature URI. */
  ghost function Going(w: World, u: UriId): set<UriId> {
    {u} + if u in w.uris && w.uris[u].sig.Some? then {w.uris[u].sig.value} else {}
  }

  lemma Weaken(w: World, v: World, a: set<UriId>, b: set<UriId>)
    requires Frame(w, v, a) && a <= b
    ensures Frame(w, v, b)
  {
  }

  lemma FrameShrinks(w: World, v: World, a: set<UriId>)
    requires Frame(w, v, a)
    ensures v.uris.Keys <= w.uris.Keys
  {
  }

  lemma FrameAtOnce(w: World)
    requires Sound(w)
    ensures Frame(w, w, {})
  {
    HeadsKnown(w);
  }

  lemma SubsetSize<T>(a: set<T>, b: set<T>)
    requires a <= b
    ensures |a| <= |b|
    ensures a < b ==> |a| < |b|
  {
    assert b == a + (b - a) && a !! (b - a);
  }

  lemma HeadIsSound(w: World, h: Head)
    requires Sound(w) && h in w.heads
    ensures HeadOk(w, h) && h.uri in w.uris
    ensures w.heads[h].Some? ==> w.chains[h] != [] && w.chains[h][0] == w.heads[h].value
    ensures w.heads[h].None? ==> w.chains[h] == []
  {
    assert HeadOk(w, h);
  }

  /** Every URI not named in a, and not held by a node, is as it was. */
  ghost predicate Others(w: World, v: World, a: set<UriId>) {
    forall t :: t in w.uris && t in w.roles && t !in a && !w.roles[t].Config? ==> UriSame(w, v, t)
  }

  lemma SameChain(w: World, v: World, h: Head)
    requires HeadSame(w, v, h)
    ensures h in w.chains && h in v.chains && v.chains[h] == w.chains[h]
  {
  }

  lemma ValidIsSound(w: World)
    requires Valid(w)
    ensures Sound(w)
  {
  }

  lemma FrameOthers(w: World, v: World, a: set<UriId>)
    requires Frame(w, v, a)
    ensures Others(w, v, a)
  {
  }

  lemma HeadKnown(v: World, h: Head)
    requires Domains(v) && h in v.chains
    ensures h.uri in v.uris
  {
  }
}
