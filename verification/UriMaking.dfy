/** Making a URI that inherits the lists of another one. */
module UriMaking {
  import opened Wrappers
  import opened UriHeap

  lemma GrownParts(w: World, z: World, c: UriId)
    requires Grown(w, z, c)
    ensures z.uris.Keys == w.uris.Keys + {c} && z.live == w.live && z.nodes.Keys == w.nodes.Keys
    ensures forall u :: u in w.uris ==> UriSame(w, z, u)
    ensures forall x :: x in w.nodes ==> NodeSame(w, z, x)
  {
  }

  /** The list of a kind that a new URI gets from its parent. */
  ghost function Inherited(w: World, parent: Option<UriId>, k: Kind): Option<seq<NodeId>> {
    match parent
    case None => Some([])
    case Some(p) => if Head(p, k) in w.chains then Some(w.chains[Head(p, k)]) else None
  }

  lemma GrowingHere(w: World, z: World, id: UriId)
    requires Growing(w, z, id)
    ensures id in z.uris && id in z.roles && z.roles[id] == Busy && z.uris[id].sig == None && !z.uris[id].fixed
  {
  }

  lemma IsBlank(w: World, z: World, id: UriId)
    requires z.uris == w.uris[id := Uri(None, None, None, false)] && z.roles == w.roles[id := Busy]
    requires z.heads == w.heads[Head(id, Pem) := None][Head(id, Pubkey) := None]
    requires z.chains == w.chains[Head(id, Pem) := []][Head(id, Pubkey) := []]
    requires z.nodes == w.nodes && z.live == w.live
    ensures z == Blank(w, id)
  {
  }

  lemma BlankMatches(w: World, id: UriId)
    ensures Matches(Blank(w, id), id)
    ensures forall k :: Head(id, k) in Blank(w, id).chains && Blank(w, id).chains[Head(id, k)] == []
  {
    forall k ensures Head(id, k) in {Head(id, Pem), Head(id, Pubkey)} {
      TwoHeads(id, Head(id, k));
    }
  }

  lemma StillEmpty(z: World, h: Head, g: Head, k: Kind)
    requires h.uri in z.uris && g in z.heads && g in z.chains && h.kind != k
    requires Head(h.uri, k) in z.chains && z.chains[Head(h.uri, k)] == []
    ensures Head(h.uri, k) in Gained(z, h, g).chains && Gained(z, h, g).chains[Head(h.uri, k)] == []
  {
  }

  lemma BothGained(b: World, m: World, z: World, id: UriId, p: UriId)
    requires id in b.uris && Head(p, Pem) in b.heads && Head(p, Pem) in b.chains && p != id
    requires m == Gained(b, Head(id, Pem), Head(p, Pem))
    requires id in m.uris && Head(p, Pubkey) in m.heads && Head(p, Pubkey) in m.chains
    requires z == Gained(m, Head(id, Pubkey), Head(p, Pubkey))
    ensures Matches(z, id)
    ensures Head(id, Pem) in z.chains && z.chains[Head(id, Pem)] == b.chains[Head(p, Pem)]
    ensures Head(id, Pubkey) in z.chains && z.chains[Head(id, Pubkey)] == m.chains[Head(p, Pubkey)]
  {
    forall k ensures Head(id, k) in z.heads && z.heads[Head(id, k)] == ListOf(z.uris[id], k) {
      match k {
        case Pem =>
        case Pubkey =>
      }
    }
  }

  lemma ParentStays(w: World, z: World, id: UriId, u: UriId)
    requires Growing(w, z, id) && Matches(w, u) && id !in w.uris && Domains(w)
    ensures u in z.uris && u in w.uris && u != id
    ensures z.uris[u] == w.uris[u]
    ensures forall k :: Head(u, k) in z.heads && z.heads[Head(u, k)] == ListOf(w.uris[u], k)
    ensures forall k :: Head(u, k) in z.chains && Head(u, k) in w.chains && z.chains[Head(u, k)] == w.chains[Head(u, k)]
    ensures forall k :: Head(id, k) in z.chains && Head(id, k) in z.heads
  {
    hide HeadOk, NodeOk, UriOk;
    assert UriSame(w, z, u);
    forall k ensures HeadSame(w, z, Head(u, k)) {
      TwoHeads(u, Head(u, k));
    }
  }

  ghost function Bumped(nodes: map<NodeId, Node>, s: seq<NodeId>): map<NodeId, Node> {
    map x | x in nodes :: if x in s then nodes[x].(refs := nodes[x].refs + 1) else nodes[x]
  }

  ghost predicate NodesGrow(w: World, v: World) {
    && w.live <= v.live && w.nodes.Keys <= v.nodes.Keys
    && forall x :: x in w.nodes ==> NodeSame(w, v, x)
  }

  /** All that was there before id is there as it was. */
  ghost predicate Grown(w: World, v: World, id: UriId) {
    && NodesGrow(w, v) && v.live == w.live && v.nodes.Keys == w.nodes.Keys
    && v.uris.Keys == w.uris.Keys + {id} && id in v.roles
    && forall u :: u in w.uris ==> UriSame(w, v, u)
  }

  ghost function Blank(w: World, id: UriId): World {
    w.(uris := w.uris[id := Uri(None, None, None, false)], roles := w.roles[id := Busy],
       heads := w.heads[Head(id, Pem) := None][Head(id, Pubkey) := None],
       chains := w.chains[Head(id, Pem) := []][Head(id, Pubkey) := []])
  }

  /** A head without a list takes over the list of another one. */
  ghost function Gained(w: World, h: Head, g: Head): World
    requires h.uri in w.uris && g in w.heads && g in w.chains
  {
    var list := w.heads[g];
    w.(uris := w.uris[h.uri := if h.kind.Pem? then w.uris[h.uri].(pem := list) else w.uris[h.uri].(pubkey := list)],
       nodes := Bumped(w.nodes, w.chains[g]), heads := w.heads[h := list], chains := w.chains[h := w.chains[g]])
  }

  /** URI id is being made; apart from that all is as it was. */
  ghost predicate Growing(w: World, z: World, id: UriId) {
    && Sound(z) && Grown(w, z, id)
    && id in z.uris && id in z.roles && z.roles[id] == Busy && z.uris[id].sig == None && !z.uris[id].fixed
  }

  lemma BlankDomains(w: World, id: UriId)
    requires Domains(w) && id !in w.uris
    ensures Domains(Blank(w, id))
    ensures forall h :: h in Blank(w, id).chains <==> h in w.chains || h.uri == id
    ensures forall h: Head :: h.uri == id ==> h !in w.chains && h !in w.heads
    ensures forall h: Head :: h.uri == id ==> h in Blank(w, id).chains && Blank(w, id).chains[h] == [] && Blank(w, id).heads[h] == None
    ensures forall h: Head :: h.uri in w.uris ==> HeadSame(w, Blank(w, id), h)
  {
    forall h: Head ensures h.uri == id <==> h in {Head(id, Pem), Head(id, Pubkey)} {
      TwoHeads(id, h);
    }
  }

  lemma BlankNode(w: World, id: UriId, x: NodeId)
    requires Domains(w) && id !in w.uris && NodeOk(w, x)
    ensures NodeOk(Blank(w, id), x)
  {
    BlankDomains(w, id);
    assert Users(Blank(w, id).chains, x) == Users(w.chains, x);
  }

  lemma BlankUri(w: World, id: UriId, u: UriId)
    requires id !in w.uris && w.roles.Keys == w.uris.Keys && UriOk(w, u) && Domains(w)
    ensures UriOk(Blank(w, id), u) && UriSame(w, Blank(w, id), u)
  {
    var v := Blank(w, id);
    assert HeadSame(w, v, Head(u, Pem)) && HeadSame(w, v, Head(u, Pubkey));
    if w.roles[u] != Busy {
      forall k ensures Head(u, k) in v.heads && v.heads[Head(u, k)] == ListOf(v.uris[u], k) {
        TwoHeads(u, Head(u, k));
      }
    }
  }

  lemma BlankKeeps(w: World, id: UriId)
    requires Sound(w) && id !in w.uris
    ensures Growing(w, Blank(w, id), id) && Domains(w)
    ensures forall k :: Head(id, k) in Blank(w, id).chains && Blank(w, id).chains[Head(id, k)] == []
    ensures forall k :: Head(id, k) in Blank(w, id).heads && Blank(w, id).heads[Head(id, k)] == None
  {
    hide Domains, HeadOk, NodeOk, UriOk, UriSame, NodeSame;
    var v := Blank(w, id);
    BlankDomains(w, id);
    HeadsKnown(w);
    BlankHeads(w, id);
    BlankNodes(w, id);
    forall x | x in v.live ensures NodeOk(v, x) {
      BlankNode(w, id, x);
    }
    forall u | u in w.uris ensures UriOk(v, u) && UriSame(w, v, u) {
      BlankUri(w, id, u);
    }
    BusyIsFine(v, id);
  }

  lemma BlankHeads(w: World, id: UriId)
    requires Sound(w) && id !in w.uris
    ensures forall h :: h in Blank(w, id).chains ==> HeadOk(Blank(w, id), h)
  {
    var v := Blank(w, id);
    BlankDomains(w, id);
    hide Domains, NodeOk, UriOk, Blank;
    BlankSame(w, id);
    forall h | h in v.chains ensures HeadOk(v, h) {
      assert h.uri != id ==> HeadOk(w, h) && h.uri in w.uris && HeadSame(w, v, h);
    }
  }

  lemma BlankSame(w: World, id: UriId)
    requires Domains(w)
    ensures Blank(w, id).nodes == w.nodes && Blank(w, id).live == w.live
    ensures forall h :: h in w.chains ==> h.uri in w.uris
    ensures forall h :: h in Blank(w, id).chains ==> h in Blank(w, id).heads || h.uri != id
  {
  }

  lemma BlankNodes(w: World, id: UriId)
    requires Domains(w)
    ensures NodesGrow(w, Blank(w, id))
  {
  }

  lemma BusyIsFine(v: World, id: UriId)
    requires id in v.uris && id in v.roles && v.roles[id] == Busy
    ensures UriOk(v, id)
  {
  }

  /** What the taking over of a list needs. */
  ghost predicate CanGain(z: World, h: Head, g: Head) {
    && Domains(z) && h in z.chains && h in z.heads && z.chains[h] == [] && h.uri in z.uris
    && h.uri in z.roles && z.roles[h.uri] == Busy && h != g && h.kind == g.kind
    && g in z.heads && g in z.chains && HeadOk(z, g)
  }

  lemma GainDomains(z: World, h: Head, g: Head)
    requires CanGain(z, h, g)
    ensures Domains(Gained(z, h, g)) && Gained(z, h, g).chains.Keys == z.chains.Keys
    ensures Gained(z, h, g).live == z.live && Gained(z, h, g).uris.Keys == z.uris.Keys
    ensures NodesGrow(z, Gained(z, h, g)) && Gained(z, h, g).nodes.Keys == z.nodes.Keys
  {
  }

  lemma GainHead(z: World, h: Head, g: Head, f: Head)
    requires CanGain(z, h, g) && HeadOk(z, f)
    ensures HeadOk(Gained(z, h, g), f)
  {
    var v := Gained(z, h, g);
    ChainStays(z.nodes, v.nodes, z.heads[f], z.chains[f]);
    ChainStays(z.nodes, v.nodes, z.heads[g], z.chains[g]);
  }

  lemma GainNode(z: World, h: Head, g: Head, x: NodeId)
    requires CanGain(z, h, g) && NodeOk(z, x)
    ensures NodeOk(Gained(z, h, g), x)
  {
    var v := Gained(z, h, g);
    assert Users(v.chains, x) == if x in z.chains[g] then Users(z.chains, x) + {h} else Users(z.chains, x);
    assert h !in Users(z.chains, x);
  }

  lemma GainUri(z: World, h: Head, g: Head, u: UriId)
    requires CanGain(z, h, g) && UriOk(z, u)
    ensures UriOk(Gained(z, h, g), u)
  {
  }

  lemma GainSame(z: World, h: Head, g: Head)
    requires CanGain(z, h, g)
    ensures forall u :: UriSame(z, z, u) && u != h.uri ==> UriSame(z, Gained(z, h, g), u)
    ensures forall f :: HeadSame(z, z, f) && f != h ==> HeadSame(z, Gained(z, h, g), f)
  {
  }

  lemma GainSound(z: World, h: Head, g: Head)
    requires Sound(z) && CanGain(z, h, g)
    ensures Sound(Gained(z, h, g))
  {
    hide Domains, HeadOk, NodeOk, UriOk, Gained, NodesGrow;
    GainDomains(z, h, g);
    var v := Gained(z, h, g);
    forall f | f in v.chains ensures HeadOk(v, f) {
      GainHead(z, h, g, f);
    }
    forall x | x in v.live ensures NodeOk(v, x) {
      GainNode(z, h, g, x);
    }
    forall u | u in v.uris ensures UriOk(v, u) {
      GainUri(z, h, g, u);
    }
  }

  lemma GainKeeps(w: World, z: World, h: Head, g: Head)
    requires Growing(w, z, h.uri) && h in z.chains && z.chains[h] == [] && h.kind == g.kind && g.uri in w.uris && h.uri !in w.uris
    ensures CanGain(z, h, g) && Growing(w, Gained(z, h, g), h.uri)
    ensures IsChain(z.nodes, z.heads[g], z.chains[g])
  {
    hide Sound, Grown, CanGain, Gained;
    CanGainHere(w, z, h, g);
    GainSound(z, h, g);
    GainGrows(w, z, h, g);
  }

  lemma CanGainHere(w: World, z: World, h: Head, g: Head)
    requires Growing(w, z, h.uri) && h in z.chains && z.chains[h] == [] && h.kind == g.kind && g.uri in w.uris && h.uri !in w.uris
    ensures CanGain(z, h, g) && IsChain(z.nodes, z.heads[g], z.chains[g])
  {
    assert g.uri in z.uris && g in z.chains;
  }

  lemma GainGrows(w: World, z: World, h: Head, g: Head)
    requires Growing(w, z, h.uri) && CanGain(z, h, g) && h.uri !in w.uris
    ensures Grown(w, Gained(z, h, g), h.uri)
    ensures Gained(z, h, g).roles == z.roles
    ensures h.uri in Gained(z, h, g).uris && Gained(z, h, g).uris[h.uri].sig == None && !Gained(z, h, g).uris[h.uri].fixed
  {
    hide Sound, HeadOk, Domains, NodesGrow, UriSame, Gained;
    var v := Gained(z, h, g);
    GainDomains(z, h, g);
    GainSame(z, h, g);
    GainFields(z, h, g);
    NodesGrowOn(w, z, v);
    forall u | u in w.uris ensures UriSame(w, v, u) {
      UriSameOn(w, z, z, u);
      UriSameOn(w, z, v, u);
    }
  }

  lemma NodesGrowOn(w: World, z: World, v: World)
    requires NodesGrow(w, z) && NodesGrow(z, v)
    ensures NodesGrow(w, v)
  {
    forall x | x in w.nodes ensures NodeSame(w, v, x) {
      assert NodeSame(w, z, x) && NodeSame(z, v, x);
    }
  }

  lemma GainFields(z: World, h: Head, g: Head)
    requires CanGain(z, h, g)
    ensures
      var v := Gained(z, h, g);
      && v.roles == z.roles && h.uri in v.uris && v.chains[h] == z.chains[g] && v.heads[h] == z.heads[g]
      && v.uris[h.uri].sig == z.uris[h.uri].sig && v.uris[h.uri].fixed == z.uris[h.uri].fixed
      && ListOf(v.uris[h.uri], h.kind) == z.heads[g]
      && (forall k :: k != h.kind ==> ListOf(v.uris[h.uri], k) == ListOf(z.uris[h.uri], k))
  {
  }

  /** A URI that is complete is handed to its holder. */
  ghost function Settled(z: World, id: UriId): World {
    z.(roles := z.roles[id := User])
  }

  ghost predicate CanSettle(z: World, id: UriId) {
    && id in z.uris && id in z.roles && z.roles[id] == Busy && Matches(z, id)
    && (z.uris[id].sig.Some? ==> z.uris[id].sig.value in z.roles && z.roles[z.uris[id].sig.value] == Signature(id))
  }

  lemma SettleSound(z: World, id: UriId)
    requires Sound(z) && CanSettle(z, id)
    ensures Sound(Settled(z, id))
  {
    hide Domains, HeadOk, NodeOk, UriOk, Matches;
    var v := Settled(z, id);
    SettleDomains(z, id);
    forall h | h in v.chains ensures HeadOk(v, h) {
      SettleHead(z, id, h);
    }
    forall x | x in v.live ensures NodeOk(v, x) {
      SettleNode(z, id, x);
    }
    forall u | u in v.uris ensures UriOk(v, u) {
      SettleUri(z, id, u);
    }
  }

  lemma SettleKeeps(w: World, z: World, id: UriId)
    requires Growing(w, z, id) && Matches(z, id) && id !in w.uris
    ensures Sound(Settled(z, id)) && Grown(w, Settled(z, id), id)
  {
    hide Sound, Grown, Matches;
    SettleGrown(w, z, id);
    SettleSound(z, id);
  }

  lemma SettleDomains(z: World, id: UriId)
    requires Domains(z) && id in z.uris
    ensures Domains(Settled(z, id))
  {
  }

  lemma SettleHead(z: World, id: UriId, h: Head)
    requires HeadOk(z, h)
    ensures HeadOk(Settled(z, id), h)
  {
  }

  lemma SettleNode(z: World, id: UriId, x: NodeId)
    requires NodeOk(z, x) && id in z.roles && z.roles[id] == Busy
    ensures NodeOk(Settled(z, id), x)
  {
  }

  lemma SettleUri(z: World, id: UriId, u: UriId)
    requires UriOk(z, u) && CanSettle(z, id)
    ensures UriOk(Settled(z, id), u)
  {
  }

  lemma SettleGrown(w: World, z: World, id: UriId)
    requires Grown(w, z, id) && id !in w.uris
    ensures Grown(w, Settled(z, id), id)
  {
    var v := Settled(z, id);
    forall u | u in w.uris ensures UriSame(w, v, u) {
      assert UriSame(w, z, u);
    }
    forall x | x in w.nodes ensures NodeSame(w, v, x) {
      assert NodeSame(w, z, x);
    }
  }
}
