/** Changing the lists and the signature of one URI. */
module UriChange {
  import opened Wrappers
  import opened UriHeap
  import opened UriRelease
  import opened UriMaking

  lemma PrependReady(w: World, h: Head, c: UriId, x: NodeId)
    requires CanPrepend(w, h, c, x)
    ensures h.uri in w.uris && h in w.heads && h in w.chains
  {
  }

  /** Where a configuration URI comes from: whether it is well formed, and whether it is local. */
  datatype Text = Text(valid: bool, local: bool)

  /** Nothing differs. */
  ghost predicate Same(w: World, v: World) {
    && v.uris.Keys == w.uris.Keys && v.live == w.live
    && v.nodes.Keys - v.live == w.nodes.Keys - w.live
    && (forall u :: u in w.uris ==> UriSame(w, v, u))
    && (forall x :: x in w.live ==> NodeSame(w, v, x))
  }

  /** One more node, x, in front of the list of h, for the URI c; nothing else differs. */
  ghost predicate Extended(w: World, v: World, h: Head, c: UriId, x: NodeId) {
    && h in w.chains && h in v.chains && v.chains[h] == [x] + w.chains[h]
    && x in v.nodes && v.nodes[x].uri == Some(c) && v.nodes[x].data == None && v.nodes[x].kind == h.kind
    && c in v.uris && c in v.roles && v.roles[c] == Config(x)
    && v.uris.Keys == w.uris.Keys + {c} && v.live == w.live + {x} && v.nodes.Keys == w.nodes.Keys + {x}
    && (forall y :: y in w.nodes ==> NodeSame(w, v, y))
    && (forall t :: t in w.uris && t != h.uri ==> UriSame(w, v, t))
    && h.uri in w.uris && h.uri in v.uris && v.uris[h.uri] == WithList(w.uris[h.uri], h.kind, Some(x))
    && (forall g :: g != h && g.uri == h.uri ==> HeadSame(w, v, g))
    && h.uri in v.roles && v.roles[h.uri] == User
  }

  ghost function Prepended(w: World, h: Head, c: UriId, x: NodeId): World
    requires h.uri in w.uris && h in w.heads && h in w.chains
  {
    w.(nodes := w.nodes[x := Node(w.heads[h], 1, Some(c), None, h.kind)],
       uris := w.uris[h.uri := WithList(w.uris[h.uri], h.kind, Some(x))],
       roles := w.roles[c := Config(x)], live := w.live + {x},
       heads := w.heads[h := Some(x)], chains := w.chains[h := [x] + w.chains[h]])
  }

  ghost predicate CanPrepend(w: World, h: Head, c: UriId, x: NodeId) {
    && Domains(w) && h.uri in w.uris && h in w.heads && h in w.chains && h.uri in w.roles && w.roles[h.uri] == User
    && x !in w.nodes && x !in w.live && (forall f :: f in w.chains ==> x !in w.chains[f])
    && c != h.uri && c in w.uris && c in w.roles && w.roles[c] == User
    && w.uris[c] == Uri(None, None, None, w.uris[c].fixed)
    && HeadOk(w, h)
  }

  lemma PrependDomains(w: World, h: Head, c: UriId, x: NodeId)
    requires CanPrepend(w, h, c, x)
    ensures
      var v := Prepended(w, h, c, x);
      && Domains(v) && v.chains.Keys == w.chains.Keys && v.uris.Keys == w.uris.Keys && v.live == w.live + {x}
  {
  }

  lemma PrependHead(w: World, h: Head, c: UriId, x: NodeId, f: Head)
    requires CanPrepend(w, h, c, x) && HeadOk(w, f)
    ensures HeadOk(Prepended(w, h, c, x), f)
  {
    var v := Prepended(w, h, c, x);
    ChainStays(w.nodes, v.nodes, w.heads[f], w.chains[f]);
    if f == h {
      assert v.chains[h][1..] == w.chains[h];
    }
  }

  lemma PrependNode(w: World, h: Head, c: UriId, x: NodeId, y: NodeId)
    requires CanPrepend(w, h, c, x) && (y == x || NodeOk(w, y))
    ensures NodeOk(Prepended(w, h, c, x), y)
  {
    var v := Prepended(w, h, c, x);
    if y == x {
      assert Users(v.chains, x) == {h};
    } else {
      assert Users(v.chains, y) == Users(w.chains, y);
    }
  }

  lemma PrependUri(w: World, h: Head, c: UriId, x: NodeId, t: UriId)
    requires CanPrepend(w, h, c, x) && UriOk(w, t)
    ensures UriOk(Prepended(w, h, c, x), t)
  {
  }

  lemma PrependKeeps(w: World, h: Head, c: UriId, x: NodeId)
    requires Sound(w) && CanPrepend(w, h, c, x)
    ensures Sound(Prepended(w, h, c, x))
  {
    hide Domains, HeadOk, NodeOk, UriOk, Prepended;
    var v := Prepended(w, h, c, x);
    PrependDomains(w, h, c, x);
    forall f | f in v.chains ensures HeadOk(v, f) {
      PrependHead(w, h, c, x, f);
    }
    forall y | y in v.live ensures NodeOk(v, y) {
      PrependNode(w, h, c, x, y);
    }
    forall t | t in v.uris ensures UriOk(v, t) {
      PrependUri(w, h, c, x, t);
    }
  }

  lemma SameAtOnce(w: World)
    requires Sound(w)
    ensures Same(w, w)
  {
    HeadsKnown(w);
  }

  lemma NoLists(z: World, c: UriId)
    requires Sound(z) && c in z.uris && c in z.roles && z.roles[c] == User
    requires forall k :: Head(c, k) in z.chains && z.chains[Head(c, k)] == []
    ensures z.uris[c].pem == None && z.uris[c].pubkey == None
    ensures forall x :: Head(c, Pem) !in Users(z.chains, x) && Head(c, Pubkey) !in Users(z.chains, x)
  {
    assert UriOk(z, c);
    assert HeadOk(z, Head(c, Pem)) && HeadOk(z, Head(c, Pubkey));
  }

  /** All nodes stay when a URI without lists is freed. */
  lemma NodesStay(z: World, v: World, c: UriId, x: NodeId)
    requires Sound(z) && Sound(v) && Frame(z, v, {c}) && x in z.live
    requires Head(c, Pem) !in Users(z.chains, x) && Head(c, Pubkey) !in Users(z.chains, x)
    ensures x in v.live
  {
    hide HeadOk, UriOk, Frame;
    assert NodeOk(z, x);
    var h :| h in Users(z.chains, x);
    TwoHeads(c, h);
    ReachedStays(z, v, {c}, h, x);
  }

  lemma ConfigStays(z: World, v: World, a: set<UriId>, t: UriId)
    requires Sound(z) && Sound(v) && Frame(z, v, a) && z.live <= v.live && t in z.uris && z.roles[t].Config?
    ensures t in v.uris
  {
    assert UriOk(z, t);
    var y := z.roles[t].node;
    assert NodeSame(z, v, y);
    assert NodeOk(v, y);
  }

  lemma MadeInVain(w: World, z: World, v: World, c: UriId)
    requires Sound(w) && Sound(z) && Sound(v) && Grown(w, z, c) && c !in w.uris
    requires c in z.uris && z.uris[c].sig == None && z.roles[c] == User
    requires forall k :: Head(c, k) in z.chains && z.chains[Head(c, k)] == []
    requires Frame(z, v, Going(z, c)) && Going(z, c) !! v.uris.Keys
    ensures Same(w, v) && (Valid(w) ==> Valid(v))
  {
    hide Sound, HeadOk, NodeOk, UriOk, Matches, IsChain;
    assert Going(z, c) == {c};
    NoLists(z, c);
    forall x | x in z.live ensures x in v.live {
      NodesStay(z, v, c, x);
    }
    forall t | t in w.uris ensures t in v.uris {
      assert UriSame(w, z, t);
      if z.roles[t].Config? {
        ConfigStays(z, v, {c}, t);
      }
    }
    BackAgain(w, z, v, c);
    SameValid(w, v);
  }

  lemma BackAgain(w: World, z: World, v: World, c: UriId)
    requires Grown(w, z, c) && Frame(z, v, {c}) && c !in v.uris && c !in w.uris
    requires z.live <= v.live && w.uris.Keys <= v.uris.Keys
    ensures Same(w, v)
  {
    forall t | t in w.uris ensures UriSame(w, v, t) {
      assert UriSame(w, z, t) && UriSame(z, v, t);
    }
    forall x | x in w.live ensures NodeSame(w, v, x) {
      assert x in w.nodes by { assert z.live == w.live && NodeSame(z, v, x); }
      assert NodeSame(w, z, x) && NodeSame(z, v, x);
    }
  }

  lemma SameValid(w: World, v: World)
    requires Sound(v) && Same(w, v)
    ensures Valid(w) ==> Valid(v)
  {
    hide HeadOk, NodeOk, UriOk;
    if Valid(w) {
      forall t | t in v.uris ensures v.roles[t] != Busy {
        assert UriSame(w, v, t);
      }
      forall x | x in v.nodes ensures x in v.live {
        assert x !in v.live ==> x in v.nodes.Keys - v.live;
      }
    }
  }

  lemma AddReady(w: World, z: World, h: Head, c: UriId, x: NodeId)
    requires Sound(z) && Grown(w, z, c) && h.uri in w.uris && h.uri in w.roles && w.roles[h.uri] == User
    requires c !in w.uris && x !in w.nodes && c in z.uris && c in z.roles && z.roles[c] == User && z.uris[c].sig == None
    requires forall k :: Head(c, k) in z.chains && z.chains[Head(c, k)] == []
    ensures CanPrepend(z, h, c, x) && z.heads[h] == ListOf(z.uris[h.uri], h.kind) && z.uris[h.uri] == w.uris[h.uri]
    ensures x !in z.nodes
  {
    hide Sound, UriOk, NodeOk, IsChain, HeadOk, Domains, Grown;
    NoLists(z, c);
    GrownParts(w, z, c);
    assert UriSame(w, z, h.uri);
    SoundDomains(z);
    HolderMatches(z, h);
    OwnList(z, h);
    FreshNode(z, x);
  }

  lemma FreshNode(z: World, x: NodeId)
    requires Sound(z) && x !in z.nodes
    ensures x !in z.live && forall f :: f in z.chains ==> x !in z.chains[f]
  {
    forall f | f in z.chains ensures x !in z.chains[f] {
      assert HeadOk(z, f);
    }
  }

  lemma PrependExtends(w: World, z: World, h: Head, c: UriId, x: NodeId)
    requires Grown(w, z, c) && CanPrepend(z, h, c, x) && h.uri in w.uris && c !in w.uris && Domains(w)
    ensures Extended(w, Prepended(z, h, c, x), h, c, x)
  {
    hide HeadOk, Domains, Grown, UriSame, NodeSame;
    GrownParts(w, z, c);
    PrependHeads(w, z, h, c, x);
    PrependUris(w, z, h, c, x);
    PrependNodes(w, z, h, c, x);
  }

  lemma PrependHeads(w: World, z: World, h: Head, c: UriId, x: NodeId)
    requires UriSame(w, z, h.uri) && CanPrepend(z, h, c, x)
    ensures h in w.chains && z.chains[h] == w.chains[h] && z.uris[h.uri] == w.uris[h.uri]
    ensures forall g :: g != h && g.uri == h.uri ==> HeadSame(w, Prepended(z, h, c, x), g)
  {
    hide HeadOk, Domains;
    TwoHeads(h.uri, h);
    assert HeadSame(w, z, h);
    forall g | g != h && g.uri == h.uri ensures HeadSame(w, Prepended(z, h, c, x), g) {
      TwoHeads(h.uri, g);
      assert HeadSame(w, z, g);
    }
  }

  lemma PrependUris(w: World, z: World, h: Head, c: UriId, x: NodeId)
    requires forall u :: u in w.uris ==> UriSame(w, z, u)
    requires CanPrepend(z, h, c, x) && c !in w.uris
    ensures forall t :: t in w.uris && t != h.uri ==> UriSame(w, Prepended(z, h, c, x), t)
  {
    hide HeadOk, Domains, UriSame;
    PrependSame(z, h, c, x);
    forall t | t in w.uris && t != h.uri ensures UriSame(w, Prepended(z, h, c, x), t) {
      UriSameOn(w, z, z, t);
      UriSameOn(w, z, Prepended(z, h, c, x), t);
    }
  }

  lemma PrependNodes(w: World, z: World, h: Head, c: UriId, x: NodeId)
    requires forall y :: y in w.nodes ==> NodeSame(w, z, y)
    requires CanPrepend(z, h, c, x)
    ensures forall y :: y in w.nodes ==> NodeSame(w, Prepended(z, h, c, x), y)
  {
    hide HeadOk, Domains;
    forall y | y in w.nodes ensures NodeSame(w, Prepended(z, h, c, x), y) {
      assert NodeSame(w, z, y);
    }
  }

  lemma PrependSame(z: World, h: Head, c: UriId, x: NodeId)
    requires CanPrepend(z, h, c, x)
    ensures forall t :: t != h.uri && t != c && UriSame(z, z, t) ==> UriSame(z, Prepended(z, h, c, x), t)
  {
  }

  lemma ExtendedValid(w: World, v: World, h: Head, c: UriId, x: NodeId)
    requires Sound(v) && Extended(w, v, h, c, x)
    ensures Valid(w) ==> Valid(v)
  {
    hide HeadOk, NodeOk, UriOk;
    if Valid(w) {
      forall t | t in v.uris ensures v.roles[t] != Busy {
        assert t != h.uri && t != c ==> UriSame(w, v, t);
      }
    }
  }

  lemma DroppedSettles(w: World, z: World, h: Head)
    requires Matches(w, h.uri) && UriOk(w, h.uri) && w.roles[h.uri] == User && w.roles.Keys == w.uris.Keys
    requires UrisFrame(Taken(w, h.uri), z, {h.uri}) && h.uri in z.uris && z.uris[h.uri] == w.uris[h.uri]
    requires h.uri in z.roles && z.roles[h.uri] == Busy && h in z.heads && z.heads[h] == None
    requires forall g :: g != h && g.uri == h.uri ==> HeadSame(Taken(w, h.uri), z, g)
    ensures CanSettle(Put(z, h.uri, WithList(w.uris[h.uri], h.kind, None)), h.uri)
  {
    var u := h.uri;
    var v := Put(z, u, WithList(w.uris[u], h.kind, None));
    forall k ensures Head(u, k) in v.heads && v.heads[Head(u, k)] == ListOf(v.uris[u], k) {
      if k != h.kind {
        assert HeadSame(Taken(w, u), z, Head(u, k));
      }
    }
    if w.uris[u].sig.Some? {
      var g := w.uris[u].sig.value;
      KeepsOther(Taken(w, u), z, {u}, g);
    }
  }

  lemma DroppedFrame(w: World, z: World, h: Head)
    requires Domains(w) && h.uri in w.uris && h.uri in w.roles && h.uri in z.uris && h.uri in z.roles
    requires Frame(Taken(w, h.uri), z, {h.uri}) && Domains(z)
    ensures Frame(w, Settled(Put(z, h.uri, WithList(w.uris[h.uri], h.kind, None)), h.uri), {h.uri})
  {
    hide Frame;
    var u := h.uri;
    var v := Settled(Put(z, u, WithList(w.uris[u], h.kind, None)), u);
    TouchFrame(w, Taken(w, u), u);
    TouchFrame(z, v, u);
    FrameOn(w, Taken(w, u), z, {u});
    FrameOn(w, z, v, {u});
  }

  lemma DroppedValid(w: World, v: World, u: UriId)
    requires Sound(v) && Frame(w, v, {u}) && u in v.roles && v.roles[u] == User
    ensures Valid(w) ==> Valid(v)
  {
    hide HeadOk, NodeOk, UriOk;
    if Valid(w) {
      forall t | t in v.uris ensures v.roles[t] != Busy {
        assert t != u ==> UriSame(w, v, t);
      }
      forall x | x in v.nodes ensures x in v.live {
        assert x !in v.live ==> x in v.nodes.Keys - v.live;
      }
    }
  }

  /** A URI is taken in hand, so that its lists or its signature may be out of step for a while. */
  ghost function Taken(w: World, u: UriId): World {
    w.(roles := w.roles[u := Busy])
  }

  lemma TakeNode(w: World, u: UriId, x: NodeId)
    requires NodeOk(w, x) && u in w.roles && w.roles[u] == User
    ensures NodeOk(Taken(w, u), x)
  {
  }

  lemma TakeUri(w: World, u: UriId, t: UriId)
    requires UriOk(w, t) && UriOk(w, u) && w.roles[u] == User
    ensures UriOk(Taken(w, u), t)
  {
  }

  lemma TakeKeeps(w: World, u: UriId)
    requires Sound(w) && u in w.roles && w.roles[u] == User
    ensures Sound(Taken(w, u)) && Domains(w) && u in w.uris && Matches(w, u) && UriOk(w, u)
    ensures forall k :: Head(u, k) in w.heads && Head(u, k) in w.chains
  {
    var v := Taken(w, u);
    assert UriOk(w, u);
    KnownHeads(w, u);
    assert Domains(v);
    forall h | h in v.chains ensures HeadOk(v, h) {
      assert HeadOk(w, h);
    }
    hide Domains, HeadOk, NodeOk, UriOk, Matches;
    forall x | x in v.live ensures NodeOk(v, x) {
      TakeNode(w, u, x);
    }
    forall t | t in v.uris ensures UriOk(v, t) {
      TakeUri(w, u, t);
    }
  }

  ghost function Put(w: World, u: UriId, value: Uri): World {
    w.(uris := w.uris[u := value])
  }

  /** The fields of a URI in hand may change, if no signature URI looks to it. */
  lemma PutKeeps(w: World, u: UriId, value: Uri)
    requires Sound(w) && u in w.uris && w.roles[u] == Busy
    requires value.sig == w.uris[u].sig || forall t :: t in w.roles ==> w.roles[t] != Signature(u)
    ensures Sound(Put(w, u, value)) && Domains(w)
  {
    var v := Put(w, u, value);
    PutDomains(w, u, value);
    forall h | h in v.chains ensures HeadOk(v, h) {
      assert HeadOk(w, h);
    }
    forall x | x in v.live ensures NodeOk(v, x) {
      assert NodeOk(w, x);
    }
    hide Domains, HeadOk, NodeOk;
    forall t | t in v.uris ensures UriOk(v, t) {
      assert UriOk(w, t);
    }
  }

  lemma PutDomains(w: World, u: UriId, value: Uri)
    requires Domains(w) && u in w.uris
    ensures Domains(Put(w, u, value))
  {
  }

  /** Nothing but the record and the holder of u differs. */
  lemma TouchFrame(w: World, v: World, u: UriId)
    requires Domains(w) && v.nodes == w.nodes && v.live == w.live && v.heads == w.heads && v.chains == w.chains
    requires v.uris.Keys == w.uris.Keys && v.roles.Keys == w.roles.Keys
    requires forall t :: t in w.uris && t != u ==> v.uris[t] == w.uris[t] && v.roles[t] == w.roles[t]
    ensures Frame(w, v, {u})
  {
    HeadsKnown(w);
    forall t | t in v.uris && t != u ensures UriSame(w, v, t) {
      assert HeadSame(w, w, Head(t, Pem)) && HeadSame(w, w, Head(t, Pubkey));
    }
  }

  /** The signature URI of u has the certificates of u, and no keys. */
  ghost predicate SignedBy(w: World, v: World, u: UriId, g: UriId) {
    && g in v.uris && g in v.roles && v.roles[g] == Signature(u)
    && Head(g, Pem) in v.chains && Head(u, Pem) in w.chains && v.chains[Head(g, Pem)] == w.chains[Head(u, Pem)]
    && Head(g, Pubkey) in v.chains && v.chains[Head(g, Pubkey)] == []
  }

  ghost function Wed(q: World, u: UriId, g: UriId): World {
    q.(roles := q.roles[g := Signature(u)][u := User])
  }

  ghost predicate CanWed(q: World, u: UriId, g: UriId) {
    && u in q.uris && u in q.roles && q.roles[u] == Busy && Matches(q, u) && q.uris[u].sig == Some(g)
    && g in q.uris && g in q.roles && q.roles[g] == User && q.uris[g].sig == None && g != u
  }

  lemma WedNode(q: World, u: UriId, g: UriId, x: NodeId)
    requires NodeOk(q, x) && CanWed(q, u, g)
    ensures NodeOk(Wed(q, u, g), x)
  {
  }

  lemma WedUri(q: World, u: UriId, g: UriId, t: UriId)
    requires UriOk(q, t) && UriOk(q, g) && CanWed(q, u, g)
    ensures UriOk(Wed(q, u, g), t)
  {
  }

  lemma WedDomains(q: World, u: UriId, g: UriId)
    requires Domains(q) && CanWed(q, u, g)
    ensures Domains(Wed(q, u, g))
  {
  }

  lemma WedKeeps(q: World, u: UriId, g: UriId)
    requires Sound(q) && CanWed(q, u, g)
    ensures Sound(Wed(q, u, g))
  {
    hide Domains, NodeOk, UriOk, Matches;
    var v := Wed(q, u, g);
    WedDomains(q, u, g);
    forall h | h in v.chains ensures HeadOk(v, h) {
      assert HeadOk(q, h);
    }
    forall x | x in v.live ensures NodeOk(v, x) {
      WedNode(q, u, g, x);
    }
    forall t | t in v.uris ensures UriOk(v, t) {
      WedUri(q, u, g, t);
    }
  }

  /** A signature URI of u is being made or replaced: u is in hand, and all else is finished. */
  ghost predicate Stage(w: World, v: World, u: UriId) {
    && u in w.uris && u in v.uris && u in v.roles && v.roles[u] == Busy
    && v.uris[u] == w.uris[u].(sig := v.uris[u].sig)
    && (forall k :: HeadSame(w, v, Head(u, k)))
    && Others(w, v, Going(w, u))
    && (w.uris[u].sig.Some? ==> w.uris[u].sig.value !in v.uris)
    && v.live == v.nodes.Keys && v.roles.Keys == v.uris.Keys
    && (forall t :: t in v.roles && t != u ==> v.roles[t] != Busy)
    && Matches(v, u)
  }

  lemma StageFacts(w: World, v: World, u: UriId)
    requires Stage(w, v, u)
    ensures u in w.uris && u in v.uris && u in v.roles && v.roles[u] == Busy && Matches(v, u)
    ensures v.uris[u] == w.uris[u].(sig := v.uris[u].sig)
    ensures forall k :: Head(u, k) in v.chains && Head(u, k) in w.chains && v.chains[Head(u, k)] == w.chains[Head(u, k)]
    ensures w.uris[u].sig.Some? ==> w.uris[u].sig.value !in v.uris
  {
    forall k ensures Head(u, k) in v.chains && Head(u, k) in w.chains && v.chains[Head(u, k)] == w.chains[Head(u, k)] {
      assert HeadSame(w, v, Head(u, k));
    }
  }

  lemma MatchesOn(w: World, v: World, u: UriId)
    requires Matches(w, u) && UriSame(w, v, u)
    ensures Matches(v, u)
  {
    forall k ensures HeadSame(w, v, Head(u, k)) {
      TwoHeads(u, Head(u, k));
    }
  }

  lemma FirstStep(w: World, t: World, u: UriId)
    requires Valid(w) && u in w.uris && Matches(w, u) && Sound(t)
    requires Frame(LetGo(w, u), t, Going(w, u)) && UriSame(LetGo(w, u), t, u) && LetGo(w, u).roles[u] == Busy
    requires w.uris[u].sig.Some? ==> w.uris[u].sig.value !in t.uris
    ensures Stage(w, t, u) && t.uris.Keys <= w.uris.Keys && t.uris[u].sig == w.uris[u].sig
  {
    hide HeadOk, NodeOk, UriOk;
    var v := LetGo(w, u);
    SoundDomains(t);
    assert Matches(v, u);
    MatchesOn(v, t, u);
    forall k ensures HeadSame(w, t, Head(u, k)) {
      TwoHeads(u, Head(u, k));
    }
    forall x | x in t.nodes ensures x in t.live {
      assert x !in t.live ==> x in t.nodes.Keys - t.live;
    }
    forall s | s in w.uris && s in w.roles && s !in Going(w, u) && !w.roles[s].Config? ensures UriSame(w, t, s) {
      assert UriSame(v, t, s);
    }
    forall s | s in t.roles && s != u ensures t.roles[s] != Busy {
      assert UriSame(v, t, s);
    }
  }

  /** Nobody is the signature URI of a URI without one. */
  lemma NobodySigns(t: World, u: UriId)
    requires Sound(t) && u in t.uris && (t.uris[u].sig.Some? ==> t.uris[u].sig.value !in t.uris)
    ensures forall s :: s in t.roles ==> t.roles[s] != Signature(u)
  {
    forall s | s in t.roles ensures t.roles[s] != Signature(u) {
      assert UriOk(t, s);
    }
  }

  /** Going on with u in hand, where only g, which is new, may differ. */
  lemma StageOn(w: World, v: World, z: World, u: UriId, g: UriId)
    requires Stage(w, v, u) && UriSame(v, z, u) && Others(v, z, {g}) && g !in w.uris
    requires w.uris[u].sig.Some? ==> w.uris[u].sig.value !in z.uris
    requires z.live == z.nodes.Keys && z.roles.Keys == z.uris.Keys
    requires forall t :: t in z.roles && t != u ==> z.roles[t] != Busy
    ensures Stage(w, z, u)
  {
    MatchesOn(v, z, u);
    forall k ensures HeadSame(w, z, Head(u, k)) {
      TwoHeads(u, Head(u, k));
      assert HeadSame(w, v, Head(u, k));
    }
    forall s | s in w.uris && s in w.roles && s !in Going(w, u) && !w.roles[s].Config? ensures UriSame(w, z, s) {
      assert UriSame(w, v, s);
      assert UriSame(v, z, s);
    }
  }

  lemma SecondStep(w: World, t: World, z: World, u: UriId, g: UriId, ok: bool)
    requires Stage(w, t, u) && Sound(t) && Sound(z) && g !in w.uris && g !in t.uris
    requires if ok then Grown(t, z, g) && g in z.roles && z.roles[g] == User else z == t
    requires w.uris[u].sig.Some? ==> w.uris[u].sig.value != g
    requires t.uris[u].sig == w.uris[u].sig
    ensures Stage(w, z, u) && forall s :: s in z.roles ==> z.roles[s] != Signature(u)
  {
    hide Sound, Matches, Grown, UriSame, HeadSame, Others, NodesGrow;
    SoundDomains(z);
    SoundDomains(t);
    if ok {
      GrownOthers(t, z, u, g);
      StageOn(w, t, z, u, g);
    }
    NobodySigns(z, u);
  }

  lemma GrownOthers(t: World, z: World, u: UriId, g: UriId)
    requires Grown(t, z, g) && u in t.uris && t.live == t.nodes.Keys && g in z.roles && z.roles[g] == User
    requires t.roles.Keys == t.uris.Keys && z.roles.Keys == z.uris.Keys
    requires forall s :: s in t.roles && s != u ==> t.roles[s] != Busy
    ensures u in z.uris && z.uris[u] == t.uris[u]
    ensures Others(t, z, {g}) && UriSame(t, z, u) && z.live == z.nodes.Keys && z.uris.Keys <= t.uris.Keys + {g}
    ensures forall s :: s in z.roles && s != u ==> z.roles[s] != Busy
  {
    forall s | s in z.roles && s != u ensures z.roles[s] != Busy {
      assert s != g ==> UriSame(t, z, s);
    }
  }

  lemma ThirdStep(w: World, z: World, u: UriId, value: Uri)
    requires Stage(w, z, u) && value == z.uris[u].(sig := value.sig)
    ensures Stage(w, Put(z, u, value), u)
  {
    var y := Put(z, u, value);
    forall k ensures HeadSame(w, y, Head(u, k)) {
      assert HeadSame(w, z, Head(u, k));
    }
    assert Matches(y, u) by {
      forall k ensures ListOf(y.uris[u], k) == ListOf(z.uris[u], k) {
      }
    }
    forall s | s in w.uris && s in w.roles && s !in Going(w, u) && !w.roles[s].Config? ensures UriSame(w, y, s) {
      assert UriSame(w, z, s);
    }
  }

  lemma UnsignedStep(w: World, y: World, u: UriId)
    requires Stage(w, y, u) && y.uris[u].sig == None
    ensures CanSettle(y, u)
    ensures Sound(Settled(y, u)) ==> Valid(Settled(y, u))
    ensures Others(w, Settled(y, u), Going(w, u))
    ensures forall k :: HeadSame(w, Settled(y, u), Head(u, k))
  {
    hide Sound;
    SettledOthers(w, y, Settled(y, u), u);
  }

  /** Only who holds u differs. */
  lemma SettledOthers(w: World, y: World, v: World, u: UriId)
    requires Stage(w, y, u) && v.uris == y.uris && v.heads == y.heads && v.chains == y.chains
    requires forall s :: s in w.uris && s != u && s in y.roles ==> s in v.roles && v.roles[s] == y.roles[s]
    ensures Others(w, v, Going(w, u)) && forall k :: HeadSame(w, v, Head(u, k))
  {
    forall k ensures HeadSame(w, v, Head(u, k)) {
      assert HeadSame(w, y, Head(u, k));
    }
    forall s | s in w.uris && s in w.roles && s !in Going(w, u) && !w.roles[s].Config? ensures UriSame(w, v, s) {
      assert UriSame(w, y, s);
    }
  }

  lemma FourthStep(w: World, y: World, q: World, u: UriId, g: UriId)
    requires Stage(w, y, u) && Sound(y) && Sound(q) && Frame(y, q, {g}) && g !in w.uris && g != u
    requires y.uris[u].sig == Some(g) && g in y.uris && g in q.uris && g in q.roles && q.roles[g] == User && q.uris[g].sig == None
    requires w.uris[u].sig.Some? ==> w.uris[u].sig.value !in y.uris
    ensures CanWed(q, u, g) && Stage(w, q, u) && q.uris[u].sig == Some(g)
  {
    hide Sound;
    SoundDomains(q);
    SoundDomains(y);
    KeepsOther(y, q, {g}, u);
    FrameOthers(y, q, {g});
    MatchesOn(y, q, u);
    forall x | x in q.nodes ensures x in q.live {
      assert x !in q.live ==> x in q.nodes.Keys - q.live;
    }
    forall s | s in q.roles && s != u ensures q.roles[s] != Busy {
      assert s != g ==> UriSame(y, q, s);
    }
    StageOn(w, y, q, u, g);
  }

  lemma SignedStep(w: World, q: World, u: UriId, g: UriId)
    requires Stage(w, q, u) && CanWed(q, u, g) && g !in w.uris
    requires Head(g, Pem) in q.chains && Head(u, Pem) in w.chains && q.chains[Head(g, Pem)] == w.chains[Head(u, Pem)]
    requires Head(g, Pubkey) in q.chains && q.chains[Head(g, Pubkey)] == []
    ensures SignedBy(w, Wed(q, u, g), u, g)
    ensures Sound(Wed(q, u, g)) ==> Valid(Wed(q, u, g))
    ensures Others(w, Wed(q, u, g), Going(w, u))
    ensures forall k :: HeadSame(w, Wed(q, u, g), Head(u, k))
  {
    hide Sound;
    SettledOthers(w, q, Wed(q, u, g), u);
  }

  lemma FixSettles(w: World, u: UriId)
    requires Matches(w, u) && UriOk(w, u) && w.roles[u] == User
    ensures CanSettle(Put(Taken(w, u), u, w.uris[u].(fixed := true)), u)
  {
    var v := Put(Taken(w, u), u, w.uris[u].(fixed := true));
    forall k ensures ListOf(v.uris[u], k) == ListOf(w.uris[u], k) {
    }
  }

  lemma FixedWorld(w: World, v: World, u: UriId)
    requires Valid(w) && u in w.uris && w.roles[u] == User
    requires v == Put(w, u, w.uris[u].(fixed := true)) && Sound(Settled(Put(Taken(w, u), u, w.uris[u].(fixed := true)), u))
    ensures Valid(v)
  {
    assert v.roles == w.roles[u := Busy][u := User];
    assert v == Settled(Put(Taken(w, u), u, w.uris[u].(fixed := true)), u);
  }
}
