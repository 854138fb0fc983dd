/** Letting go of lists and of URIs, node by node. */
module UriRelease {
  import opened Wrappers
  import opened UriHeap

  /** A head lets go of its first node, which dies if it was the last to hold it. */
  ghost function Stepped(w: World, h: Head): World
    requires HeadOk(w, h) && w.chains[h] != []
  {
    var x := w.chains[h][0];
    var n := w.nodes[x];
    w.(nodes := w.nodes[x := n.(refs := if n.refs > 0 then n.refs - 1 else 0)],
       heads := w.heads[h := n.next], chains := w.chains[h := w.chains[h][1..]],
       live := if n.refs == 1 then w.live - {x} else w.live,
       roles := if n.refs == 1 && n.uri.Some? then w.roles[n.uri.value := User] else w.roles)
  }

  lemma UsersStep(chains: map<Head, seq<NodeId>>, h: Head, x: NodeId)
    requires h in chains && chains[h] != [] && forall i, j :: 0 <= i < j < |chains[h]| ==> chains[h][i] != chains[h][j]
    ensures
      var more := chains[h := chains[h][1..]];
      Users(more, x) == if x == chains[h][0] then Users(chains, x) - {h} else Users(chains, x)
    ensures h in Users(chains, chains[h][0])
  {
    var more := chains[h := chains[h][1..]];
    assert x in chains[h] <==> x == chains[h][0] || x in chains[h][1..];
  }

  lemma StepHead(w: World, h: Head, g: Head)
    requires HeadOk(w, h) && w.chains[h] != [] && HeadOk(w, g)
    requires NodeOk(w, w.chains[h][0])
    ensures HeadOk(Stepped(w, h), g)
  {
    var v := Stepped(w, h);
    var x := w.chains[h][0];
    ChainIsDistinct(w.nodes, w.heads[h], w.chains[h]);
    ChainStays(w.nodes, v.nodes, w.heads[g], w.chains[g]);
    if g == h {
      ChainFrom(w.nodes, w.heads[h], w.chains[h], 0);
      ChainStays(w.nodes, v.nodes, w.nodes[x].next, w.chains[h][1..]);
    } else if x in w.chains[g] {
      assert {g, h} <= Users(w.chains, x);
      TwoAtLeast(Users(w.chains, x), g, h);
    }
  }

  lemma TwoAtLeast<T>(s: set<T>, a: T, b: T)
    requires a in s && b in s && a != b
    ensures |s| >= 2
  {
    assert |s - {a}| == |s| - 1 && b in s - {a};
  }

  lemma StepNode(w: World, h: Head, y: NodeId)
    requires HeadOk(w, h) && w.chains[h] != [] && NodeOk(w, w.chains[h][0]) && NodeOk(w, y)
    requires y in Stepped(w, h).live
    ensures NodeOk(Stepped(w, h), y)
  {
    ChainIsDistinct(w.nodes, w.heads[h], w.chains[h]);
    UsersStep(w.chains, h, y);
  }

  lemma StepUri(w: World, h: Head, u: UriId)
    requires HeadOk(w, h) && w.chains[h] != [] && NodeOk(w, w.chains[h][0]) && UriOk(w, u)
    requires h.uri in w.roles && w.roles[h.uri] == Busy
    ensures UriOk(Stepped(w, h), u)
  {
  }

  ghost predicate CanStep(w: World, h: Head) {
    Sound(w) && h in w.heads && h in w.chains && w.chains[h] != [] && h.uri in w.roles && w.roles[h.uri] == Busy
  }

  lemma StepParts(w: World, h: Head)
    requires CanStep(w, h)
    ensures HeadOk(w, h) && NodeOk(w, w.chains[h][0]) && h.uri in w.roles
    ensures w.heads[h] == Some(w.chains[h][0]) && w.chains[h][0] in w.live
    ensures w.nodes[w.chains[h][0]].uri.Some? ==> UriOk(w, w.nodes[w.chains[h][0]].uri.value)
  {
    assert HeadOk(w, h) && UriOk(w, h.uri);
    assert w.chains[h][0] in w.live;
    assert NodeOk(w, w.chains[h][0]);
  }

  lemma StepDomains(w: World, h: Head)
    requires Domains(w) && HeadOk(w, h) && w.chains[h] != [] && NodeOk(w, w.chains[h][0])
    ensures Domains(Stepped(w, h)) && Stepped(w, h).chains.Keys == w.chains.Keys
    ensures Stepped(w, h).live <= w.live && Stepped(w, h).uris == w.uris
  {
  }

  lemma StepKeeps(w: World, h: Head)
    requires CanStep(w, h) && HeadOk(w, h)
    ensures Sound(Stepped(w, h))
  {
    StepParts(w, h);
    StepDomains(w, h);
    var v := Stepped(w, h);
    hide HeadOk, NodeOk, UriOk, Domains, Stepped;
    forall g | g in v.chains ensures HeadOk(v, g) {
      assert HeadOk(w, g);
      StepHead(w, h, g);
    }
    forall y | y in v.live ensures NodeOk(v, y) {
      StepNode(w, h, y);
    }
    forall u | u in v.uris ensures UriOk(v, u) {
      StepUri(w, h, u);
    }
  }

  /** A URI without lists is taken out. */
  ghost function Forgotten(w: World, u: UriId): World {
    var hs := {Head(u, Pem), Head(u, Pubkey)};
    w.(uris := w.uris - {u}, roles := w.roles - {u}, heads := w.heads - hs, chains := w.chains - hs)
  }

  lemma ForgetUsers(w: World, u: UriId, x: NodeId)
    requires forall k :: Head(u, k) in w.chains && w.chains[Head(u, k)] == []
    ensures Users(Forgotten(w, u).chains, x) == Users(w.chains, x)
  {
    var v := Forgotten(w, u);
    forall h | h in Users(w.chains, x) ensures h in Users(v.chains, x) {
      assert h.uri == u ==> h == Head(u, h.kind);
    }
  }

  ghost predicate CanForget(w: World, u: UriId) {
    && Domains(w) && u in w.uris && w.roles[u] == Busy
    && (forall k :: Head(u, k) in w.chains && w.chains[Head(u, k)] == [])
    && (w.uris[u].sig.Some? ==> w.uris[u].sig.value !in w.uris)
  }

  lemma ForgetDomains(w: World, u: UriId)
    requires CanForget(w, u)
    ensures Domains(Forgotten(w, u))
    ensures Forgotten(w, u).live == w.live && Forgotten(w, u).uris.Keys == w.uris.Keys - {u}
    ensures Forgotten(w, u).chains.Keys <= w.chains.Keys
  {
    forall h: Head ensures h in {Head(u, Pem), Head(u, Pubkey)} <==> h.uri == u {
      TwoHeads(u, h);
    }
  }

  lemma ForgetNode(w: World, u: UriId, x: NodeId)
    requires CanForget(w, u) && NodeOk(w, x)
    ensures NodeOk(Forgotten(w, u), x)
  {
    ForgetUsers(w, u, x);
  }

  lemma ForgetUri(w: World, u: UriId, t: UriId)
    requires CanForget(w, u) && UriOk(w, t) && t != u
    ensures UriOk(Forgotten(w, u), t)
  {
  }

  lemma ForgetHead(w: World, u: UriId, h: Head)
    requires CanForget(w, u) && HeadOk(w, h) && h.uri != u
    ensures HeadOk(Forgotten(w, u), h)
  {
  }

  lemma ForgetKeeps(w: World, u: UriId)
    requires Sound(w) && CanForget(w, u)
    ensures Sound(Forgotten(w, u))
  {
    var v := Forgotten(w, u);
    ForgetDomains(w, u);
    ForgottenHeads(w, u);
    hide Domains, Forgotten, CanForget, HeadOk, NodeOk, UriOk;
    forall h | h in v.chains ensures HeadOk(v, h) {
      ForgetHead(w, u, h);
    }
    forall x | x in v.live ensures NodeOk(v, x) {
      ForgetNode(w, u, x);
    }
    forall t | t in v.uris ensures UriOk(v, t) {
      ForgetUri(w, u, t);
    }
  }

  lemma ForgottenHeads(w: World, u: UriId)
    ensures forall h :: h in Forgotten(w, u).chains ==> h.uri != u
  {
    forall h | h in Forgotten(w, u).chains ensures h.uri != u {
      TwoHeads(u, h);
    }
  }

  /** What a step changes: the front node, the head, and the owner of what a dead node held. */
  ghost predicate StepsTo(w: World, v: World, h: Head, x: NodeId, freed: set<UriId>) {
    && v.uris == w.uris && v.nodes.Keys == w.nodes.Keys && x in w.live && w.live <= w.nodes.Keys
    && w.roles.Keys == w.uris.Keys && v.roles.Keys == w.roles.Keys
    && (forall y :: y in w.nodes && y != x ==> v.nodes[y] == w.nodes[y])
    && NodeSame(w, v, x)
    && (forall g :: g != h && g.uri in w.uris ==> HeadSame(w, v, g))
    && (forall c :: c in freed ==> c in w.roles && w.roles[c] == Config(x))
    && (forall u :: u in w.roles && u !in freed ==> v.roles[u] == w.roles[u])
  }

  ghost function Held(w: World, x: NodeId): set<UriId>
    requires x in w.nodes
  {
    if w.nodes[x].uri.Some? then {w.nodes[x].uri.value} else {}
  }

  lemma StepFrame(w: World, h: Head)
    requires CanStep(w, h) && HeadOk(w, h)
    ensures
      var x, v := w.chains[h][0], Stepped(w, h);
      if w.nodes[x].refs == 1
      then StepsTo(w, v, h, x, Held(w, x)) && v.live == w.live - {x}
      else StepsTo(w, v, h, x, {}) && v.live == w.live
  {
    StepParts(w, h);
    var v := Stepped(w, h);
    forall g | g != h && g.uri in w.uris ensures HeadSame(w, v, g) {
    }
  }

  lemma AliveFrame(w: World, v: World, h: Head, x: NodeId)
    requires StepsTo(w, v, h, x, {}) && v.live == w.live
    ensures Frame(w, v, {h.uri})
  {
  }

  lemma DeadNodes(w: World, v: World, t: World, h: Head, x: NodeId, freed: set<UriId>)
    requires StepsTo(w, v, h, x, freed) && v.live == w.live - {x} && NodesFrame(v, t)
    ensures NodesFrame(w, Without(t, x))
  {
    var z := Without(t, x);
    forall y | y in z.live ensures NodeSame(w, z, y) {
      assert NodeSame(v, t, y);
    }
    forall y ensures y in z.nodes.Keys - z.live <==> y in w.nodes.Keys - w.live {
      assert y in t.nodes.Keys - t.live <==> y in v.nodes.Keys - v.live;
    }
  }

  lemma DeadUris(w: World, v: World, t: World, h: Head, x: NodeId, freed: set<UriId>)
    requires StepsTo(w, v, h, x, freed) && UrisFrame(v, t, freed) && freed !! t.uris.Keys && h.uri in t.uris
    ensures UrisFrame(w, Without(t, x), {h.uri})
  {
    var z := Without(t, x);
    forall u | u in z.uris && u != h.uri ensures UriSame(w, z, u) {
      assert UriSame(v, t, u);
    }
  }

  /** Head h of a busy URI has come as far as list; apart from that all is as in the earlier world. */
  ghost predicate InHand(was: World, w: World, h: Head, list: Option<NodeId>) {
    && Sound(w) && Frame(was, w, {h.uri})
    && h.uri in was.uris && h.uri in w.uris && w.uris[h.uri] == was.uris[h.uri]
    && h.uri in w.roles && w.roles[h.uri] == Busy
    && h in w.heads && w.heads[h] == list && h in w.chains
    && (forall g :: g != h && g.uri == h.uri ==> HeadSame(was, w, g))
    && Idle(w.roles) <= Idle(was.roles)
  }

  lemma InHandFirst(w: World, h: Head)
    requires Sound(w) && h in w.heads && h.uri in w.roles && w.roles[h.uri] == Busy
    ensures InHand(w, w, h, w.heads[h])
  {
    hide HeadOk, NodeOk, UriOk;
    HeadsKnown(w);
    assert h.uri in w.uris;
  }

  /** Going on from one point in the middle to the next. */
  lemma InHandOn(was: World, w: World, v: World, h: Head, list: Option<NodeId>, next: Option<NodeId>)
    requires InHand(was, w, h, list) && InHand(w, v, h, next)
    ensures InHand(was, v, h, next)
  {
    hide Sound, Frame;
    FrameOn(was, w, v, {h.uri});
    forall g | g != h && g.uri == h.uri ensures HeadSame(was, v, g) {
      assert HeadSame(was, w, g) && HeadSame(w, v, g);
    }
  }

  lemma StepHeads(w: World, h: Head)
    requires CanStep(w, h) && HeadOk(w, h)
    ensures
      var x, v := w.chains[h][0], Stepped(w, h);
      && h in v.heads && v.heads[h] == w.nodes[x].next && h in v.chains && v.chains[h] == w.chains[h][1..]
      && h.uri in w.uris && h.uri in v.roles && v.roles[h.uri] == Busy
      && h.uri !in Held(w, x) && Idle(v.roles) == Idle(w.roles)
  {
    StepParts(w, h);
    HeadIsSound(w, h);
  }

  lemma StepAlive(w: World, h: Head)
    requires CanStep(w, h) && HeadOk(w, h) && w.nodes[w.chains[h][0]].refs != 1
    ensures InHand(w, Stepped(w, h), h, w.nodes[w.chains[h][0]].next)
  {
    hide Sound, Stepped, HeadOk, Frame;
    StepKeeps(w, h);
    StepFrame(w, h);
    StepHeads(w, h);
    AliveFrame(w, Stepped(w, h), h, w.chains[h][0]);
  }

  lemma StepDead(w: World, t: World, h: Head)
    requires CanStep(w, h) && HeadOk(w, h) && w.nodes[w.chains[h][0]].refs == 1
    requires Sound(t) && Frame(Stepped(w, h), t, Held(w, w.chains[h][0])) && Held(w, w.chains[h][0]) !! t.uris.Keys
    requires Idle(t.roles) <= Idle(Stepped(w, h).roles)
    ensures InHand(w, Without(t, w.chains[h][0]), h, w.nodes[w.chains[h][0]].next)
    ensures h in t.chains && t.chains[h] == w.chains[h][1..]
  {
    hide Sound, Stepped, HeadOk, NodesFrame;
    var x, v := w.chains[h][0], Stepped(w, h);
    StepFrame(w, h);
    StepHeads(w, h);
    DeadNodes(w, v, t, h, x, Held(w, x));
    assert h.uri in t.uris && UriSame(v, t, h.uri);
    DeadUris(w, v, t, h, x, Held(w, x));
    NotLive(v, t, x);
    WithoutKeeps(t, x);
    forall g | g != h && g.uri == h.uri ensures HeadSame(w, Without(t, x), g) {
      TwoHeads(h.uri, g);
      assert HeadSame(v, t, g) && HeadSame(w, v, g);
    }
    TwoHeads(h.uri, h);
    assert HeadSame(v, t, h);
  }

  lemma NotLive(v: World, t: World, x: NodeId)
    requires NodesFrame(v, t) && x !in v.live
    ensures x !in t.live
  {
  }

  /** The caller holds the only reference, and there is no signature URI. */
  ghost predicate Unowned(w: World, u: UriId) {
    u in w.uris && u in w.roles && w.roles[u] == User && w.uris[u].sig == None
  }

  /** The freeing of u begins: its signature URI has no owner any more. */
  ghost function LetGo(w: World, u: UriId): World
    requires u in w.uris
  {
    w.(roles := match w.uris[u].sig
         case None => w.roles[u := Busy]
         case Some(g) => w.roles[u := Busy][g := User])
  }

  lemma LetGoSound(w: World, u: UriId)
    requires Sound(w) && u in w.roles && w.roles[u] == User && UriOk(w, u) && u in w.uris
    ensures Sound(LetGo(w, u))
  {
    var v := LetGo(w, u);
    LetGoDomains(w, u);
    hide HeadOk, Domains, NodeOk, UriOk;
    forall h | h in v.chains ensures HeadOk(v, h) {
      LetGoHead(w, u, h);
    }
    forall x | x in v.live ensures NodeOk(v, x) {
      LetGoNode(w, u, x);
    }
    forall t | t in v.uris ensures UriOk(v, t) {
      LetGoUri(w, u, t);
    }
  }

  lemma LetGoHead(w: World, u: UriId, h: Head)
    requires u in w.uris && HeadOk(w, h)
    ensures HeadOk(LetGo(w, u), h)
  {
  }

  lemma LetGoFrame(w: World, u: UriId)
    requires Domains(w) && u in w.uris
    ensures Frame(w, LetGo(w, u), Going(w, u))
  {
    HeadsKnown(w);
    assert forall h :: HeadSame(w, w, h) ==> HeadSame(w, LetGo(w, u), h);
  }

  lemma LetGoKeeps(w: World, u: UriId)
    requires Sound(w) && u in w.roles && w.roles[u] == User
    ensures Domains(w) && u in w.uris && Sound(LetGo(w, u)) && Frame(w, LetGo(w, u), Going(w, u))
    ensures Idle(LetGo(w, u).roles) < Idle(w.roles) && |Idle(LetGo(w, u).roles)| < |Idle(w.roles)|
    ensures u in LetGo(w, u).roles && LetGo(w, u).roles[u] == Busy
    ensures w.uris[u].sig.Some? ==>
              var g := w.uris[u].sig.value;
              && g != u && g in w.uris && g in w.roles && g in LetGo(w, u).roles && LetGo(w, u).roles[g] == User
              && Going(LetGo(w, u), g) == {g}
    ensures Matches(w, u)
  {
    hide HeadOk, NodeOk, Idle, Frame, IsChain;
    SignatureParts(w, u);
    LetGoDomains(w, u);
    LetGoSound(w, u);
    LetGoFrame(w, u);
    SubsetSize(Idle(LetGo(w, u).roles), Idle(w.roles));
  }

  lemma SignatureParts(w: World, u: UriId)
    requires Sound(w) && u in w.roles && w.roles[u] == User
    ensures UriOk(w, u) && u in w.uris && Matches(w, u)
    ensures w.uris[u].sig.Some? ==>
              && UriOk(w, w.uris[u].sig.value) && w.roles[w.uris[u].sig.value] == Signature(u)
              && w.uris[w.uris[u].sig.value].sig == None
  {
    assert UriOk(w, u);
    assert w.uris[u].sig.Some? ==> UriOk(w, w.uris[u].sig.value);
  }

  lemma LetGoDomains(w: World, u: UriId)
    requires Domains(w) && UriOk(w, u) && w.roles[u] == User
    ensures Domains(LetGo(w, u)) && Idle(LetGo(w, u).roles) < Idle(w.roles)
  {
    assert u in Idle(w.roles) && u !in Idle(LetGo(w, u).roles);
  }

  lemma LetGoNode(w: World, u: UriId, x: NodeId)
    requires UriOk(w, u) && w.roles[u] == User && NodeOk(w, x)
    ensures NodeOk(LetGo(w, u), x)
  {
  }

  lemma LetGoUri(w: World, u: UriId, t: UriId)
    requires UriOk(w, u) && w.roles[u] == User && UriOk(w, t)
    ensures UriOk(LetGo(w, u), t)
  {
  }

  lemma SignatureGone(w: World, t: World, u: UriId)
    requires u in w.uris && Sound(t)
    requires
      match w.uris[u].sig
      case None => t == LetGo(w, u)
      case Some(g) => g != u && Frame(LetGo(w, u), t, {g}) && g !in t.uris
    requires Domains(w) && Matches(w, u) && u in LetGo(w, u).roles && LetGo(w, u).roles[u] == Busy
    ensures UriSame(LetGo(w, u), t, u) && Frame(LetGo(w, u), t, Going(w, u))
    ensures t.heads[Head(u, Pem)] == w.uris[u].pem && t.heads[Head(u, Pubkey)] == w.uris[u].pubkey
    ensures w.uris[u].sig.Some? ==> w.uris[u].sig.value !in t.uris
  {
    var v := LetGo(w, u);
    HeadsKnown(w);
    if w.uris[u].sig == None {
      assert UriSame(v, v, u);
    } else {
      assert UriSame(v, t, u);
      Weaken(v, t, {w.uris[u].sig.value}, Going(w, u));
    }
  }

  lemma ForgetReady(w: World, t: World, p: World, q: World, u: UriId)
    requires InHand(t, p, Head(u, Pem), None) && InHand(p, q, Head(u, Pubkey), None)
    requires u in w.uris && u in t.uris && t.uris[u] == w.uris[u]
    requires w.uris[u].sig.Some? ==> w.uris[u].sig.value !in t.uris
    ensures CanForget(q, u)
  {
    hide NodesFrame, HeadOk, NodeOk, UriOk;
    InHandFacts(t, p, Head(u, Pem), None);
    InHandFacts(p, q, Head(u, Pubkey), None);
    assert HeadSame(p, q, Head(u, Pem));
    forall k ensures Head(u, k) in q.chains && q.chains[Head(u, k)] == [] {
      match k {
        case Pem =>
        case Pubkey =>
      }
    }
  }

  lemma ForgetFrame(w: World, u: UriId)
    requires Domains(w)
    ensures Frame(w, Forgotten(w, u), {u})
    ensures Idle(Forgotten(w, u).roles) <= Idle(w.roles)
  {
    HeadsKnown(w);
  }

  lemma FreedFrame(w: World, t: World, p: World, q: World, u: UriId)
    requires u in w.uris && Frame(w, LetGo(w, u), Going(w, u)) && Frame(LetGo(w, u), t, Going(w, u))
    requires InHand(t, p, Head(u, Pem), None) && InHand(p, q, Head(u, Pubkey), None) && Domains(q)
    requires w.uris[u].sig.Some? ==> w.uris[u].sig.value !in t.uris
    ensures Frame(w, Forgotten(q, u), Going(w, u))
    ensures Going(w, u) !! Forgotten(q, u).uris.Keys
  {
    var a := Going(w, u);
    hide Sound;
    FrameShrinks(t, p, {u});
    FrameShrinks(p, q, {u});
    hide Frame;
    Weaken(t, p, {u}, a);
    Weaken(p, q, {u}, a);
    ForgetFrame(q, u);
    Weaken(q, Forgotten(q, u), {u}, a);
    FrameOn(w, LetGo(w, u), t, a);
    FrameOn(w, t, p, a);
    FrameOn(w, p, q, a);
    FrameOn(w, q, Forgotten(q, u), a);
  }

  lemma InHandFacts(was: World, w: World, h: Head, list: Option<NodeId>)
    requires InHand(was, w, h, list)
    ensures Sound(w) && Frame(was, w, {h.uri}) && h in w.heads && h in w.chains && w.heads[h] == list
    ensures h.uri in w.roles && w.roles[h.uri] == Busy && h.uri in w.uris && h.uri in was.uris && w.uris[h.uri] == was.uris[h.uri]
    ensures list.Some? ==> CanStep(w, h)
    ensures list.None? ==> w.chains[h] == []
    ensures forall g :: g != h && g.uri == h.uri ==> HeadSame(was, w, g)
    ensures Idle(w.roles) <= Idle(was.roles) && |Idle(w.roles)| <= |Idle(was.roles)|
  {
    HeadIsSound(w, h);
    SubsetSize(Idle(w.roles), Idle(was.roles));
  }

  lemma LetGoIs(w: World, v: World, u: UriId)
    requires u in w.uris && v == w.(roles := LetGo(w, u).roles)
    ensures v == LetGo(w, u)
  {
  }
}
