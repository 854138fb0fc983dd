/** The operations on URIs. */
module Uri {
  import opened Wrappers
  import opened UriHeap
  import opened UriRelease
  import opened UriMaking
  import opened UriChange
  import opened UriReading

  class Uris {
    var nodes: map<NodeId, Node>
    var uris: map<UriId, Uri>
    ghost var live: set<NodeId>
    ghost var heads: map<Head, Option<NodeId>>
    ghost var chains: map<Head, seq<NodeId>>
    ghost var roles: map<UriId, Role>

    ghost function Now(): World
      reads this
    {
      World(nodes, uris, live, heads, chains, roles)
    }

    constructor ()
      ensures Valid(Now()) && nodes == map[] && uris == map[]
    {
      nodes, uris, live, heads, chains, roles := map[], map[], {}, map[], map[], map[];
    }

    /** Every node of the list loses one user; those that had no other are freed. */
    method ListDealloc(start: Option<NodeId>, ghost h: Head)
      requires Sound(Now()) && h in heads && heads[h] == start && h.uri in roles && roles[h.uri] == Busy
      modifies this
      ensures InHand(old(Now()), Now(), h, None)
      decreases |Idle(roles)|, 1
    {
      hide Sound, Frame, InHand, HeadOk, Idle;
      ghost var was := Now();
      InHandFirst(was, h);
      var list := start;
      while list.Some?
        invariant InHand(was, Now(), h, list)
        decreases if h in chains then |chains[h]| else 0
      {
        ghost var w := Now();
        InHandFacts(was, w, h, list);
        HeadIsSound(w, h);
        StepParts(w, h);
        var x := list.value;
        nodes := nodes[x := nodes[x].(refs := nodes[x].refs - 1)];
        list := nodes[x].next;
        heads, chains := heads[h := list], chains[h := chains[h][1..]];
        if nodes[x].refs == 0 {
          live := live - {x};
          if nodes[x].uri.Some? {
            roles := roles[nodes[x].uri.value := User];
          }
          assert Now() == Stepped(w, h);
          StepKeeps(w, h);
          StepHeads(w, h);
          ListFree(x);
          ghost var t := Now();
          StepDead(w, t, h);
          nodes := nodes - {x};
          assert Now() == Without(t, x);
        } else {
          assert Now() == Stepped(w, h);
          StepAlive(w, h);
        }
        InHandOn(was, w, Now(), h, w.heads[h], list);
      }
    }

    /** What a node held is freed with it. */
    method ListFree(x: NodeId)
      requires Sound(Now()) && x in nodes
      requires nodes[x].uri.Some? ==> Unowned(Now(), nodes[x].uri.value)
      modifies this
      ensures Sound(Now()) && Frame(old(Now()), Now(), old(Held(Now(), x)))
      ensures old(Held(Now(), x)) !! uris.Keys
      ensures Idle(roles) <= old(Idle(roles))
      decreases |Idle(roles)|, 0, 1
    {
      if nodes[x].uri.Some? {
        UriFree(nodes[x].uri.value);
      } else {
        FrameAtOnce(Now());
      }
    }

    /** A URI is freed by whoever holds it, together with its signature URI. */
    method UriFree(u: UriId)
      requires Sound(Now()) && u in uris && u in roles && roles[u] == User
      modifies this
      ensures Sound(Now()) && Frame(old(Now()), Now(), old(Going(Now(), u)))
      ensures old(Going(Now(), u)) !! uris.Keys
      ensures old(Valid(Now())) ==> Valid(Now())
      ensures Idle(roles) < old(Idle(roles))
      decreases |Idle(roles)|, 0, 0
    {
      hide Sound, Frame, InHand, Idle;
      ghost var w := Now();
      LetGoKeeps(w, u);
      roles := LetGo(w, u).roles;
      assert Now() == LetGo(w, u);
      FrameAtOnce(Now());
      if uris[u].sig.Some? {
        UriFree(uris[u].sig.value);
      }
      ghost var t := Now();
      SignatureGone(w, t, u);
      SubsetSize(Idle(t.roles), Idle(LetGo(w, u).roles));
      ListDealloc(uris[u].pem, Head(u, Pem));
      ghost var p := Now();
      InHandFacts(t, p, Head(u, Pem), None);
      ListDealloc(uris[u].pubkey, Head(u, Pubkey));
      ghost var q := Now();
      InHandFacts(p, q, Head(u, Pubkey), None);
      uris := uris - {u};
      roles, heads, chains := roles - {u}, heads - {Head(u, Pem), Head(u, Pubkey)}, chains - {Head(u, Pem), Head(u, Pubkey)};
      assert Now() == Forgotten(q, u);
      ForgetReady(w, t, p, q, u);
      ForgetKeeps(q, u);
      FreedFrame(w, t, p, q, u);
      ForgetFrame(q, u);
      ValidAgain(w, Now(), Going(w, u));
    }

    /** Every node of the list gains one user. */
    method ListRefup(start: Option<NodeId>, ghost s: seq<NodeId>)
      requires IsChain(nodes, start, s)
      modifies this`nodes
      ensures nodes == Bumped(old(nodes), s)
    {
      ghost var was := nodes;
      ChainIsDistinct(nodes, start, s);
      var list := start;
      ghost var i: nat := 0;
      assert s[..0] == [] && s[0..] == s;
      while list.Some?
        invariant i <= |s| && nodes == Bumped(was, s[..i]) && IsChain(was, list, s[i..])
        decreases |s| - i
      {
        var x := list.value;
        assert x == s[i] && x !in s[..i];
        nodes := nodes[x := nodes[x].(refs := nodes[x].refs + 1)];
        list := nodes[x].next;
        assert s[i..][1..] == s[i + 1..] && s[..i + 1] == s[..i] + [x];
        i := i + 1;
      }
      assert s[..i] == s;
    }

    /** A URI that is being made takes over one list of its parent. */
    method Inherit(id: UriId, parent: UriId, kind: Kind, ghost w: World)
      requires Growing(w, Now(), id) && id !in w.uris && parent in w.uris && parent in uris
      requires Head(id, kind) in chains && chains[Head(id, kind)] == []
      requires Head(parent, kind) in heads && Head(parent, kind) in chains
      requires heads[Head(parent, kind)] == ListOf(uris[parent], kind)
      modifies this
      ensures Growing(w, Now(), id)
      ensures Now() == Gained(old(Now()), Head(id, kind), Head(parent, kind))
    {
      hide Growing;
      ghost var g, h := Head(parent, kind), Head(id, kind);
      ghost var z := Now();
      GainKeeps(w, z, h, g);
      GrowingHere(w, z, id);
      var list := ListOf(uris[parent], kind);
      uris := uris[id := if kind.Pem? then uris[id].(pem := list) else uris[id].(pubkey := list)];
      ListRefup(list, chains[g]);
      heads, chains := heads[h := heads[g]], chains[h := chains[g]];
      assert Now() == Gained(z, h, g);
    }

    /** A new URI, with the lists of its parent. Nothing is kept of one that is not well formed. */
    method NewUri(id: UriId, parent: Option<UriId>, valid: bool) returns (ok: bool)
      requires Sound(Now()) && id !in uris && (parent.Some? ==> Matches(Now(), parent.value))
      modifies this
      ensures Sound(Now()) && ok == valid
      ensures !ok ==> Now() == old(Now())
      ensures ok ==> Grown(old(Now()), Now(), id) && id in uris && id in roles && roles[id] == User
                     && uris[id].sig == None && !uris[id].fixed
      ensures ok ==> forall k :: Head(id, k) in chains && Inherited(old(Now()), parent, k) == Some(chains[Head(id, k)])
    {
      hide Sound, Grown, Growing, Matches, Gained, Blank, CanGain, IsChain, ListOf;
      if !valid {
        return false;
      }
      ghost var w := Now();
      BlankKeeps(w, id);
      uris := uris[id := Uri(None, None, None, false)];
      roles := roles[id := Busy];
      heads := heads[Head(id, Pem) := None][Head(id, Pubkey) := None];
      chains := chains[Head(id, Pem) := []][Head(id, Pubkey) := []];
      IsBlank(w, Now(), id);
      if parent.Some? {
        ParentStays(w, Now(), id, parent.value);
        Inherit(id, parent.value, Pem, w);
        ghost var m := Now();
        ParentStays(w, m, id, parent.value);
        StillEmpty(Blank(w, id), Head(id, Pem), Head(parent.value, Pem), Pubkey);
        Inherit(id, parent.value, Pubkey, w);
        GrowingHere(w, m, id);
        BothGained(Blank(w, id), m, Now(), id, parent.value);
      } else {
        BlankMatches(w, id);
      }
      ghost var z := Now();
      SettleKeeps(w, z, id);
      GrowingHere(w, z, id);
      roles := roles[id := User];
      assert Now() == Settled(z, id);
      forall k ensures Head(id, k) in chains && Inherited(w, parent, k) == Some(chains[Head(id, k)]) {
        match k {
          case Pem =>
          case Pubkey =>
        }
      }
      ok := true;
    }

    /** All of a list is dropped from a URI; what other URIs reach stays. */
    method DropAll(u: UriId, kind: Kind)
      requires Sound(Now()) && u in uris && u in roles && roles[u] == User && !uris[u].fixed
      modifies this
      ensures Sound(Now()) && Frame(old(Now()), Now(), {u}) && u in uris && u in roles && roles[u] == User
      ensures uris[u] == WithList(old(uris[u]), kind, None)
      ensures Head(u, kind) in chains && chains[Head(u, kind)] == []
      ensures forall k :: k != kind ==> HeadSame(old(Now()), Now(), Head(u, k))
      ensures old(Valid(Now())) ==> Valid(Now())
    {
      hide Sound, Frame, InHand, UriOk, Matches, ListOf, Domains;
      ghost var w, h := Now(), Head(u, kind);
      TakeKeeps(w, u);
      roles := roles[u := Busy];
      assert Now() == Taken(w, u);
      OwnList(w, h);
      ListDealloc(ListOf(uris[u], kind), h);
      ghost var z := Now();
      InHandFacts(Taken(w, u), z, h, None);
      var value := WithList(uris[u], kind, None);
      PutKeeps(z, u, value);
      uris := uris[u := value];
      assert Now() == Put(z, u, value);
      OnlyUris(Taken(w, u), z, {u});
      DroppedSettles(w, z, h);
      SettleSound(Put(z, u, value), u);
      roles := roles[u := User];
      assert Now() == Settled(Put(z, u, value), u);
      DroppedFrame(w, z, h);
      DroppedValid(w, Now(), u);
    }

    /** A new node in front of a list. */
    method ListAdd(x: NodeId, list: Option<NodeId>, ghost kind: Kind)
      requires x !in nodes
      modifies this`nodes
      ensures nodes == old(nodes)[x := Node(list, 1, None, None, kind)]
    {
      nodes := nodes[x := Node(list, 1, None, None, kind)];
    }

    /** The URI of one more certificate or key is put in front of a list. It must be well formed and local. */
    method AddOne(u: UriId, kind: Kind, text: Text, c: UriId, x: NodeId) returns (ok: bool)
      requires Sound(Now()) && u in uris && u in roles && roles[u] == User && !uris[u].fixed
      requires c !in uris && x !in nodes
      modifies this
      ensures Sound(Now()) && ok == (text.valid && text.local)
      ensures !ok ==> Same(old(Now()), Now())
      ensures ok ==> Extended(old(Now()), Now(), Head(u, kind), c, x)
      ensures old(Valid(Now())) ==> Valid(Now())
    {
      hide Sound, Frame, Grown, Matches, UriOk, ListOf, Domains, Same, Extended, Valid;
      ghost var w, h := Now(), Head(u, kind);
      ok := NewUri(c, None, text.valid);
      if !ok {
        SameAtOnce(w);
        return;
      }
      ghost var z := Now();
      if !text.local {
        UriFree(c);
        MadeInVain(w, z, Now(), c);
        return false;
      }
      Prepend(u, kind, c, x, w);
    }

    /** The new node gets the URI c; c is made and not yet held by anything. */
    method Prepend(u: UriId, kind: Kind, c: UriId, x: NodeId, ghost w: World)
      requires Sound(w) && u in w.uris && u in w.roles && w.roles[u] == User && c !in w.uris && x !in w.nodes
      requires Sound(Now()) && Grown(w, Now(), c)
      requires c in uris && c in roles && roles[c] == User && uris[c].sig == None
      requires forall k :: Head(c, k) in chains && chains[Head(c, k)] == []
      modifies this
      ensures Sound(Now()) && Extended(w, Now(), Head(u, kind), c, x)
      ensures Valid(w) ==> Valid(Now())
    {
      hide Sound, Grown, ListOf, Domains, Extended, Valid, HeadOk, CanPrepend, WithList, Inherited, IsChain, Matches;
      ghost var z, h := Now(), Head(u, kind);
      AddReady(w, z, h, c, x);
      PrependReady(z, h, c, x);
      SoundDomains(w);
      ListAdd(x, ListOf(uris[u], kind), kind);
      uris := uris[u := WithList(uris[u], kind, Some(x))];
      nodes := nodes[x := nodes[x].(uri := Some(c), data := None)];
      roles, live := roles[c := Config(x)], live + {x};
      heads, chains := heads[h := Some(x)], chains[h := [x] + chains[h]];
      assert Now() == Prepended(z, h, c, x);
      PrependKeeps(z, h, c, x);
      PrependExtends(w, z, h, c, x);
      ExtendedValid(w, Now(), h, c, x);
    }

    /** A new signature URI, with the certificates of the URI but without its keys; the former one is freed. */
    method SetSig(u: UriId, g: UriId, valid: bool) returns (ok: bool)
      requires Valid(Now()) && u in uris && u in roles && roles[u] == User && !uris[u].fixed && g !in uris
      modifies this
      ensures Valid(Now()) && ok == valid
      ensures u in uris && uris[u] == old(uris[u]).(sig := if ok then Some(g) else None)
      ensures u in roles && roles[u] == User
      ensures forall k :: HeadSame(old(Now()), Now(), Head(u, k))
      ensures ok ==> SignedBy(old(Now()), Now(), u, g)
      ensures Others(old(Now()), Now(), old(Going(Now(), u)))
      ensures old(uris[u]).sig.Some? ==> old(uris[u]).sig.value !in uris
    {
      hide Sound, Valid, Frame, Matches, Domains, Others, Grown, LetGo, UriSame, HeadSame, Stage, CanWed, Going;
      ghost var w := Now();
      ValidIsSound(w);
      LetGoKeeps(w, u);
      roles := LetGo(w, u).roles;
      LetGoIs(w, Now(), u);
      if uris[u].sig.Some? {
        UriFree(uris[u].sig.value);
      }
      ghost var t := Now();
      SignatureGone(w, t, u);
      FirstStep(w, t, u);
      StageFacts(w, t, u);
      ok := NewUri(g, Some(u), valid);
      ghost var z := Now();
      SecondStep(w, t, z, u, g, ok);
      StageFacts(w, z, u);
      var value := uris[u].(sig := if ok then Some(g) else None);
      PutKeeps(z, u, value);
      uris := uris[u := value];
      ghost var y := Now();
      assert y == Put(z, u, value);
      ThirdStep(w, z, u, value);
      if !ok {
        UnsignedStep(w, y, u);
        SettleSound(y, u);
        roles := roles[u := User];
        assert Now() == Settled(y, u);
      } else {
        DropAll(g, Pubkey);
        ghost var q := Now();
        FourthStep(w, y, q, u, g);
        StageFacts(w, q, u);
        SameChain(y, q, Head(g, Pem));
        WedKeeps(q, u, g);
        roles := roles[g := Signature(u)][u := User];
        assert Now() == Wed(q, u, g);
        SignedStep(w, q, u, g);
      }
    }

    /** Registered for download or finished: from now on the configuration may not change. */
    method Fix(u: UriId)
      requires Valid(Now()) && u in uris && u in roles && roles[u] == User
      modifies this
      ensures Valid(Now())
      ensures Now() == old(Now()).(uris := old(uris)[u := old(uris)[u].(fixed := true)])
    {
      hide Sound, Valid;
      ghost var w := Now();
      ValidIsSound(w);
      TakeKeeps(w, u);
      var value := uris[u].(fixed := true);
      PutKeeps(Taken(w, u), u, value);
      FixSettles(w, u);
      SettleSound(Put(Taken(w, u), u, value), u);
      uris := uris[u := value];
      FixedWorld(w, Now(), u);
    }

    /** The signature URI is not needed any more once the signature was checked. */
    method DropSignature(u: UriId)
      requires Valid(Now()) && u in uris && u in roles && roles[u] == User && uris[u].sig.Some?
      modifies this
      ensures Valid(Now()) && u in roles && roles[u] == User
      ensures u in uris && uris[u] == old(uris[u]).(sig := None) && old(uris[u]).sig.value !in uris
      ensures forall k :: HeadSame(old(Now()), Now(), Head(u, k))
      ensures Others(old(Now()), Now(), old(Going(Now(), u)))
    {
      hide Sound, Valid, Frame, Matches, Domains, Others, LetGo, UriSame, HeadSame, Stage, Going;
      ghost var w := Now();
      ValidIsSound(w);
      LetGoKeeps(w, u);
      roles := LetGo(w, u).roles;
      LetGoIs(w, Now(), u);
      UriFree(uris[u].sig.value);
      ghost var t := Now();
      SignatureGone(w, t, u);
      FirstStep(w, t, u);
      StageFacts(w, t, u);
      NobodySigns(t, u);
      var value := uris[u].(sig := None);
      PutKeeps(t, u, value);
      uris := uris[u := value];
      ghost var y := Now();
      assert y == Put(t, u, value);
      ThirdStep(w, t, u, value);
      UnsignedStep(w, y, u);
      SettleSound(y, u);
      roles := roles[u := User];
      assert Now() == Settled(y, u);
    }

    /** A node that still holds a URI reads it, keeps what was read, if anything, and frees the URI. */
    method ReadNode(x: NodeId, fetched: map<NodeId, nat>)
      requires Valid(Now()) && x in nodes
      modifies this
      ensures Valid(Now()) && Opened(old(Now()), Now(), [x], fetched)
    {
      hide Valid, Opened, Sound, Frame;
      ghost var w := Now();
      if nodes[x].uri.Some? {
        var c := nodes[x].uri.value;
        OpenKeeps(w, x, fetched);
        nodes := nodes[x := nodes[x].(uri := None, data := if x in fetched then Some(fetched[x]) else nodes[x].data)];
        roles := roles[c := User];
        assert Now() == Open(w, x, fetched);
        UriFree(c);
        OpenDone(w, Now(), x, fetched);
      } else {
        OpenNothing(w, x, fetched);
      }
    }

    /**
     * Reads what the nodes of a list still have to read, and gives what they hold then, in order, with None after the
     * last one. The array is made at the end of the list, and filled on the way back.
     */
    method Collect(list: Option<NodeId>, level: nat, fetched: map<NodeId, nat>, ghost h: Head, ghost s: seq<NodeId>)
      returns (a: array<Option<nat>>)
      requires Valid(Now()) && InList(Now(), h, list, s)
      modifies this
      ensures Valid(Now()) && Opened(old(Now()), Now(), s, fetched)
      ensures fresh(a) && (forall x :: x in s ==> x in old(nodes))
      ensures a.Length == level + |Contents(old(nodes), s, fetched)| + 1
      ensures a[level..] == Contents(old(nodes), s, fetched) + [None]
      decreases |s|
    {
      hide Valid, Opened, InList, IsChain, Read, Contents;
      ghost var w := Now();
      InListNodes(w, h, list, s);
      match list {
        case None =>
          OpenedAtOnce(w, h, s, fetched);
          a := new Option<nat>[level + 1];
          a[level] := None;
        case Some(x) =>
          InListParts(w, h, list, s);
          ReadNode(x, fetched);
          ghost var v := Now();
          InListRest(w, v, h, s, fetched);
          ContentsStep(w, v, s, fetched);
          var data := nodes[x].data;
          a := Collect(nodes[x].next, if data.Some? then level + 1 else level, fetched, h, s[1..]);
          OpenedOn(w, v, Now(), s, fetched);
          if data.Some? {
            a[level] := data;
          }
      }
    }
  }
}
