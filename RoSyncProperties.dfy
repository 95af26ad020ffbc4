/**
 * Properties of the push pass modelled in RoSyncModel: the decision table
 * for each local resource, what each phase leaves behind, and what a whole
 * pass guarantees about both stores and the saved registry.
 */
module RoSyncProperties {
  import opened Sequences
  import opened Wrappers
  import opened RoSyncModel

  // ---------------------------------------------------------------------
  // Phases A and B, one resource at a time

  /** A local internal resource the remote lacks is announced, uploaded and recorded. */
  lemma NewInternalResource(p: Path, s: Pass, svc: Service)
    requires s.error.None?
    requires p !in s.remote.resources && KindOf(s.local, p) == Internal
    requires p in s.local.checksums
    ensures var s' := StepResource(p, s, svc);
      && s'.error.None?
      && s'.actions == s.actions + [Action(AggregateInternal, RelPath(p))]
      && s'.remote.resources == s.remote.resources + [p]
      && HeadOf(s'.remote, p) == Head(200, svc.etags(s.remote.uploads))
      && Lookup(s'.local.registry, p, ETag) == svc.etags(s.remote.uploads)
      && Lookup(s'.local.registry, p, Checksum) == Some(s.local.checksums[p])
      && (forall q, at :: q != p ==> Lookup(s'.local.registry, q, at) == Lookup(s.local.registry, q, at))
  {
  }

  /**
   * A local internal resource the remote lacks whose file cannot be read:
   * the action has already been yielded when the read fails, and nothing
   * is uploaded or recorded.
   */
  lemma NewInternalResourceUnreadable(p: Path, s: Pass, svc: Service)
    requires p !in s.remote.resources && KindOf(s.local, p) == Internal
    requires p !in s.local.checksums
    ensures StepResource(p, s, svc)
         == s.(actions := s.actions + [Action(AggregateInternal, RelPath(p))], error := Some(Unreadable(p)))
  {
  }

  /** A local external resource the remote lacks is aggregated by reference; the registry is untouched. */
  lemma NewExternalResource(p: Path, s: Pass, svc: Service)
    requires p !in s.remote.resources && KindOf(s.local, p) == External
    ensures var s' := StepResource(p, s, svc);
      && s'.error == s.error
      && s'.actions == s.actions + [Action(AggregateExternal, RelPath(p))]
      && s'.remote == s.remote.(resources := s.remote.resources + [p])
      && s'.local == s.local
  {
  }

  /**
   * The decision table for an internal, non-annotation resource the remote
   * already aggregates (first matching row wins), and its effect on the
   * registry: after an overwrite or update the registry holds the etag the
   * upload returned and the current checksum; a skip changes nothing.
   */
  lemma ExistingInternalResource(p: Path, s: Pass, svc: Service)
    requires s.error.None?
    requires p in s.remote.resources && KindOf(s.local, p) == Internal
    requires !IsLocalAnnotationNode(s.local, p)
    requires HeadOf(s.remote, p).status == 200 && p in s.local.checksums
    ensures var s' := StepResource(p, s, svc);
      var prevETag := Lookup(s.local.registry, p, ETag);
      var prevSum := Lookup(s.local.registry, p, Checksum);
      var curETag := HeadOf(s.remote, p).etag;
      var curSum := s.local.checksums[p];
      var k := if !Truthy(prevETag) || prevETag != curETag then UpdateOverwrite
               else if !Truthy(prevSum) || prevSum != Some(curSum) then Update
               else Skip;
      && s'.error.None?
      && s'.actions == s.actions + [Action(k, RelPath(p))]
      && s'.remote.resources == s.remote.resources
      && (k == Skip ==> s'.local == s.local && s'.remote == s.remote)
      && (k != Skip ==>
            && Lookup(s'.local.registry, p, ETag) == svc.etags(s.remote.uploads)
            && Lookup(s'.local.registry, p, Checksum) == Some(curSum)
            && HeadOf(s'.remote, p) == Head(200, svc.etags(s.remote.uploads))
            && s'.remote.uploads == s.remote.uploads + 1
            && (forall q, at :: q != p ==> Lookup(s'.local.registry, q, at) == Lookup(s.local.registry, q, at))
            && (forall q :: q != p ==> HeadOf(s'.remote, q) == HeadOf(s.remote, q)))
  {
  }

  /** A HEAD status other than 200 raises: nothing is yielded, uploaded or recorded. */
  lemma ExistingInternalHeadFailure(p: Path, s: Pass, svc: Service)
    requires p in s.remote.resources && KindOf(s.local, p) == Internal
    requires !IsLocalAnnotationNode(s.local, p)
    requires HeadOf(s.remote, p).status != 200
    ensures StepResource(p, s, svc) == s.(error := Some(HeadFailed(p, HeadOf(s.remote, p).status)))
  {
  }

  /** An internal resource that is an annotation node and already aggregated is left to phase D. */
  lemma ExistingAnnotationResource(p: Path, s: Pass, svc: Service)
    requires p in s.remote.resources && KindOf(s.local, p) == Internal
    requires IsLocalAnnotationNode(s.local, p)
    ensures StepResource(p, s, svc) == s
  {
  }

  /** An external resource already aggregated is always skipped, naming its local URI. */
  lemma ExistingExternalResource(p: Path, s: Pass, svc: Service)
    requires p in s.remote.resources && KindOf(s.local, p) == External
    ensures StepResource(p, s, svc) == s.(actions := s.actions + [Action(Skip, LocalUri(p))])
  {
  }

  /**
   * After an upload (a new resource, or an existing one the decision does
   * not skip) that returned a non-empty etag, the resource is in step with
   * the registry: the next pass skips it (see RerunSkips).
   */
  lemma UploadThenSteady(p: Path, s: Pass, svc: Service)
    requires KindOf(s.local, p) == Internal && !IsLocalAnnotationNode(s.local, p)
    requires p in s.local.checksums && s.local.checksums[p] != ""
    requires p !in s.remote.resources || HeadOf(s.remote, p).status == 200
    requires Truthy(svc.etags(s.remote.uploads))
    requires p !in s.remote.resources
      || Decide(Lookup(s.local.registry, p, ETag), HeadOf(s.remote, p).etag,
                Lookup(s.local.registry, p, Checksum), s.local.checksums[p]) != Skip
    ensures Steady(StepResource(p, s, svc).local, StepResource(p, s, svc).remote, p)
  {
  }

  // ---------------------------------------------------------------------
  // Re-running phases A and B

  /**
   * A resource that a pass leaves untouched: an unclassified resource; an
   * internal or external resource the remote aggregates, where an internal
   * non-annotation one also has a remote etag and local checksum equal to
   * the (non-empty) registry values.
   */
  predicate Steady(l: Local, r: Remote, p: Path)
  {
    && (KindOf(l, p) != Neither ==> p in r.resources)
    && (KindOf(l, p) == Internal && !IsLocalAnnotationNode(l, p) ==> InStep(l, r, p))
  }

  /** The registry entries of p are non-empty and equal the remote etag (HEAD 200) and the local checksum. */
  predicate InStep(l: Local, r: Remote, p: Path)
  {
    && HeadOf(r, p).status == 200
    && p in l.checksums
    && Truthy(Lookup(l.registry, p, ETag))
    && Lookup(l.registry, p, ETag) == HeadOf(r, p).etag
    && Truthy(Lookup(l.registry, p, Checksum))
    && Lookup(l.registry, p, Checksum) == Some(l.checksums[p])
  }

  /** What phase B yields for a steady resource. */
  function SteadyActions(l: Local, ps: seq<Path>): seq<Action>
  {
    if ps == [] then []
    else
      var p := ps[0];
      var here := match KindOf(l, p)
        case Internal => if IsLocalAnnotationNode(l, p) then [] else [Action(Skip, RelPath(p))]
        case External => [Action(Skip, LocalUri(p))]
        case Neither => [];
      here + SteadyActions(l, ps[1..])
  }

  /**
   * Phases A and B over resources that are all steady yield only skips,
   * one per internal non-annotation or external resource, and change
   * neither store nor the registry.
   */
  lemma {:induction false} RerunSkips(ps: seq<Path>, s: Pass, svc: Service)
    requires s.error.None?
    requires AllSteady(s.local, s.remote, ps)
    ensures PushResources(ps, s, svc) == s.(actions := s.actions + SteadyActions(s.local, ps))
  {
    if ps != [] {
      var s' := SteadyStepSkips(ps, s, svc);
      RerunSkips(ps[1..], s', svc);
    }
  }

  predicate AllSteady(l: Local, r: Remote, ps: seq<Path>)
  {
    forall p :: p in ps ==> Steady(l, r, p)
  }

  /** One step of phases A and B on a steady resource only yields its skip, if any. */
  lemma SteadyStepSkips(ps: seq<Path>, s: Pass, svc: Service) returns (s': Pass)
    requires ps != [] && s.error.None? && AllSteady(s.local, s.remote, ps)
    ensures s' == StepResource(ps[0], s, svc)
    ensures s' == s.(actions := s.actions + SteadyActions(s.local, ps[..1]))
    ensures AllSteady(s'.local, s'.remote, ps[1..])
    ensures s.actions + SteadyActions(s.local, ps) == s'.actions + SteadyActions(s.local, ps[1..])
  {
    assert ps[0] in ps;
    assert ps[..1] == [ps[0]];
    SteadyStep(ps[0], s, svc);
    s' := s.(actions := s.actions + SteadyActions(s.local, [ps[0]]));
    AllSteadyTail(s.local, s.remote, ps);
    SteadyActionsSplit(s.local, ps);
  }

  lemma AllSteadyTail(l: Local, r: Remote, ps: seq<Path>)
    requires ps != [] && AllSteady(l, r, ps)
    ensures AllSteady(l, r, ps[1..])
  {
    forall p | p in ps[1..] ensures Steady(l, r, p) {
      assert p in ps;
    }
  }

  lemma SteadyActionsSplit(l: Local, ps: seq<Path>)
    requires ps != []
    ensures SteadyActions(l, ps) == SteadyActions(l, [ps[0]]) + SteadyActions(l, ps[1..])
  {
    assert [ps[0]][1..] == [];
  }

  lemma SteadyStep(p: Path, s: Pass, svc: Service)
    requires s.error.None? && Steady(s.local, s.remote, p)
    ensures StepResource(p, s, svc) == s.(actions := s.actions + SteadyActions(s.local, [p]))
  {
    assert SteadyActions(s.local, [p][1..]) == [];
  }

  // ---------------------------------------------------------------------
  // What phases A and B leave unchanged

  /** The kinds of action phases A and B yield. */
  predicate ResourceActionKind(k: ActionKind)
  {
    k == AggregateInternal || k == AggregateExternal || k == UpdateOverwrite || k == Update || k == Skip
  }

  /** What one step of phases A and B leaves unchanged, from s to s'. */
  predicate ResourceStepFrame(p: Path, s: Pass, s': Pass)
  {
    && s'.local == s'.local.(resources := s.local.resources, kinds := s.local.kinds,
                             checksums := s.local.checksums, annotations := s.local.annotations,
                             saved := s.local.saved)
    && s'.remote.annotations == s.remote.annotations
    && s'.remote.minted == s.remote.minted
    && (s'.remote.resources == s.remote.resources || s'.remote.resources == s.remote.resources + [p])
    && s.actions <= s'.actions && |s'.actions| <= |s.actions| + 1
    && (|s'.actions| > |s.actions| ==> ResourceActionKind(s'.actions[|s.actions|].kind))
  }

  lemma StepResourceFrame(p: Path, s: Pass, svc: Service)
    ensures ResourceStepFrame(p, s, StepResource(p, s, svc))
  {
    if p !in s.remote.resources {
      NewResourceFrame(p, s, svc);
    } else {
      ExistingResourceFrame(p, s, svc);
    }
  }

  lemma NewResourceFrame(p: Path, s: Pass, svc: Service)
    requires p !in s.remote.resources
    ensures ResourceStepFrame(p, s, StepResource(p, s, svc))
  {
  }

  lemma ExistingResourceFrame(p: Path, s: Pass, svc: Service)
    requires p in s.remote.resources
    ensures ResourceStepFrame(p, s, StepResource(p, s, svc))
  {
  }

  lemma PushResourcesFrame(ps: seq<Path>, s: Pass, svc: Service)
    ensures var s' := PushResources(ps, s, svc);
      && s'.local == s'.local.(resources := s.local.resources, kinds := s.local.kinds,
                               checksums := s.local.checksums, annotations := s.local.annotations,
                               saved := s.local.saved)
      && s'.remote.annotations == s.remote.annotations
      && s'.remote.minted == s.remote.minted
      && (forall q :: q in s.remote.resources ==> q in s'.remote.resources)
      && (forall q :: q !in ps ==> multiset(s'.remote.resources)[q] == multiset(s.remote.resources)[q])
      && s.actions <= s'.actions
      && (forall i :: |s.actions| <= i < |s'.actions| ==> ResourceActionKind(s'.actions[i].kind))
      && (s.error.Some? ==> s' == s)
  {
    PushResourcesStateFrame(ps, s, svc);
    var tail := PushResourcesActionsFrame(ps, s, svc);
    assert forall i :: |s.actions| <= i < |s.actions| + |tail| ==> (s.actions + tail)[i] == tail[i - |s.actions|];
  }

  lemma {:induction false} PushResourcesStateFrame(ps: seq<Path>, s: Pass, svc: Service)
    ensures var s' := PushResources(ps, s, svc);
      && s'.local == s'.local.(resources := s.local.resources, kinds := s.local.kinds,
                               checksums := s.local.checksums, annotations := s.local.annotations,
                               saved := s.local.saved)
      && s'.remote.annotations == s.remote.annotations
      && s'.remote.minted == s.remote.minted
      && (forall q :: q in s.remote.resources ==> q in s'.remote.resources)
      && (forall q :: q !in ps ==> multiset(s'.remote.resources)[q] == multiset(s.remote.resources)[q])
      && (s.error.Some? ==> s' == s)
  {
    if ps != [] && s.error.None? {
      var s1 := StepResource(ps[0], s, svc);
      StepResourceFrame(ps[0], s, svc);
      PushResourcesStateFrame(ps[1..], s1, svc);
      var s' := PushResources(ps[1..], s1, svc);
      forall q | q !in ps
        ensures multiset(s'.remote.resources)[q] == multiset(s.remote.resources)[q]
      {
        assert q != ps[0] && q !in ps[1..];
      }
    }
  }

  lemma {:induction false} PushResourcesActionsFrame(ps: seq<Path>, s: Pass, svc: Service) returns (tail: seq<Action>)
    ensures PushResources(ps, s, svc).actions == s.actions + tail
    ensures forall i :: 0 <= i < |tail| ==> ResourceActionKind(tail[i].kind)
  {
    if ps != [] && s.error.None? {
      var s1 := StepResource(ps[0], s, svc);
      StepResourceFrame(ps[0], s, svc);
      var h := s1.actions[|s.actions|..];
      assert s1.actions == s.actions + h;
      var t := PushResourcesActionsFrame(ps[1..], s1, svc);
      AppendAssoc(s.actions, h, t);
      tail := h + t;
      assert forall i :: |h| <= i < |tail| ==> tail[i] == t[i - |h|];
    } else {
      tail := [];
    }
  }

  /**
   * After phases A and B without an exception, every internal or external
   * resource of the list is aggregated remotely.
   */
  lemma {:induction false} PushResourcesAggregates(ps: seq<Path>, s: Pass, svc: Service)
    ensures var s' := PushResources(ps, s, svc);
      s'.error.None? ==>
        forall p :: p in ps && KindOf(s.local, p) != Neither ==> p in s'.remote.resources
  {
    if ps != [] && s.error.None? {
      var s1 := StepResource(ps[0], s, svc);
      StepResourceAggregates(ps[0], s, svc);
      PushResourcesAggregates(ps[1..], s1, svc);
      PushResourcesFrame(ps[1..], s1, svc);
    }
  }

  /** One step without an exception leaves an internal or external resource aggregated remotely. */
  lemma StepResourceAggregates(p: Path, s: Pass, svc: Service)
    ensures var s1 := StepResource(p, s, svc);
      && s1.local.kinds == s.local.kinds
      && (s1.error.None? && KindOf(s.local, p) != Neither ==> p in s1.remote.resources)
  {
    StepResourceFrame(p, s, svc);
    if p !in s.remote.resources {
      NewResourceAggregates(p, s, svc);
    }
  }

  lemma NewResourceAggregates(p: Path, s: Pass, svc: Service)
    requires p !in s.remote.resources
    ensures var s1 := StepResource(p, s, svc);
      s1.error.None? && KindOf(s.local, p) != Neither ==> p in s1.remote.resources
  {
  }

  // ---------------------------------------------------------------------
  // Phase C

  /** The sequence filter used by deaggregation. */
  lemma {:induction false} RemoveAllMember(xs: seq<Path>, gone: set<Path>, x: Path)
    ensures x in RemoveAll(xs, gone) <==> x in xs && x !in gone
  {
    if xs != [] {
      RemoveAllMember(xs[1..], gone, x);
      assert x in xs <==> x == xs[0] || x in xs[1..];
    }
  }

  lemma {:induction false} RemoveAllTwice(xs: seq<Path>, a: set<Path>, b: set<Path>)
    ensures RemoveAll(RemoveAll(xs, a), b) == RemoveAll(xs, a + b)
  {
    if xs != [] {
      RemoveAllTwice(xs[1..], a, b);
    }
  }

  /** The paths of ps that the local RO does not aggregate. */
  function RemoteOnly(l: Local, ps: seq<Path>): set<Path>
  {
    if ps == [] then {}
    else (if ps[0] !in l.resources then {ps[0]} else {}) + RemoteOnly(l, ps[1..])
  }

  /** The actions phase C yields over ps. */
  function DeleteActions(l: Local, ps: seq<Path>): seq<Action>
  {
    if ps == [] then []
    else (if ps[0] !in l.resources then [Action(Delete, RemoteUri(ps[0]))] else []) + DeleteActions(l, ps[1..])
  }

  /**
   * Phase C yields one Delete per listed remote resource the local RO does
   * not aggregate, and the remote then lacks exactly those paths.
   */
  lemma {:induction false} DeaggregateRemoteOnlyEffect(ps: seq<Path>, s: Pass)
    ensures var s' := DeaggregateRemoteOnly(ps, s);
      && s'.local == s.local
      && s'.error == s.error
      && s'.actions == s.actions + DeleteActions(s.local, ps)
      && s'.remote == s.remote.(resources := RemoveAll(s.remote.resources, RemoteOnly(s.local, ps)))
  {
    if ps == [] {
      RemoveAllTwice(s.remote.resources, {}, {});
      RemoveAllIdentity(s.remote.resources);
    } else {
      var s1 := StepRemoteResource(ps[0], s);
      DeaggregateRemoteOnlyEffect(ps[1..], s1);
      var here: set<Path> := if ps[0] !in s.local.resources then {ps[0]} else {};
      RemoveAllIdentity(s.remote.resources);
      RemoveAllTwice(s.remote.resources, here, RemoteOnly(s.local, ps[1..]));
    }
  }

  lemma {:induction false} RemoveAllIdentity(xs: seq<Path>)
    ensures RemoveAll(xs, {}) == xs
  {
    if xs != [] {
      RemoveAllIdentity(xs[1..]);
    }
  }

  lemma {:induction false} RemoteOnlyMember(l: Local, ps: seq<Path>, x: Path)
    ensures x in RemoteOnly(l, ps) <==> x in ps && x !in l.resources
  {
    if ps != [] {
      RemoteOnlyMember(l, ps[1..], x);
      assert x in ps <==> x == ps[0] || x in ps[1..];
    }
  }

  /**
   * Each remote-only resource gets as many Delete actions as it has
   * entries in the list; a locally aggregated one gets none.
   */
  lemma {:induction false} DeleteActionsCount(l: Local, ps: seq<Path>, p: Path)
    ensures multiset(DeleteActions(l, ps))[Action(Delete, RemoteUri(p))]
         == if p in l.resources then 0 else multiset(ps)[p]
  {
    if ps != [] {
      var x := Action(Delete, RemoteUri(p));
      var here := if ps[0] !in l.resources then [Action(Delete, RemoteUri(ps[0]))] else [];
      var rest := DeleteActions(l, ps[1..]);
      DeleteActionsCount(l, ps[1..], p);
      assert multiset(here + rest)[x] == multiset(here)[x] + multiset(rest)[x];
      assert ps == [ps[0]] + ps[1..];
      assert multiset(ps)[p] == multiset([ps[0]])[p] + multiset(ps[1..])[p];
    }
  }

  // ---------------------------------------------------------------------
  // Phase D, deletion of remote-only annotations

  lemma {:induction false} DropNodesMember(xs: seq<RemoteAnnotation>, gone: set<Path>, x: RemoteAnnotation)
    ensures x in DropNodes(xs, gone) <==> x in xs && x.node !in gone
  {
    if xs != [] {
      DropNodesMember(xs[1..], gone, x);
      assert x in xs <==> x == xs[0] || x in xs[1..];
    }
  }

  lemma {:induction false} DropNodesTwice(xs: seq<RemoteAnnotation>, a: set<Path>, b: set<Path>)
    ensures DropNodes(DropNodes(xs, a), b) == DropNodes(xs, a + b)
  {
    if xs != [] {
      DropNodesTwice(xs[1..], a, b);
    }
  }

  lemma {:induction false} DropNodesIdentity(xs: seq<RemoteAnnotation>)
    ensures DropNodes(xs, {}) == xs
  {
    if xs != [] {
      DropNodesIdentity(xs[1..]);
    }
  }

  /** The nodes of anns that are not local annotation nodes. */
  function RemoteOnlyNodes(l: Local, anns: seq<RemoteAnnotation>): set<Path>
  {
    if anns == [] then {}
    else (if !IsLocalAnnotationNode(l, anns[0].node) then {anns[0].node} else {}) + RemoteOnlyNodes(l, anns[1..])
  }

  lemma {:induction false} RemoteOnlyNodesMember(l: Local, anns: seq<RemoteAnnotation>, n: Path)
    ensures n in RemoteOnlyNodes(l, anns) <==> (exists a :: a in anns && a.node == n) && !IsLocalAnnotationNode(l, n)
  {
    if anns != [] {
      RemoteOnlyNodesMember(l, anns[1..], n);
      assert forall a :: a in anns <==> a == anns[0] || a in anns[1..];
    }
  }

  /** The actions the final loop of phase D yields over anns. */
  function DeleteAnnotationActions(l: Local, anns: seq<RemoteAnnotation>): seq<Action>
  {
    if anns == [] then []
    else (if !IsLocalAnnotationNode(l, anns[0].node) then [Action(DeleteAnnotation, RemoteUri(anns[0].node))] else [])
         + DeleteAnnotationActions(l, anns[1..])
  }

  /**
   * The final loop of phase D deletes exactly the listed remote annotation
   * nodes that are not local annotation nodes, one DeleteAnnotation each.
   */
  lemma {:induction false} DeleteRemoteOnlyAnnotationsEffect(anns: seq<RemoteAnnotation>, s: Pass)
    ensures var s' := DeleteRemoteOnlyAnnotations(anns, s);
      && s'.local == s.local
      && s'.error == s.error
      && s'.actions == s.actions + DeleteAnnotationActions(s.local, anns)
      && s'.remote == s.remote.(annotations := DropNodes(s.remote.annotations, RemoteOnlyNodes(s.local, anns)))
  {
    DropNodesIdentity(s.remote.annotations);
    if anns != [] {
      var s1 := StepRemoteAnnotation(anns[0], s);
      DeleteRemoteOnlyAnnotationsEffect(anns[1..], s1);
      var here: set<Path> := if !IsLocalAnnotationNode(s.local, anns[0].node) then {anns[0].node} else {};
      DropNodesTwice(s.remote.annotations, here, RemoteOnlyNodes(s.local, anns[1..]));
    }
  }

  // ---------------------------------------------------------------------
  // Phase D, creation and update of local annotations

  /** No two local annotation entries share a node. */
  predicate DistinctNodes(anns: seq<LocalAnnotation>)
  {
    forall i, j :: 0 <= i < j < |anns| ==> anns[i].node != anns[j].node
  }

  /** The first n local entries have a URI node that the remote knows as an annotation node. */
  predicate SettledUpTo(l: Local, r: Remote, n: nat)
    requires n <= |l.annotations|
  {
    forall x :: 0 <= x < n ==>
      l.annotations[x].node.Named? && IsRemoteAnnotationNode(r, l.annotations[x].node.path)
  }

  /** The nodes the remote minted from index m0 on are local and remote annotation nodes. */
  predicate MintedKept(l: Local, r: Remote, svc: Service, m0: nat)
  {
    && m0 <= r.minted
    && forall k :: m0 <= k < r.minted ==>
         IsLocalAnnotationNode(l, svc.nodes(k)) && IsRemoteAnnotationNode(r, svc.nodes(k))
  }

  lemma UpdateAnnotationKeepsNodes(r: Remote, n: Path, body: Path, target: Path, x: Path)
    ensures IsRemoteAnnotationNode(AfterUpdateAnnotation(r, n, body, target), x) <==> IsRemoteAnnotationNode(r, x)
  {
    var r' := AfterUpdateAnnotation(r, n, body, target);
    if IsRemoteAnnotationNode(r, x) {
      var a :| a in r.annotations && a.node == x;
      var i :| 0 <= i < |r.annotations| && r.annotations[i] == a;
      assert r'.annotations[i].node == x;
    }
    if IsRemoteAnnotationNode(r', x) {
      var a :| a in r'.annotations && a.node == x;
      var i :| 0 <= i < |r'.annotations| && r'.annotations[i] == a;
      assert r.annotations[i].node == x;
    }
  }

  lemma AddAnnotationKeepsNodes(r: Remote, body: Path, target: Path, svc: Service, x: Path)
    ensures IsRemoteAnnotationNode(AfterAddAnnotation(r, body, target, svc), x)
        <==> IsRemoteAnnotationNode(r, x) || x == svc.nodes(r.minted)
  {
    var r' := AfterAddAnnotation(r, body, target, svc);
    assert forall a :: a in r'.annotations <==> a in r.annotations || a == RemoteAnnotation(svc.nodes(r.minted), body, target);
  }

  /** A local entry whose node differs from the replaced one survives replaceUri. */
  lemma ReplaceUriKeeps(l: Local, from: Node, to: Node, a: LocalAnnotation)
    requires a in l.annotations && a.node != from
    ensures a in AfterReplaceUri(l, from, to).annotations
  {
    var i :| 0 <= i < |l.annotations| && l.annotations[i] == a;
    assert AfterReplaceUri(l, from, to).annotations[i] == a;
  }

  /** Facts shared by both branches of one iteration of the loop at lines 110-123. */
  predicate SettleInvariant(todo: seq<LocalAnnotation>, s: Pass, svc: Service, m0: nat)
  {
    && |todo| <= |s.local.annotations|
    && s.local.annotations[|s.local.annotations| - |todo|..] == todo
    && DistinctNodes(todo)
    && SettledUpTo(s.local, s.remote, |s.local.annotations| - |todo|)
    && MintedKept(s.local, s.remote, svc, m0)
  }

  /** One iteration of the loop at lines 110-123 keeps the settlement invariant. */
  lemma StepLocalAnnotationSettles(todo: seq<LocalAnnotation>, s: Pass, svc: Service, m0: nat)
    requires todo != [] && SettleInvariant(todo, s, svc, m0)
    ensures var s' := StepLocalAnnotation(todo[0], s, svc);
      && |s'.local.annotations| == |s.local.annotations|
      && SettleInvariant(todo[1..], s', svc, m0)
  {
    var a := todo[0];
    if a.node.Blank? || !IsRemoteAnnotationNode(s.remote, a.node.path) {
      CreateAnnotationSettles(todo, s, svc, m0);
    } else {
      UpdateAnnotationSettles(todo, s, svc, m0);
    }
  }

  /** The update branch (lines 120-122) of one iteration keeps the settlement invariant. */
  lemma UpdateAnnotationSettles(todo: seq<LocalAnnotation>, s: Pass, svc: Service, m0: nat)
    requires todo != [] && SettleInvariant(todo, s, svc, m0)
    requires todo[0].node.Named? && IsRemoteAnnotationNode(s.remote, todo[0].node.path)
    ensures var s' := StepLocalAnnotation(todo[0], s, svc);
      && |s'.local.annotations| == |s.local.annotations|
      && SettleInvariant(todo[1..], s', svc, m0)
  {
    var a := todo[0];
    var s' := StepLocalAnnotation(a, s, svc);
    var L := s.local.annotations;
    var j := |L| - |todo|;
    assert L[j] == a;
    forall y
      ensures IsRemoteAnnotationNode(s'.remote, y) <==> IsRemoteAnnotationNode(s.remote, y)
    {
      UpdateAnnotationKeepsNodes(s.remote, a.node.path, a.body, a.target, y);
    }
    UpdateKeepsSuffix(L, j, a, todo);
    assert L[j := a] == L;
    DistinctTail(todo);
    assert SettledUpTo(s'.local, s'.remote, j + 1);
  }

  /** replaceUri on a node that only entry j has rewrites entry j alone. */
  lemma ReplaceUriOnly(l: Local, j: nat, to: Node)
    requires j < |l.annotations|
    requires forall x :: 0 <= x < |l.annotations| && x != j ==> l.annotations[x].node != l.annotations[j].node
    ensures AfterReplaceUri(l, l.annotations[j].node, to).annotations
         == l.annotations[j := l.annotations[j].(node := to)]
  {
  }

  /** In the creation branch, the node being replaced is held by the current entry alone. */
  lemma CreatedNodeUnique(todo: seq<LocalAnnotation>, s: Pass, svc: Service, m0: nat)
    requires todo != [] && SettleInvariant(todo, s, svc, m0)
    requires todo[0].node.Blank? || !IsRemoteAnnotationNode(s.remote, todo[0].node.path)
    ensures var L := s.local.annotations; var j := |L| - |todo|;
      && L[j] == todo[0]
      && forall x :: 0 <= x < |L| && x != j ==> L[x].node != L[j].node
  {
    var L := s.local.annotations;
    var j := |L| - |todo|;
    assert L[j] == todo[0];
    forall x | 0 <= x < |L| && x != j
      ensures L[x].node != L[j].node
    {
      if x > j {
        assert L[x] == todo[x - j];
      } else {
        assert L[x].node.Named? && IsRemoteAnnotationNode(s.remote, L[x].node.path);
      }
    }
  }

  /** The creation branch (lines 114-119) of one iteration keeps the settlement invariant. */
  lemma CreateAnnotationSettles(todo: seq<LocalAnnotation>, s: Pass, svc: Service, m0: nat)
    requires todo != [] && SettleInvariant(todo, s, svc, m0)
    requires todo[0].node.Blank? || !IsRemoteAnnotationNode(s.remote, todo[0].node.path)
    ensures var s' := StepLocalAnnotation(todo[0], s, svc);
      && |s'.local.annotations| == |s.local.annotations|
      && SettleInvariant(todo[1..], s', svc, m0)
  {
    CreatedNodeUnique(todo, s, svc, m0);
    CreateShape(todo, s, svc, m0);
    CreateSettlesFrom(todo, s, StepLocalAnnotation(todo[0], s, svc), svc, m0);
  }

  /** The settlement invariant moves past entry j once entry j alone has taken the fresh node. */
  lemma CreateSettlesFrom(todo: seq<LocalAnnotation>, s: Pass, s': Pass, svc: Service, m0: nat)
    requires todo != [] && SettleInvariant(todo, s, svc, m0)
    requires todo[0].node.Blank? || !IsRemoteAnnotationNode(s.remote, todo[0].node.path)
    requires s.local.annotations[|s.local.annotations| - |todo|] == todo[0]
    requires var L := s.local.annotations;
      s'.local.annotations == L[|L| - |todo| := todo[0].(node := Named(svc.nodes(s.remote.minted)))]
    requires s'.remote.minted == s.remote.minted + 1
    requires forall y :: IsRemoteAnnotationNode(s'.remote, y) <==> IsRemoteAnnotationNode(s.remote, y) || y == svc.nodes(s.remote.minted)
    ensures |s'.local.annotations| == |s.local.annotations|
    ensures SettleInvariant(todo[1..], s', svc, m0)
  {
    var L := s.local.annotations;
    var j := |L| - |todo|;
    var n := svc.nodes(s.remote.minted);
    assert |s'.local.annotations| - |todo[1..]| == j + 1;
    UpdateKeepsSuffix(L, j, todo[0].(node := Named(n)), todo);
    DistinctTail(todo);
    CreateSettledUpTo(s, s', j, n);
    CreateMintedKept(s, s', svc, m0, j);
  }

  /** What the creation branch does to both stores. */
  lemma CreateShape(todo: seq<LocalAnnotation>, s: Pass, svc: Service, m0: nat)
    requires todo != [] && SettleInvariant(todo, s, svc, m0)
    requires todo[0].node.Blank? || !IsRemoteAnnotationNode(s.remote, todo[0].node.path)
    ensures var s' := StepLocalAnnotation(todo[0], s, svc);
      var L := s.local.annotations;
      var n := svc.nodes(s.remote.minted);
      && s'.local.annotations == L[|L| - |todo| := todo[0].(node := Named(n))]
      && s'.remote.minted == s.remote.minted + 1
      && (forall y :: IsRemoteAnnotationNode(s'.remote, y) <==> IsRemoteAnnotationNode(s.remote, y) || y == n)
  {
    var a := todo[0];
    CreatedNodeUnique(todo, s, svc, m0);
    ReplaceUriOnly(s.local, |s.local.annotations| - |todo|, Named(svc.nodes(s.remote.minted)));
    forall y
      ensures IsRemoteAnnotationNode(StepLocalAnnotation(a, s, svc).remote, y)
          <==> IsRemoteAnnotationNode(s.remote, y) || y == svc.nodes(s.remote.minted)
    {
      AddAnnotationKeepsNodes(s.remote, a.body, a.target, svc, y);
    }
  }

  lemma UpdateKeepsSuffix<T>(xs: seq<T>, j: nat, e: T, todo: seq<T>)
    requires j < |xs| && xs[j..] == todo
    ensures xs[j := e][j + 1..] == todo[1..]
  {
    assert xs[j + 1..] == todo[1..];
  }

  lemma DistinctTail(todo: seq<LocalAnnotation>)
    requires todo != [] && DistinctNodes(todo)
    ensures DistinctNodes(todo[1..])
  {
    forall i, k | 0 <= i < k < |todo| - 1
      ensures todo[1..][i].node != todo[1..][k].node
    {
      assert todo[1..][i] == todo[i + 1] && todo[1..][k] == todo[k + 1];
    }
  }

  /** Entry j settles on the new node; the entries before it stay settled. */
  lemma CreateSettledUpTo(s: Pass, s': Pass, j: nat, n: Path)
    requires j < |s.local.annotations| && SettledUpTo(s.local, s.remote, j)
    requires |s'.local.annotations| == |s.local.annotations|
    requires s'.local.annotations == s.local.annotations[j := s'.local.annotations[j]]
    requires s'.local.annotations[j].node == Named(n)
    requires forall y :: IsRemoteAnnotationNode(s'.remote, y) <==> IsRemoteAnnotationNode(s.remote, y) || y == n
    ensures SettledUpTo(s'.local, s'.remote, j + 1)
  {
    forall x | 0 <= x < j + 1
      ensures s'.local.annotations[x].node.Named?
           && IsRemoteAnnotationNode(s'.remote, s'.local.annotations[x].node.path)
    {
      if x < j {
        assert s'.local.annotations[x] == s.local.annotations[x];
      }
    }
  }

  /** Every node minted since m0, the new one included, is a local and a remote annotation node. */
  lemma CreateMintedKept(s: Pass, s': Pass, svc: Service, m0: nat, j: nat)
    requires j < |s.local.annotations| && MintedKept(s.local, s.remote, svc, m0)
    requires !(s.local.annotations[j].node.Named? && IsRemoteAnnotationNode(s.remote, s.local.annotations[j].node.path))
    requires |s'.local.annotations| == |s.local.annotations|
    requires s'.local.annotations == s.local.annotations[j := s'.local.annotations[j]]
    requires s'.local.annotations[j].node == Named(svc.nodes(s.remote.minted))
    requires s'.remote.minted == s.remote.minted + 1
    requires forall y :: IsRemoteAnnotationNode(s'.remote, y) <==> IsRemoteAnnotationNode(s.remote, y) || y == svc.nodes(s.remote.minted)
    ensures MintedKept(s'.local, s'.remote, svc, m0)
  {
    var L := s.local.annotations;
    var L' := s'.local.annotations;
    forall k | m0 <= k < s'.remote.minted
      ensures IsLocalAnnotationNode(s'.local, svc.nodes(k)) && IsRemoteAnnotationNode(s'.remote, svc.nodes(k))
    {
      if k < s.remote.minted {
        var b :| b in L && b.node == Named(svc.nodes(k));
        var i :| 0 <= i < |L| && L[i] == b;
        assert i != j;
        assert L'[i] == b;
      } else {
        assert L'[j] in L';
      }
    }
  }

  /**
   * The loop at lines 110-123 over local entries with distinct nodes leaves
   * every local entry with a URI node the remote knows, and keeps every node
   * it had the remote mint as a local annotation node.
   */
  lemma {:induction false} PushAnnotationsSettles(todo: seq<LocalAnnotation>, s: Pass, svc: Service, m0: nat)
    requires SettleInvariant(todo, s, svc, m0)
    ensures var s' := PushAnnotations(todo, s, svc);
      && |s'.local.annotations| == |s.local.annotations|
      && SettledUpTo(s'.local, s'.remote, |s'.local.annotations|)
      && MintedKept(s'.local, s'.remote, svc, m0)
    decreases |todo|
  {
    if todo != [] {
      StepLocalAnnotationSettles(todo, s, svc, m0);
      PushAnnotationsSettles(todo[1..], StepLocalAnnotation(todo[0], s, svc), svc, m0);
    }
  }

  /** The kinds of action the loop at lines 110-123 yields. */
  predicate AnnotationActionKind(k: ActionKind)
  {
    k == AggregateAnnotation || k == UpdateAnnotation
  }

  /** The loop at lines 110-123 touches only the annotations of both stores and the remote's creation count. */
  lemma {:induction false} PushAnnotationsFrame(anns: seq<LocalAnnotation>, s: Pass, svc: Service)
    ensures var s' := PushAnnotations(anns, s, svc);
      && s'.local == s.local.(annotations := s'.local.annotations)
      && s'.remote == s.remote.(annotations := s'.remote.annotations, minted := s'.remote.minted)
      && s'.remote.resources == s.remote.resources
      && s'.error == s.error
      && s.actions <= s'.actions
      && (forall i :: |s.actions| <= i < |s'.actions| ==> AnnotationActionKind(s'.actions[i].kind))
    decreases |anns|
  {
    if anns != [] {
      var s1 := StepLocalAnnotation(anns[0], s, svc);
      PushAnnotationsFrame(anns[1..], s1, svc);
      var s' := PushAnnotations(anns, s, svc);
      forall i | |s.actions| <= i < |s'.actions|
        ensures AnnotationActionKind(s'.actions[i].kind)
      {
        if i < |s1.actions| {
          assert s'.actions[i] == s1.actions[i];
        }
      }
    }
  }

  /**
   * On a pass whose local annotations all have URI nodes the remote knows
   * (as the first pass leaves them, see AnnotationsSettleAfterPush), the
   * loop at lines 110-123 only updates: one UpdateAnnotation per entry, no
   * creation, and the local annotations are unchanged.
   */
  lemma {:induction false} SettledAnnotationsOnlyUpdate(todo: seq<LocalAnnotation>, s: Pass, svc: Service)
    requires AllSettled(todo, s.remote)
    ensures var s' := PushAnnotations(todo, s, svc);
      && s'.local == s.local
      && s'.remote.minted == s.remote.minted
      && s'.actions == s.actions + UpdateActions(todo)
    decreases |todo|
  {
    if todo != [] {
      var s1 := StepLocalAnnotation(todo[0], s, svc);
      SettledAnnotationUpdates(todo, s, svc);
      SettledAnnotationsOnlyUpdate(todo[1..], s1, svc);
      AppendAssoc(s.actions, [Action(UpdateAnnotation, LocalUri(todo[0].node.path))], UpdateActions(todo[1..]));
    }
  }

  /** Every entry of todo has a URI node that the remote r knows. */
  predicate AllSettled(todo: seq<LocalAnnotation>, r: Remote)
  {
    forall a :: a in todo ==> a.node.Named? && IsRemoteAnnotationNode(r, a.node.path)
  }

  /** One iteration on an entry whose URI node the remote knows: an update, nothing else. */
  lemma SettledAnnotationUpdates(todo: seq<LocalAnnotation>, s: Pass, svc: Service)
    requires todo != [] && AllSettled(todo, s.remote)
    ensures var s1 := StepLocalAnnotation(todo[0], s, svc);
      && s1.local == s.local
      && s1.remote.minted == s.remote.minted
      && s1.actions == s.actions + [Action(UpdateAnnotation, LocalUri(todo[0].node.path))]
      && AllSettled(todo[1..], s1.remote)
  {
    var a := todo[0];
    assert a in todo;
    var s1 := StepLocalAnnotation(a, s, svc);
    forall y
      ensures IsRemoteAnnotationNode(s1.remote, y) <==> IsRemoteAnnotationNode(s.remote, y)
    {
      UpdateAnnotationKeepsNodes(s.remote, a.node.path, a.body, a.target, y);
    }
    forall b | b in todo[1..]
      ensures b.node.Named? && IsRemoteAnnotationNode(s1.remote, b.node.path)
    {
      assert b in todo;
    }
  }

  function UpdateActions(todo: seq<LocalAnnotation>): seq<Action>
    requires forall a :: a in todo ==> a.node.Named?
  {
    if todo == [] then [] else [Action(UpdateAnnotation, LocalUri(todo[0].node.path))] + UpdateActions(todo[1..])
  }

  /**
   * The create branch of one iteration (lines 114-119): a blank node, or a
   * node the remote does not hold, is announced as AGGREGATE_ANNOTATION of
   * the freshly minted node; the remote gains exactly that node with the
   * entry's body and target, keeping what it had; and every local entry on
   * the old node now names the new one.
   */
  lemma CreateAnnotationStep(a: LocalAnnotation, s: Pass, svc: Service)
    requires a.node.Blank? || !IsRemoteAnnotationNode(s.remote, a.node.path)
    ensures var n := svc.nodes(s.remote.minted);
      var s' := StepLocalAnnotation(a, s, svc);
      && s'.error == s.error
      && s'.actions == s.actions + [Action(AggregateAnnotation, RelPath(n))]
      && RemoteAnnotation(n, a.body, a.target) in s'.remote.annotations
      && s.remote.annotations <= s'.remote.annotations
      && |s'.remote.annotations| == |s.remote.annotations| + 1
      && s'.remote == s.remote.(annotations := s'.remote.annotations, minted := s.remote.minted + 1)
      && |s'.local.annotations| == |s.local.annotations|
      && (forall i :: 0 <= i < |s.local.annotations| ==>
            && (s.local.annotations[i].node == a.node ==> s'.local.annotations[i].node == Named(n))
            && (s.local.annotations[i].node != a.node ==> s'.local.annotations[i] == s.local.annotations[i])
            && s'.local.annotations[i].body == s.local.annotations[i].body
            && s'.local.annotations[i].target == s.local.annotations[i].target)
      && s'.local == s.local.(annotations := s'.local.annotations)
  {
    var n := svc.nodes(s.remote.minted);
    var s' := StepLocalAnnotation(a, s, svc);
    var xs := s.remote.annotations;
    assert s'.remote.annotations == xs + [RemoteAnnotation(n, a.body, a.target)];
    assert s'.remote.annotations[|xs|] == RemoteAnnotation(n, a.body, a.target);
  }

  /**
   * The update branch of one iteration (line 122): a URI node the remote
   * holds is announced as UPDATE_ANNOTATION; every remote entry at that
   * node now carries the entry's body and target, every entry at another
   * node is kept, and the local RO is unchanged.
   */
  lemma UpdateAnnotationStep(a: LocalAnnotation, s: Pass, svc: Service)
    requires a.node.Named? && IsRemoteAnnotationNode(s.remote, a.node.path)
    ensures var s' := StepLocalAnnotation(a, s, svc);
      && s'.error == s.error
      && s'.actions == s.actions + [Action(UpdateAnnotation, LocalUri(a.node.path))]
      && s'.local == s.local
      && s'.remote == s.remote.(annotations := s'.remote.annotations)
      && RemoteAnnotation(a.node.path, a.body, a.target) in s'.remote.annotations
      && (forall x: RemoteAnnotation :: x in s'.remote.annotations && x.node == a.node.path ==>
            x == RemoteAnnotation(a.node.path, a.body, a.target))
      && (forall x: RemoteAnnotation :: x.node != a.node.path ==>
            (x in s'.remote.annotations <==> x in s.remote.annotations))
  {
    var s' := StepLocalAnnotation(a, s, svc);
    var n := a.node.path;
    var xs := s.remote.annotations;
    var ys := s'.remote.annotations;
    assert |ys| == |xs|;
    var w :| w in xs && w.node == n;
    var k :| 0 <= k < |xs| && xs[k] == w;
    assert ys[k] == RemoteAnnotation(n, a.body, a.target);
    forall x | x in ys && x.node == n
      ensures x == RemoteAnnotation(n, a.body, a.target)
    {
      var i :| 0 <= i < |ys| && ys[i] == x;
    }
    forall x: RemoteAnnotation | x.node != n
      ensures x in ys <==> x in xs
    {
      if x in ys {
        var i :| 0 <= i < |ys| && ys[i] == x;
        assert xs[i] == x;
      }
      if x in xs {
        var i :| 0 <= i < |xs| && xs[i] == x;
        assert ys[i] == x;
      }
    }
  }

  // ---------------------------------------------------------------------
  // The whole pass

  /** The registry is saved exactly when the pass completes; an exception leaves the saved registry as it was. */
  lemma PushSavesRegistryOnlyOnSuccess(l: Local, r: Remote, svc: Service)
    ensures var s := Push(l, r, svc);
      && (s.error.Some? ==> s.local.saved == l.saved)
      && (s.error.None? ==> s.local.saved == s.local.registry)
  {
    var s0 := Pass(l, r, [], None);
    var s1 := PushResources(l.resources, s0, svc);
    PushResourcesFrame(l.resources, s0, svc);
    if s1.error.None? {
      var s2 := DeaggregateRemoteOnly(s1.remote.resources, s1);
      DeaggregateRemoteOnlyEffect(s1.remote.resources, s1);
      var s3 := PushAnnotations(s2.local.annotations, s2, svc);
      PushAnnotationsFrame(s2.local.annotations, s2, svc);
      DeleteRemoteOnlyAnnotationsEffect(s3.remote.annotations, s3);
    }
  }

  /** The pass, when it completes, leaves remotely aggregated exactly what it should. */
  lemma PushReconcilesResources(l: Local, r: Remote, svc: Service)
    ensures var s := Push(l, r, svc);
      s.error.None? ==>
        && (forall p :: p in s.remote.resources ==> p in l.resources)
        && (forall p :: p in l.resources && KindOf(l, p) != Neither ==> p in s.remote.resources)
        && (forall p :: p in l.resources && p in r.resources ==> p in s.remote.resources)
  {
    var s0 := Pass(l, r, [], None);
    var s1 := PushResources(l.resources, s0, svc);
    PushResourcesFrame(l.resources, s0, svc);
    PushResourcesAggregates(l.resources, s0, svc);
    if s1.error.None? {
      var s2 := DeaggregateRemoteOnly(s1.remote.resources, s1);
      DeaggregateRemoteOnlyEffect(s1.remote.resources, s1);
      var s3 := PushAnnotations(s2.local.annotations, s2, svc);
      PushAnnotationsFrame(s2.local.annotations, s2, svc);
      var s4 := DeleteRemoteOnlyAnnotations(s3.remote.annotations, s3);
      DeleteRemoteOnlyAnnotationsEffect(s3.remote.annotations, s3);
      var gone := RemoteOnly(s1.local, s1.remote.resources);
      forall p
        ensures p in s2.remote.resources <==> p in s1.remote.resources && p in l.resources
      {
        RemoveAllMember(s1.remote.resources, gone, p);
        RemoteOnlyMember(s1.local, s1.remote.resources, p);
      }
    }
  }

  /**
   * Over a whole pass, a remote resource that the local RO does not
   * aggregate gets one Delete per entry it has in the remote list (exactly
   * one when the list has no repeats); one that it aggregates gets none.
   */
  lemma PushDeletesRemoteOnly(l: Local, r: Remote, svc: Service, p: Path)
    ensures var s := Push(l, r, svc);
      s.error.None? ==>
        multiset(s.actions)[Action(Delete, RemoteUri(p))] == if p in l.resources then 0 else multiset(r.resources)[p]
  {
    var s0 := Pass(l, r, [], None);
    var s1 := PushResources(l.resources, s0, svc);
    PushResourcesFrame(l.resources, s0, svc);
    if s1.error.None? {
      var x := Action(Delete, RemoteUri(p));
      var s2 := DeaggregateRemoteOnly(s1.remote.resources, s1);
      DeaggregateRemoteOnlyEffect(s1.remote.resources, s1);
      var c := DeleteActions(s1.local, s1.remote.resources);
      DeleteActionsCount(s1.local, s1.remote.resources, p);
      var tail := AnnotationPhasesAddNoDelete(s2, svc, x);
      assert x !in s1.actions by {
        assert s1.actions[|s0.actions|..] == s1.actions;
      }
      var all := Push(l, r, svc).actions;
      assert all == s1.actions + c + tail;
      assert multiset(all)[x] == multiset(s1.actions)[x] + multiset(c)[x] + multiset(tail)[x];
      assert multiset(c)[x] == if p in l.resources then 0 else multiset(r.resources)[p];
    }
  }

  /**
   * When every upload answers a non-empty etag and no file has an empty
   * checksum, a completed pass leaves each local resource steady, unless
   * the pass changed whether it is a local annotation node. A next pass
   * then skips it (RerunSkips, PushThenRerunSkips).
   */
  lemma PushLeavesSteady(l: Local, r: Remote, svc: Service, p: Path)
    requires forall k :: Truthy(svc.etags(k))
    requires forall q :: q in l.checksums ==> l.checksums[q] != ""
    ensures var s := Push(l, r, svc);
      s.error.None? && p in l.resources
        && (IsLocalAnnotationNode(s.local, p) <==> IsLocalAnnotationNode(l, p)) ==>
        Steady(s.local, s.remote, p)
  {
    var s0 := Pass(l, r, [], None);
    var s1 := PushResources(l.resources, s0, svc);
    PushResourcesFrame(l.resources, s0, svc);
    PushResourcesAggregates(l.resources, s0, svc);
    PushResourcesInStep(l.resources, s0, svc, p);
    if s1.error.None? {
      var s2 := DeaggregateRemoteOnly(s1.remote.resources, s1);
      DeaggregateRemoteOnlyEffect(s1.remote.resources, s1);
      var s3 := PushAnnotations(s2.local.annotations, s2, svc);
      PushAnnotationsFrame(s2.local.annotations, s2, svc);
      var s4 := DeleteRemoteOnlyAnnotations(s3.remote.annotations, s3);
      DeleteRemoteOnlyAnnotationsEffect(s3.remote.annotations, s3);
      if p in l.resources && KindOf(l, p) != Neither {
        RemoveAllMember(s1.remote.resources, RemoteOnly(s1.local, s1.remote.resources), p);
        RemoteOnlyMember(s1.local, s1.remote.resources, p);
        assert p in s4.remote.resources;
        assert HeadOf(s4.remote, p) == HeadOf(s1.remote, p);
      }
    }
  }

  /**
   * Under the same conditions, and when the pass changes no local
   * resource's annotation-node status, the first loop of a next pass (with
   * any service) only skips: one skip per internal non-annotation or
   * external resource, and neither store changes.
   */
  lemma PushThenRerunSkips(l: Local, r: Remote, svc: Service, svc2: Service)
    requires forall k :: Truthy(svc.etags(k))
    requires forall q :: q in l.checksums ==> l.checksums[q] != ""
    requires forall q :: q in l.resources ==>
      (IsLocalAnnotationNode(Push(l, r, svc).local, q) <==> IsLocalAnnotationNode(l, q))
    ensures var s := Push(l, r, svc);
      s.error.None? ==>
        PushResources(s.local.resources, Pass(s.local, s.remote, [], None), svc2)
          == Pass(s.local, s.remote, SteadyActions(s.local, s.local.resources), None)
  {
    var s := Push(l, r, svc);
    if s.error.None? {
      PushKeepsListing(l, r, svc);
      forall q | q in s.local.resources
        ensures Steady(s.local, s.remote, q)
      {
        PushLeavesSteady(l, r, svc, q);
      }
      var t := Pass(s.local, s.remote, [], None);
      RerunSkips(s.local.resources, t, svc2);
      assert [] + SteadyActions(s.local, s.local.resources) == SteadyActions(s.local, s.local.resources);
    }
  }

  /** A pass does not change the local listing of resources. */
  lemma PushKeepsListing(l: Local, r: Remote, svc: Service)
    ensures Push(l, r, svc).local.resources == l.resources
  {
    var s0 := Pass(l, r, [], None);
    var s1 := PushResources(l.resources, s0, svc);
    PushResourcesFrame(l.resources, s0, svc);
    if s1.error.None? {
      var s2 := DeaggregateRemoteOnly(s1.remote.resources, s1);
      DeaggregateRemoteOnlyEffect(s1.remote.resources, s1);
      var s3 := PushAnnotations(s2.local.annotations, s2, svc);
      PushAnnotationsFrame(s2.local.annotations, s2, svc);
      DeleteRemoteOnlyAnnotationsEffect(s3.remote.annotations, s3);
    }
  }

  /**
   * The first loop, when it completes, leaves each internal non-annotation
   * resource it visits in step, and keeps in step every resource that was.
   */
  lemma {:induction false} PushResourcesInStep(ps: seq<Path>, s: Pass, svc: Service, p: Path)
    requires forall k :: Truthy(svc.etags(k))
    requires forall q :: q in s.local.checksums ==> s.local.checksums[q] != ""
    ensures var s' := PushResources(ps, s, svc);
      s'.error.None? &&
        ((p in ps && KindOf(s.local, p) == Internal && !IsLocalAnnotationNode(s.local, p))
           || InStep(s.local, s.remote, p)) ==>
        InStep(s'.local, s'.remote, p)
    decreases |ps|
  {
    if ps != [] && s.error.None? {
      var s1 := StepResource(ps[0], s, svc);
      StepResourceInStep(ps[0], s, svc, p);
      StepResourceFrame(ps[0], s, svc);
      PushResourcesInStep(ps[1..], s1, svc, p);
      if PushResources(ps, s, svc).error.None? {
        assert s1.error.None?;
        assert p in ps ==> p == ps[0] || p in ps[1..];
      }
    }
  }

  /** One iteration of the first loop that does not abort puts its resource in step and keeps the others as they were. */
  lemma StepResourceInStep(q: Path, s: Pass, svc: Service, p: Path)
    requires forall k :: Truthy(svc.etags(k))
    requires forall x :: x in s.local.checksums ==> s.local.checksums[x] != ""
    ensures var s' := StepResource(q, s, svc);
      s'.error.None? ==>
        && (p == q && KindOf(s.local, p) == Internal && !IsLocalAnnotationNode(s.local, p) ==> InStep(s'.local, s'.remote, p))
        && (InStep(s.local, s.remote, p) ==> InStep(s'.local, s'.remote, p))
  {
    assert Truthy(svc.etags(s.remote.uploads));
  }

  /** The one action an iteration of the loop at lines 110-123 yields. */
  function StepAnnotationAction(a: LocalAnnotation, s: Pass, svc: Service): Action
  {
    if a.node.Blank? || !IsRemoteAnnotationNode(s.remote, a.node.path) then
      Action(AggregateAnnotation, RelPath(svc.nodes(s.remote.minted)))
    else Action(UpdateAnnotation, LocalUri(a.node.path))
  }

  /** The loop at lines 110-123 appends actions none of which is a Delete. */
  lemma {:induction false} PushAnnotationsNoDelete(anns: seq<LocalAnnotation>, s: Pass, svc: Service)
    returns (tail: seq<Action>)
    ensures PushAnnotations(anns, s, svc).actions == s.actions + tail
    ensures forall i :: 0 <= i < |tail| ==> tail[i].kind != Delete
    decreases |anns|
  {
    if anns == [] {
      tail := [];
    } else {
      var s1 := StepLocalAnnotation(anns[0], s, svc);
      var h := [StepAnnotationAction(anns[0], s, svc)];
      assert s1.actions == s.actions + h;
      var t := PushAnnotationsNoDelete(anns[1..], s1, svc);
      AppendAssoc(s.actions, h, t);
      tail := h + t;
      assert forall i :: 0 < i < |tail| ==> tail[i] == t[i - 1];
    }
  }

  /** Phase D yields no Delete action. */
  lemma AnnotationPhasesAddNoDelete(s2: Pass, svc: Service, x: Action) returns (tail: seq<Action>)
    requires x.kind == Delete
    ensures var s3 := PushAnnotations(s2.local.annotations, s2, svc);
      var s4 := DeleteRemoteOnlyAnnotations(s3.remote.annotations, s3);
      && s4.actions == s2.actions + tail
      && x !in tail
  {
    var t1 := PushAnnotationsNoDelete(s2.local.annotations, s2, svc);
    var s3 := PushAnnotations(s2.local.annotations, s2, svc);
    var d := DeleteAnnotationActions(s3.local, s3.remote.annotations);
    DeleteRemoteOnlyAnnotationsEffect(s3.remote.annotations, s3);
    DeleteAnnotationActionsKind(s3.local, s3.remote.annotations);
    AppendAssoc(s2.actions, t1, d);
    tail := t1 + d;
    forall i | 0 <= i < |tail|
      ensures tail[i] != x
    {
      if i < |t1| {
        assert tail[i] == t1[i];
      } else {
        assert tail[i] == d[i - |t1|];
        assert d[i - |t1|] in d;
      }
    }
  }

  lemma {:induction false} DeleteAnnotationActionsKind(l: Local, anns: seq<RemoteAnnotation>)
    ensures forall a :: a in DeleteAnnotationActions(l, anns) ==> a.kind == DeleteAnnotation
  {
    if anns != [] {
      DeleteAnnotationActionsKind(l, anns[1..]);
    }
  }

  /**
   * Why AnnotationsSettleAfterPush needs distinct nodes: two local entries
   * sharing a blank node (one annotation with two body/target triples).
   * Each snapshot entry still carries the blank node, so both take the
   * creation branch. The first rename moves both entries to the first new
   * node, and the second rename finds nothing to rename. The second new
   * node then has no local entry, and the final loop deletes it in the
   * same pass, taking the second body/target pair with it.
   */
  lemma SharedBlankNodeLosesSecondTriple(l: Local, r: Remote, svc: Service, b: string,
                                         body1: Path, target1: Path, body2: Path, target2: Path)
    requires l.resources == [] && r.resources == [] && r.annotations == []
    requires l.annotations == [LocalAnnotation(Blank(b), body1, target1), LocalAnnotation(Blank(b), body2, target2)]
    requires svc.nodes(r.minted) != svc.nodes(r.minted + 1)
    ensures var s := Push(l, r, svc);
      var n0 := svc.nodes(r.minted);
      var n1 := svc.nodes(r.minted + 1);
      && s.error.None?
      && s.actions == [Action(AggregateAnnotation, RelPath(n0)), Action(AggregateAnnotation, RelPath(n1)),
                       Action(DeleteAnnotation, RemoteUri(n1))]
      && s.local.annotations == [LocalAnnotation(Named(n0), body1, target1), LocalAnnotation(Named(n0), body2, target2)]
      && s.remote.annotations == [RemoteAnnotation(n0, body1, target1)]
  {
    var s0 := Pass(l, r, [], None);
    assert PushResources(l.resources, s0, svc) == s0;
    assert DeaggregateRemoteOnly(r.resources, s0) == s0;
    var s2 := SharedBlankNodeCreatesTwice(s0, svc, b, body1, target1, body2, target2);
    SharedBlankNodeSecondDeleted(s2, svc.nodes(r.minted), svc.nodes(r.minted + 1), body1, target1, body2, target2);
  }

  /** The annotation loop on two entries sharing a blank node creates twice and renames once. */
  lemma SharedBlankNodeCreatesTwice(s0: Pass, svc: Service, b: string,
                                    body1: Path, target1: Path, body2: Path, target2: Path) returns (s2: Pass)
    requires s0.actions == [] && s0.remote.annotations == []
    requires s0.local.annotations == [LocalAnnotation(Blank(b), body1, target1), LocalAnnotation(Blank(b), body2, target2)]
    ensures var n0 := svc.nodes(s0.remote.minted);
      var n1 := svc.nodes(s0.remote.minted + 1);
      && s2 == PushAnnotations(s0.local.annotations, s0, svc)
      && s2.error == s0.error
      && s2.actions == [Action(AggregateAnnotation, RelPath(n0)), Action(AggregateAnnotation, RelPath(n1))]
      && s2.local.annotations == [LocalAnnotation(Named(n0), body1, target1), LocalAnnotation(Named(n0), body2, target2)]
      && s2.remote.annotations == [RemoteAnnotation(n0, body1, target1), RemoteAnnotation(n1, body2, target2)]
  {
    var n0 := svc.nodes(s0.remote.minted);
    var a1 := s0.local.annotations[0];
    var a2 := s0.local.annotations[1];
    var s1 := StepLocalAnnotation(a1, s0, svc);
    assert s1.local.annotations == [LocalAnnotation(Named(n0), body1, target1), LocalAnnotation(Named(n0), body2, target2)];
    s2 := StepLocalAnnotation(a2, s1, svc);
    assert s2.local.annotations == s1.local.annotations;
    assert s0.local.annotations[1..] == [a2];
    assert PushAnnotations([a2], s1, svc) == PushAnnotations([], s2, svc);
  }

  /** The deletion loop then removes the second new node, which no local entry holds. */
  lemma SharedBlankNodeSecondDeleted(s2: Pass, n0: Path, n1: Path,
                                     body1: Path, target1: Path, body2: Path, target2: Path)
    requires n0 != n1
    requires s2.local.annotations == [LocalAnnotation(Named(n0), body1, target1), LocalAnnotation(Named(n0), body2, target2)]
    requires s2.remote.annotations == [RemoteAnnotation(n0, body1, target1), RemoteAnnotation(n1, body2, target2)]
    ensures var s4 := DeleteRemoteOnlyAnnotations(s2.remote.annotations, s2);
      && s4 == s2.(actions := s2.actions + [Action(DeleteAnnotation, RemoteUri(n1))],
                   remote := s2.remote.(annotations := [RemoteAnnotation(n0, body1, target1)]))
  {
    var R2 := s2.remote.annotations;
    assert IsLocalAnnotationNode(s2.local, n0) by {
      assert s2.local.annotations[0].node == Named(n0);
    }
    var s3 := StepRemoteAnnotation(R2[0], s2);
    assert s3 == s2;
    var s4 := StepRemoteAnnotation(R2[1], s3);
    assert DropNodes(R2, {n1}) == [R2[0]] + DropNodes(R2[1..], {n1});
    assert DropNodes(R2[1..], {n1}) == DropNodes(R2[2..], {n1});
    assert R2[1..] == [R2[1]];
    assert DeleteRemoteOnlyAnnotations(R2[1..], s3) == DeleteRemoteOnlyAnnotations([], s4);
  }

  /**
   * A completed pass over local annotations with distinct nodes leaves every
   * local annotation with a URI node that the remote still holds, and every
   * annotation node it had the remote create survives the deletion loop.
   */
  lemma AnnotationsSettleAfterPush(l: Local, r: Remote, svc: Service)
    requires DistinctNodes(l.annotations)
    ensures var s := Push(l, r, svc);
      s.error.None? ==>
        && (forall a :: a in s.local.annotations ==> a.node.Named? && IsRemoteAnnotationNode(s.remote, a.node.path))
        && (forall k :: r.minted <= k < s.remote.minted ==> IsRemoteAnnotationNode(s.remote, svc.nodes(k)))
  {
    var s0 := Pass(l, r, [], None);
    var s1 := PushResources(l.resources, s0, svc);
    PushResourcesFrame(l.resources, s0, svc);
    if s1.error.None? {
      var s2 := DeaggregateRemoteOnly(s1.remote.resources, s1);
      DeaggregateRemoteOnlyEffect(s1.remote.resources, s1);
      assert s2.local.annotations == l.annotations;
      var s3 := PushAnnotations(s2.local.annotations, s2, svc);
      PushAnnotationsSettles(s2.local.annotations, s2, svc, r.minted);
      var s4 := DeleteRemoteOnlyAnnotations(s3.remote.annotations, s3);
      DeleteRemoteOnlyAnnotationsEffect(s3.remote.annotations, s3);
      var gone := RemoteOnlyNodes(s3.local, s3.remote.annotations);
      forall n | IsLocalAnnotationNode(s3.local, n) && IsRemoteAnnotationNode(s3.remote, n)
        ensures IsRemoteAnnotationNode(s4.remote, n)
      {
        var e :| e in s3.remote.annotations && e.node == n;
        RemoteOnlyNodesMember(s3.local, s3.remote.annotations, n);
        DropNodesMember(s3.remote.annotations, gone, e);
      }
      forall a | a in s4.local.annotations
        ensures a.node.Named? && IsRemoteAnnotationNode(s4.remote, a.node.path)
      {
        var i :| 0 <= i < |s3.local.annotations| && s3.local.annotations[i] == a;
        assert IsLocalAnnotationNode(s3.local, a.node.path);
      }
    }
  }
}
