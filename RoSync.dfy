/**
 * The push pass of rocommand/ro_rosrs_sync.py as the source writes it:
 * the local and the remote RO are objects whose methods change them in
 * place, and `pushResearchObject` is four loops over them. The pass is
 * proved to leave both stores, and to yield the actions, exactly as the
 * value-level RoSyncModel.Push does; the properties of Push proved in
 * RoSyncProperties therefore hold of this method.
 */
module RoSync {
  import opened Wrappers
  import opened RoSyncModel

  /** The local RO: its manifest, its files' checksums and its change registry. */
  class LocalRo {
    var resources: seq<Path>
    var kinds: map<Path, ResourceKind>
    var checksums: map<Path, string>
    var annotations: seq<LocalAnnotation>
    var registry: Registry
    var saved: Registry

    function State(): Local
      reads this
    {
      Local(resources, kinds, checksums, annotations, registry, saved)
    }

    constructor (init: Local)
      ensures State() == init
    {
      resources := init.resources;
      kinds := init.kinds;
      checksums := init.checksums;
      annotations := init.annotations;
      registry := init.registry;
      saved := init.saved;
    }

    /** `calculateChecksum`: None when the file cannot be read. */
    method CalculateChecksum(p: Path) returns (sum: Option<string>)
      ensures sum.Some? <==> p in checksums
      ensures sum.Some? ==> sum.value == checksums[p]
    {
      if p in checksums {
        sum := Some(checksums[p]);
      } else {
        sum := None;
      }
    }

    /** The two registry writes after an upload (lines 50-51 and 91-92). */
    method Record(p: Path, etag: Option<string>, sum: string)
      modifies this
      ensures State() == Recorded(old(State()), p, etag, sum)
    {
      registry := registry[(p, ETag) := etag][(p, Checksum) := Some(sum)];
    }

    /** `replaceUri`, as the pass uses it: renames an annotation node in the local annotation entries. */
    method ReplaceUri(from: Node, to: Node)
      modifies this
      ensures State() == AfterReplaceUri(old(State()), from, to)
    {
      var anns := annotations;
      var i := 0;
      var renamed: seq<LocalAnnotation> := [];
      while i < |anns|
        invariant 0 <= i <= |anns|
        invariant |renamed| == i
        invariant forall x :: 0 <= x < i ==>
          renamed[x] == if anns[x].node == from then anns[x].(node := to) else anns[x]
      {
        renamed := renamed + [if anns[i].node == from then anns[i].(node := to) else anns[i]];
        i := i + 1;
      }
      annotations := renamed;
    }

    /** `saveRegistries`: the in-memory registry becomes the saved one. */
    method SaveRegistries()
      modifies this
      ensures State() == old(State()).(saved := old(registry))
    {
      saved := registry;
    }
  }

  /** The remote RO as the ROSRS service holds it, and the service's answers. */
  class RemoteRo {
    var resources: seq<Path>
    var heads: map<Path, Head>
    var annotations: seq<RemoteAnnotation>
    var uploads: nat
    var minted: nat
    const service: Service

    function State(): Remote
      reads this
    {
      Remote(resources, heads, annotations, uploads, minted)
    }

    constructor (init: Remote, svc: Service)
      ensures State() == init && service == svc
    {
      resources := init.resources;
      heads := init.heads;
      annotations := init.annotations;
      uploads := init.uploads;
      minted := init.minted;
      service := svc;
    }

    /** `getHead`: the recorded status and etag of a resource; 404 with no etag for a path without a recorded HEAD (which may still be aggregated). */
    method GetHead(p: Path) returns (h: Head)
      ensures p in heads ==> h == heads[p]
      ensures p !in heads ==> h.status == 404 && h.etag.None?
    {
      if p in heads {
        h := heads[p];
      } else {
        h := Head(404, None);
      }
    }

    /** `aggregateResourceInt`: uploads and aggregates p; answers the new etag. */
    method AggregateResourceInt(p: Path) returns (etag: Option<string>)
      modifies this
      ensures State() == AfterAggregateInt(old(State()), p, service)
      ensures etag == service.etags(old(uploads))
    {
      etag := service.etags(uploads);
      resources := resources + [p];
      heads := heads[p := Head(200, etag)];
      uploads := uploads + 1;
    }

    /** `updateResourceInt`: replaces p's content; answers the new etag. */
    method UpdateResourceInt(p: Path) returns (etag: Option<string>)
      modifies this
      ensures State() == AfterUpdateInt(old(State()), p, service)
      ensures etag == service.etags(old(uploads))
    {
      etag := service.etags(uploads);
      heads := heads[p := Head(200, etag)];
      uploads := uploads + 1;
    }

    /** `aggregateResourceExt`. */
    method AggregateResourceExt(p: Path)
      modifies this
      ensures State() == AfterAggregateExt(old(State()), p)
    {
      resources := resources + [p];
    }

    /** `deaggregateResource`. */
    method DeaggregateResource(p: Path)
      modifies this
      ensures State() == AfterDeaggregate(old(State()), p)
    {
      resources := RemoveAll(resources, {p});
    }

    /** `addAnnotationNode`: the service creates a node and answers its path. */
    method AddAnnotationNode(body: Path, target: Path) returns (node: Path)
      modifies this
      ensures State() == AfterAddAnnotation(old(State()), body, target, service)
      ensures node == service.nodes(old(minted))
    {
      node := service.nodes(minted);
      annotations := annotations + [RemoteAnnotation(node, body, target)];
      minted := minted + 1;
    }

    /** `updateAnnotationNode`. */
    method UpdateAnnotationNode(n: Path, body: Path, target: Path)
      modifies this
      ensures State() == AfterUpdateAnnotation(old(State()), n, body, target)
    {
      var anns := annotations;
      annotations := seq(|anns|, i requires 0 <= i < |anns| =>
        if anns[i].node == n then RemoteAnnotation(n, body, target) else anns[i]);
    }

    /** `deleteAnnotationNode`. */
    method DeleteAnnotationNode(n: Path)
      modifies this
      ensures State() == AfterDeleteAnnotation(old(State()), n)
    {
      annotations := DropNodes(annotations, {n});
    }
  }

  /** One iteration of the loop at lines 36-100, on the objects. */
  method PushResource(localRo: LocalRo, remoteRo: RemoteRo, p: Path, actions: seq<Action>)
    returns (actions': seq<Action>, error: Option<SyncError>)
    modifies localRo, remoteRo
    ensures Pass(localRo.State(), remoteRo.State(), actions', error)
         == StepResource(p, Pass(old(localRo.State()), old(remoteRo.State()), actions, None), remoteRo.service)
  {
    actions' := actions;
    error := None;
    var kind := KindOf(localRo.State(), p);
    if p !in remoteRo.resources {
      if kind == Internal {
        actions' := actions' + [Action(AggregateInternal, RelPath(p))];
        var sum := localRo.CalculateChecksum(p);
        if sum.None? {
          error := Some(Unreadable(p));
          return;
        }
        var etag := remoteRo.AggregateResourceInt(p);
        localRo.Record(p, etag, sum.value);
      } else if kind == External {
        actions' := actions' + [Action(AggregateExternal, RelPath(p))];
        remoteRo.AggregateResourceExt(p);
      }
    } else if kind == Internal {
      if !IsLocalAnnotationNode(localRo.State(), p) {
        var h := remoteRo.GetHead(p);
        if h.status != 200 {
          error := Some(HeadFailed(p, h.status));
          return;
        }
        var sum := localRo.CalculateChecksum(p);
        if sum.None? {
          error := Some(Unreadable(p));
          return;
        }
        var previousETag := Lookup(localRo.registry, p, ETag);
        var previousChecksum := Lookup(localRo.registry, p, Checksum);
        var overwrite := false;
        if !Truthy(previousETag) || previousETag != h.etag {
          actions' := actions' + [Action(UpdateOverwrite, RelPath(p))];
          overwrite := true;
        } else if !Truthy(previousChecksum) || previousChecksum != sum {
          actions' := actions' + [Action(Update, RelPath(p))];
          overwrite := true;
        }
        if overwrite {
          var etag := remoteRo.UpdateResourceInt(p);
          localRo.Record(p, etag, sum.value);
        } else {
          actions' := actions' + [Action(Skip, RelPath(p))];
        }
      }
    } else if kind == External {
      actions' := actions' + [Action(Skip, LocalUri(p))];
    }
  }

  /** The loop at lines 36-100 over the local resources as listed when it starts. */
  method PushResources(localRo: LocalRo, remoteRo: RemoteRo, actions: seq<Action>)
    returns (actions': seq<Action>, error: Option<SyncError>)
    modifies localRo, remoteRo
    ensures Pass(localRo.State(), remoteRo.State(), actions', error)
         == RoSyncModel.PushResources(old(localRo.resources),
              Pass(old(localRo.State()), old(remoteRo.State()), actions, None), remoteRo.service)
  {
    var svc := remoteRo.service;
    ghost var s0 := Pass(localRo.State(), remoteRo.State(), actions, None);
    actions' := actions;
    error := None;
    var ps := localRo.resources;
    var i := 0;
    while i < |ps|
      invariant 0 <= i <= |ps|
      invariant error.None?
      invariant RoSyncModel.PushResources(ps, s0, svc)
             == RoSyncModel.PushResources(ps[i..], Pass(localRo.State(), remoteRo.State(), actions', None), svc)
    {
      assert ps[i..][1..] == ps[i + 1..];
      actions', error := PushResource(localRo, remoteRo, ps[i], actions');
      if error.Some? {
        ghost var s' := Pass(localRo.State(), remoteRo.State(), actions', error);
        assert RoSyncModel.PushResources(ps[i + 1..], s', svc) == s';
        return;
      }
      i := i + 1;
    }
  }

  /** The loop at lines 102-108 over the remote resources as listed when it starts. */
  method DeaggregateRemoteOnly(localRo: LocalRo, remoteRo: RemoteRo, actions: seq<Action>)
    returns (actions': seq<Action>)
    modifies remoteRo
    ensures Pass(localRo.State(), remoteRo.State(), actions', None)
         == RoSyncModel.DeaggregateRemoteOnly(old(remoteRo.resources),
              Pass(old(localRo.State()), old(remoteRo.State()), actions, None))
  {
    ghost var s0 := Pass(localRo.State(), remoteRo.State(), actions, None);
    actions' := actions;
    var qs := remoteRo.resources;
    var i := 0;
    while i < |qs|
      invariant 0 <= i <= |qs|
      invariant RoSyncModel.DeaggregateRemoteOnly(qs, s0)
             == RoSyncModel.DeaggregateRemoteOnly(qs[i..], Pass(localRo.State(), remoteRo.State(), actions', None))
    {
      assert qs[i..][1..] == qs[i + 1..];
      var p := qs[i];
      if p !in localRo.resources {
        actions' := actions' + [Action(Delete, RemoteUri(p))];
        remoteRo.DeaggregateResource(p);
      }
      i := i + 1;
    }
  }

  /** The loop at lines 110-123 over the local annotations as listed when it starts. */
  method PushAnnotations(localRo: LocalRo, remoteRo: RemoteRo, actions: seq<Action>)
    returns (actions': seq<Action>)
    modifies localRo, remoteRo
    ensures Pass(localRo.State(), remoteRo.State(), actions', None)
         == RoSyncModel.PushAnnotations(old(localRo.annotations),
              Pass(old(localRo.State()), old(remoteRo.State()), actions, None), remoteRo.service)
  {
    var svc := remoteRo.service;
    ghost var s0 := Pass(localRo.State(), remoteRo.State(), actions, None);
    actions' := actions;
    var anns := localRo.annotations;
    var i := 0;
    while i < |anns|
      invariant 0 <= i <= |anns|
      invariant RoSyncModel.PushAnnotations(anns, s0, svc)
             == RoSyncModel.PushAnnotations(anns[i..], Pass(localRo.State(), remoteRo.State(), actions', None), svc)
    {
      assert anns[i..][1..] == anns[i + 1..];
      var a := anns[i];
      if a.node.Blank? || !IsRemoteAnnotationNode(remoteRo.State(), a.node.path) {
        var n := remoteRo.AddAnnotationNode(a.body, a.target);
        localRo.ReplaceUri(a.node, Named(n));
        actions' := actions' + [Action(AggregateAnnotation, RelPath(n))];
      } else {
        remoteRo.UpdateAnnotationNode(a.node.path, a.body, a.target);
        actions' := actions' + [Action(UpdateAnnotation, LocalUri(a.node.path))];
      }
      i := i + 1;
    }
  }

  /** The loop at lines 125-131 over the remote annotations as listed when it starts. */
  method DeleteRemoteOnlyAnnotations(localRo: LocalRo, remoteRo: RemoteRo, actions: seq<Action>)
    returns (actions': seq<Action>)
    modifies remoteRo
    ensures Pass(localRo.State(), remoteRo.State(), actions', None)
         == RoSyncModel.DeleteRemoteOnlyAnnotations(old(remoteRo.annotations),
              Pass(old(localRo.State()), old(remoteRo.State()), actions, None))
  {
    ghost var s0 := Pass(localRo.State(), remoteRo.State(), actions, None);
    actions' := actions;
    var rans := remoteRo.annotations;
    var i := 0;
    while i < |rans|
      invariant 0 <= i <= |rans|
      invariant RoSyncModel.DeleteRemoteOnlyAnnotations(rans, s0)
             == RoSyncModel.DeleteRemoteOnlyAnnotations(rans[i..], Pass(localRo.State(), remoteRo.State(), actions', None))
    {
      assert rans[i..][1..] == rans[i + 1..];
      var e := rans[i];
      if !IsLocalAnnotationNode(localRo.State(), e.node) {
        actions' := actions' + [Action(DeleteAnnotation, RemoteUri(e.node))];
        remoteRo.DeleteAnnotationNode(e.node);
      }
      i := i + 1;
    }
  }

  /**
   * `pushResearchObject` (lines 31-134): the yielded actions in order, the
   * exception that ended the pass if any, and both stores as the pass
   * leaves them. `force` is accepted and, as in the source, never read.
   */
  method PushResearchObject(localRo: LocalRo, remoteRo: RemoteRo, force: bool)
    returns (actions: seq<Action>, error: Option<SyncError>)
    modifies localRo, remoteRo
    ensures Pass(localRo.State(), remoteRo.State(), actions, error)
         == Push(old(localRo.State()), old(remoteRo.State()), remoteRo.service)
  {
    actions, error := PushResources(localRo, remoteRo, []);
    if error.Some? {
      return;
    }
    actions := DeaggregateRemoteOnly(localRo, remoteRo, actions);
    actions := PushAnnotations(localRo, remoteRo, actions);
    actions := DeleteRemoteOnlyAnnotations(localRo, remoteRo, actions);
    localRo.SaveRegistries();
  }
}
