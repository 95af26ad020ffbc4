# RO Manager core, modelled in Dafny

This project models four parts of RO Manager, a command-line tool for research objects (ROs). An RO is a directory of files with a manifest that aggregates resources and annotations.

- **The push pass** (`pushResearchObject`). It reconciles a local RO with the copy held by an RO storage service (ROSRS; "the remote"). The pass has four loops:
  1. Over the local resources. Each one is aggregated remotely, or updated when its remote entity tag (etag) or local checksum has changed since the last push, or skipped.
  2. Over the remote resources. Those the local RO does not aggregate are de-aggregated.
  3. Over the local annotations. Each is created remotely (its local node is then renamed to the new remote URI) or updated.
  4. Over the remote annotations. Those with no local counterpart are deleted.

  Each loop yields `(action code, item)` pairs. The change registry is saved once, at the end.
- **Checklist completeness scoring.** `evaluate` tests each requirement of a minim model that carries a data rule against the resources the RO aggregates. It collects the unsatisfied MUST, SHOULD and MAY requirements, and knocks out the satisfaction levels in cascade. `format` renders the result as report lines.
- **Command helpers of `ro`**:
  - the search for the RO root directory: the first of `d`, `dirname(d)`, … that holds the `.ro` metadata directory;
  - the hidden-file filter of `ro list`;
  - the argument guards of `ro add`, `ro list` and `ro evaluate`.
- **The content-type lookup of the mock HTTP resources.** It builds a table from extension to MIME type. It picks a filename's type by the text after its last `.`, with a default.

Modules:

- `Wrappers`: `Option` and `Result`.
- `Sequences`: two facts about appending to a sequence.
- `RoSyncModel`: the push pass on values.
  - The two stores are `Local` and `Remote`.
  - Every store operation is a function from state to state.
  - Each loop is a fold, and `Push` composes the four folds.
- `RoSync`: the push pass as the source writes it.
  - Classes `LocalRo` and `RemoteRo` have fields that their methods update.
  - `PushResearchObject` runs four `while` loops over them.
  - It is proved to leave both objects, and to yield the actions, exactly as `Push` computes them.
- `RoSyncProperties`: what the pass guarantees. This covers the decision table per resource, the effect of each loop, and properties of the whole pass.
- `RoEvalCompleteness`: `Evaluate` and `Format` as methods with loops. They are proved against the specification functions `Evaluations`, `Unsatisfied` and `Summary`, along with the lattice properties of the summary.
- `RoCommand`: the root search (a method with a `while` loop, proved against a `Walk`/`FirstRoot` specification), `notHidden` and the filter, and the command guards.
- `MockHttpResources`: the content-type table and `HttpContentType`.

The external parts of the system become inputs, nothing more:
- the remote service's answers: the etag of the k-th upload and the path of the k-th annotation node it creates (`Service`);
- the file system: which paths are directories, which files can be read and their checksums;
- `ro_utils.ropath`;
- the manifest's aggregation test (a set of aggregated resources).

## Model

| member | source | states |
|---|---|---|
| RoSyncModel.KindOfCode | src/rocommand/ro_rosrs_sync.py:16-26 | Decoding an action code succeeds exactly for 1..11, and gives a kind whose code is that number. |
| RoSyncModel.CodeRoundTrip | src/rocommand/ro_rosrs_sync.py:16-26 | The eleven action codes are pairwise distinct: decoding a kind's code gives that kind back. |
| RoSyncModel.Push | src/rocommand/ro_rosrs_sync.py:31-134 | The push pass on values: the four loops in order, stopping after the first if it aborts, then the registry save. It has no ensures of its own. Its properties are the whole-pass lemmas PushSavesRegistryOnlyOnSuccess, PushReconcilesResources, PushDeletesRemoteOnly, AnnotationsSettleAfterPush, PushLeavesSteady and PushThenRerunSkips, and RoSync.PushResearchObject is proved equal to it. |
| RoSyncModel.StepResource | src/rocommand/ro_rosrs_sync.py:37-100 | One iteration of the first loop, on values. No ensures of its own. Its cases are stated by NewInternalResource, NewInternalResourceUnreadable, NewExternalResource, ExistingInternalResource, ExistingInternalHeadFailure, ExistingAnnotationResource and ExistingExternalResource, and its frame by StepResourceFrame. |
| RoSyncModel.Decide | src/rocommand/ro_rosrs_sync.py:78-85 | The first-match decision between UPDATE_OVERWRITE, UPDATE and SKIP. No ensures of its own. The table is stated, with its effect, by ExistingInternalResource. |
| RoSyncModel.PushResources | src/rocommand/ro_rosrs_sync.py:36-100 | The first loop as a fold over the listed resources, ending at an exception. No ensures of its own. Stated by PushResourcesFrame, PushResourcesAggregates, PushResourcesInStep and RerunSkips. |
| RoSyncModel.DeaggregateRemoteOnly | src/rocommand/ro_rosrs_sync.py:102-108 | The second loop as a fold. No ensures of its own. Stated by DeaggregateRemoteOnlyEffect and DeleteActionsCount. |
| RoSyncModel.PushAnnotations | src/rocommand/ro_rosrs_sync.py:110-123 | The annotation loop as a fold. No ensures of its own. Each iteration is stated by CreateAnnotationStep and UpdateAnnotationStep, which give the action and the remote body and target of each branch. The loop is stated by PushAnnotationsFrame, PushAnnotationsSettles, SettledAnnotationsOnlyUpdate, PushAnnotationsNoDelete and SharedBlankNodeCreatesTwice. |
| RoSyncModel.DeleteRemoteOnlyAnnotations | src/rocommand/ro_rosrs_sync.py:125-131 | The deletion loop as a fold. No ensures of its own. Stated by DeleteRemoteOnlyAnnotationsEffect and DeleteAnnotationActionsKind. |
| RoSyncProperties.NewInternalResource | src/rocommand/ro_rosrs_sync.py:38-51 | A readable local internal resource the remote lacks yields AGGREGATE_INTERNAL and is aggregated. The remote then answers HEAD 200 with the upload's etag. The registry holds that etag and the checksum, and no other registry entry changes. |
| RoSyncProperties.NewInternalResourceUnreadable | src/rocommand/ro_rosrs_sync.py:40-45 | When the file cannot be read, the AGGREGATE_INTERNAL pair has already been yielded when the pass aborts. Nothing is uploaded or recorded. |
| RoSyncProperties.NewExternalResource | src/rocommand/ro_rosrs_sync.py:52-55 | A local external resource the remote lacks yields AGGREGATE_EXTERNAL and is aggregated by reference. The local RO and its registry are unchanged. |
| RoSyncProperties.ExistingInternalResource | src/rocommand/ro_rosrs_sync.py:66-95 | The first-match decision table for an aggregated internal non-annotation resource. A missing or different etag gives UPDATE_OVERWRITE; otherwise a missing or different checksum gives UPDATE; otherwise SKIP. After an overwrite or update the registry holds the new etag and the current checksum, and no other path's registry entries or HEAD change. A skip changes neither store. |
| RoSyncProperties.ExistingInternalHeadFailure | src/rocommand/ro_rosrs_sync.py:68-70 | A HEAD status other than 200 aborts the pass. Nothing is yielded, uploaded or recorded. |
| RoSyncProperties.ExistingAnnotationResource | src/rocommand/ro_rosrs_sync.py:60-64 | An aggregated internal resource that is a local annotation node yields nothing and changes nothing. |
| RoSyncProperties.ExistingExternalResource | src/rocommand/ro_rosrs_sync.py:96-98 | An aggregated external resource always yields SKIP, naming its local URI, and changes nothing else. |
| RoSyncProperties.UploadThenSteady | src/rocommand/ro_rosrs_sync.py:46-100 | After an upload that answered a non-empty etag, of a resource whose checksum is non-empty, and which the remote either lacked or held with a decision other than SKIP, the resource is steady: its registry entries match the remote etag and the local checksum. |
| RoSyncProperties.RerunSkips | src/rocommand/ro_rosrs_sync.py:36-100 | Over resources that all match the registry, the first loop yields only skips, one per internal non-annotation or external resource. It changes neither store nor the registry. |
| RoSyncProperties.SteadyStepSkips | src/rocommand/ro_rosrs_sync.py:78-98 | One iteration on a resource in step with the registry yields just its skip, if it has one. The remaining resources stay in step. |
| RoSyncProperties.StepResourceFrame | src/rocommand/ro_rosrs_sync.py:36-100 | One iteration of the first loop touches only the registry and the remote's resources, heads and upload count. It adds resource p at most, and yields at most one resource action. |
| RoSyncProperties.PushResourcesFrame | src/rocommand/ro_rosrs_sync.py:36-100 | The first loop keeps every remote resource and leaves the annotations of both stores alone. It changes the remote multiplicity only of the paths it visits. It only appends resource actions, and does nothing once aborted. |
| RoSyncProperties.PushResourcesAggregates | src/rocommand/ro_rosrs_sync.py:36-100 | When the first loop completes, every internal or external local resource it visited is aggregated remotely. |
| RoSyncProperties.DeaggregateRemoteOnlyEffect | src/rocommand/ro_rosrs_sync.py:102-108 | The second loop yields a DELETE for each listed remote resource the local RO does not aggregate. The remote then lacks exactly those paths. Nothing else changes. |
| RoSyncProperties.DeleteActionsCount | src/rocommand/ro_rosrs_sync.py:102-108 | A remote-only resource gets one DELETE per entry it has in the remote list, and a locally aggregated one gets none. |
| RoSyncProperties.RemoveAllMember | src/rocommand/ro_rosrs_sync.py:107 | After de-aggregation, a path remains exactly when it was listed and not removed. |
| RoSyncProperties.RemoveAllTwice | src/rocommand/ro_rosrs_sync.py:107 | De-aggregating one set, then another, equals de-aggregating their union. |
| RoSyncProperties.RemoveAllIdentity | src/rocommand/ro_rosrs_sync.py:107 | De-aggregating nothing leaves the list unchanged. |
| RoSyncProperties.RemoteOnlyMember | src/rocommand/ro_rosrs_sync.py:102-105 | A path is remote-only exactly when it is listed remotely and not aggregated locally. |
| RoSyncProperties.DeleteRemoteOnlyAnnotationsEffect | src/rocommand/ro_rosrs_sync.py:125-131 | The last loop deletes exactly the listed remote annotation nodes that are not local annotation nodes, yielding one DELETE_ANNOTATION each. Nothing else changes. |
| RoSyncProperties.DropNodesMember | src/rocommand/ro_rosrs_sync.py:130 | After an annotation deletion, an entry remains exactly when its node was not deleted. |
| RoSyncProperties.DropNodesTwice | src/rocommand/ro_rosrs_sync.py:130 | Deleting the nodes of one set, then of another, equals deleting those of their union. |
| RoSyncProperties.DropNodesIdentity | src/rocommand/ro_rosrs_sync.py:130 | Deleting no node leaves the annotations unchanged. |
| RoSyncProperties.RemoteOnlyNodesMember | src/rocommand/ro_rosrs_sync.py:125-128 | A node is deleted exactly when some remote annotation has it and no local annotation does. |
| RoSyncProperties.DeleteAnnotationActionsKind | src/rocommand/ro_rosrs_sync.py:125-131 | The last loop yields only DELETE_ANNOTATION. |
| RoSyncProperties.StepLocalAnnotationSettles | src/rocommand/ro_rosrs_sync.py:110-123 | One iteration of the annotation loop keeps its invariant. The entries not yet visited are the tail of the local list and have distinct nodes. The entries already visited have a named node the remote knows. Every node the pass created is still a local annotation node. |
| RoSyncProperties.PushAnnotationsSettles | src/rocommand/ro_rosrs_sync.py:110-123 | Over entries with distinct nodes, the annotation loop leaves every local entry with a named node the remote knows. It keeps every node it had the remote create as a local annotation node. |
| RoSyncProperties.CreatedNodeUnique | src/rocommand/ro_rosrs_sync.py:114-119 | In the creation branch, no local entry other than the current one has the node being renamed. So the rename of line 118 changes that entry alone. |
| RoSyncProperties.PushAnnotationsFrame | src/rocommand/ro_rosrs_sync.py:110-123 | The annotation loop changes only the local annotation entries, the remote annotations and the remote's creation count. The remote's resources, HEADs and upload count are untouched. It appends only AGGREGATE_ANNOTATION or UPDATE_ANNOTATION. |
| RoSyncProperties.SettledAnnotationsOnlyUpdate | src/rocommand/ro_rosrs_sync.py:110-123 | When every local entry has a named node the remote knows, the loop only updates: one UPDATE_ANNOTATION per entry, no creation, and the local annotations unchanged. |
| RoSyncProperties.CreateAnnotationStep | src/rocommand/ro_rosrs_sync.py:114-119 | A blank node, or a node the remote does not hold, yields AGGREGATE_ANNOTATION of the freshly minted node. The remote keeps its entries and gains that node with the entry's body and target, the minted count goes up by one, and each local entry on the old node now names the new one, with nothing else changed. |
| RoSyncProperties.UpdateAnnotationStep | src/rocommand/ro_rosrs_sync.py:120-123 | A node the remote holds yields UPDATE_ANNOTATION of its URI. Every remote entry at that node now carries the entry's body and target, the entries at other nodes are kept, and the local RO and the rest of the remote are unchanged. |
| RoSyncProperties.SettledAnnotationUpdates | src/rocommand/ro_rosrs_sync.py:120-123 | One iteration on an entry whose node the remote knows yields UPDATE_ANNOTATION and keeps the remaining entries settled. |
| RoSyncProperties.PushAnnotationsNoDelete | src/rocommand/ro_rosrs_sync.py:110-123 | The annotation loop only appends actions, none of them a DELETE. |
| RoSyncProperties.AnnotationPhasesAddNoDelete | src/rocommand/ro_rosrs_sync.py:110-131 | The two annotation loops together yield no DELETE of a resource. |
| RoSyncProperties.PushSavesRegistryOnlyOnSuccess | src/rocommand/ro_rosrs_sync.py:31-134 | The saved registry becomes the in-memory one exactly when the pass completes. An aborted pass leaves the saved registry as it was. |
| RoSyncProperties.PushReconcilesResources | src/rocommand/ro_rosrs_sync.py:31-134 | After a completed pass, the remote aggregates only local resources. It aggregates every internal or external local resource, and every local resource it already had. |
| RoSyncProperties.PushDeletesRemoteOnly | src/rocommand/ro_rosrs_sync.py:31-134 | Over a completed pass, a remote resource the local RO lacks gets one DELETE per entry in the remote list, and a local one gets none. |
| RoSyncProperties.AnnotationsSettleAfterPush | src/rocommand/ro_rosrs_sync.py:31-134 | A completed pass whose local annotations have distinct nodes leaves every local annotation with a named node the remote still holds. Every annotation node the pass created survives the final deletion loop. |
| RoSyncProperties.SharedBlankNodeLosesSecondTriple | src/rocommand/ro_rosrs_sync.py:110-131 | Two local entries sharing a blank node: the pass yields two AGGREGATE_ANNOTATIONs and then a DELETE_ANNOTATION of the second new node. Both local entries end on the first new node, and the remote keeps only the first body/target pair. |
| RoSyncProperties.SharedBlankNodeCreatesTwice | src/rocommand/ro_rosrs_sync.py:110-119 | On two entries sharing a blank node, the annotation loop creates twice. The first rename moves both entries, and the second renames nothing. |
| RoSyncProperties.SharedBlankNodeSecondDeleted | src/rocommand/ro_rosrs_sync.py:125-131 | The deletion loop then removes the second new node, which no local entry holds, and keeps the first. |
| RoSyncProperties.StepResourceInStep | src/rocommand/ro_rosrs_sync.py:36-100 | With non-empty upload etags and checksums, an iteration that does not abort leaves its internal non-annotation resource with registry entries equal to the remote etag and local checksum. Every other resource stays as in step as it was. |
| RoSyncProperties.PushResourcesInStep | src/rocommand/ro_rosrs_sync.py:36-100 | A completed first loop leaves every internal non-annotation resource it visits in step with the registry. It keeps in step every resource that already was. |
| RoSyncProperties.PushLeavesSteady | src/rocommand/ro_rosrs_sync.py:31-134 | With non-empty upload etags and checksums, a completed pass leaves every local resource steady, so a next pass skips it (RerunSkips). The one exception is a resource whose annotation-node status the pass changed. |
| RoSyncProperties.PushKeepsListing | src/rocommand/ro_rosrs_sync.py:31-134 | A pass never changes the local listing of the RO's resources. |
| RoSyncProperties.PushThenRerunSkips | src/rocommand/ro_rosrs_sync.py:31-134 | With non-empty upload etags and checksums, the pass changing no resource's annotation-node status, a completed pass is followed by a first loop, under any service, that only skips: one skip per internal non-annotation or external resource, and neither store changes. |
| RoSync.LocalRo.constructor | src/rocommand/ro_rosrs_sync.py:31 | The local RO object holds the given state. |
| RoSync.LocalRo.CalculateChecksum | src/rocommand/ro_rosrs_sync.py:44 | Answers the file's checksum exactly when the file can be read. |
| RoSync.LocalRo.Record | src/rocommand/ro_rosrs_sync.py:50-51 | The registry gets the etag and checksum of p; nothing else changes. |
| RoSync.LocalRo.ReplaceUri | src/rocommand/ro_rosrs_sync.py:118 | Every local annotation entry with the old node gets the new node; nothing else changes. |
| RoSync.LocalRo.SaveRegistries | src/rocommand/ro_rosrs_sync.py:133 | The saved registry becomes the in-memory registry; nothing else changes. |
| RoSync.RemoteRo.constructor | src/rocommand/ro_rosrs_sync.py:31 | The remote RO object holds the given state and service. |
| RoSync.RemoteRo.GetHead | src/rocommand/ro_rosrs_sync.py:68-70 | Answers the recorded HEAD of p, or 404 with no etag for a path without a recorded HEAD (which may still be aggregated). |
| RoSync.RemoteRo.AggregateResourceInt | src/rocommand/ro_rosrs_sync.py:46-49 | p is aggregated with the next upload's etag, which is answered. |
| RoSync.RemoteRo.UpdateResourceInt | src/rocommand/ro_rosrs_sync.py:86-89 | p's content is replaced with the next upload's etag, which is answered. |
| RoSync.RemoteRo.AggregateResourceExt | src/rocommand/ro_rosrs_sync.py:53-55 | p is aggregated by reference. |
| RoSync.RemoteRo.DeaggregateResource | src/rocommand/ro_rosrs_sync.py:107 | Every entry of p is removed from the remote resources. |
| RoSync.RemoteRo.AddAnnotationNode | src/rocommand/ro_rosrs_sync.py:116 | A new annotation node with the next minted path is created and answered. |
| RoSync.RemoteRo.UpdateAnnotationNode | src/rocommand/ro_rosrs_sync.py:122 | Every remote annotation at the node gets the new body and target. |
| RoSync.RemoteRo.DeleteAnnotationNode | src/rocommand/ro_rosrs_sync.py:130 | Every remote annotation at the node is removed. |
| RoSync.PushResource | src/rocommand/ro_rosrs_sync.py:36-100 | One iteration of the first loop on the objects leaves them, and the actions, as RoSyncModel.StepResource does. |
| RoSync.PushResources | src/rocommand/ro_rosrs_sync.py:36-100 | The first loop over the objects equals RoSyncModel.PushResources. |
| RoSync.DeaggregateRemoteOnly | src/rocommand/ro_rosrs_sync.py:102-108 | The second loop over the objects equals RoSyncModel.DeaggregateRemoteOnly. |
| RoSync.PushAnnotations | src/rocommand/ro_rosrs_sync.py:110-123 | The annotation loop over the objects equals RoSyncModel.PushAnnotations. |
| RoSync.DeleteRemoteOnlyAnnotations | src/rocommand/ro_rosrs_sync.py:125-131 | The deletion loop over the objects equals RoSyncModel.DeleteRemoteOnlyAnnotations. |
| RoSync.PushResearchObject | src/rocommand/ro_rosrs_sync.py:31-134 | The whole pass on the objects yields the actions, ends with the exception, and leaves both objects exactly as RoSyncModel.Push does. The properties of Push above therefore hold of it. |
| RoEvalCompleteness.Evaluate | src/iaeval/ro_eval_completeness.py:26-112 | A missing constraint or model fails. Otherwise the missing lists are the unsatisfied requirements per level, and the summary holds each level iff no requirement at it or above is missing. The result carries the given URIs, and every missing requirement has a data rule. |
| RoEvalCompleteness.EvaluateRequirements | src/iaeval/ro_eval_completeness.py:72-77 | The first loop computes Evaluations: one pair per requirement with a data rule, in order. |
| RoEvalCompleteness.KnockOut | src/iaeval/ro_eval_completeness.py:97-110 | The second loop's missing lists are the unsatisfied requirements per level. The MUST, SHOULD and MAY entries survive exactly when no requirement at that level or above is missing. |
| RoEvalCompleteness.SatisfiedLevels | src/iaeval/ro_eval_completeness.py:111 | The summary holds exactly the levels not knocked out. |
| RoEvalCompleteness.EvaluationsMember | src/iaeval/ro_eval_completeness.py:72-77 | Only requirements with a data rule are evaluated. Each is satisfied iff the RO aggregates the resource its rule names. |
| RoEvalCompleteness.UnsatisfiedMember | src/iaeval/ro_eval_completeness.py:97-110 | A requirement is in a level's missing list iff it is at that level, has a data rule, and the resource is not aggregated. |
| RoEvalCompleteness.EvaluationsHaveDatarules | src/iaeval/ro_eval_completeness.py:72-110 | Every evaluated and every missing requirement carries a data rule. |
| RoEvalCompleteness.EvaluationsAppend | src/iaeval/ro_eval_completeness.py:72-77 | Evaluating a concatenation is concatenating the evaluations, so requirement order is kept. |
| RoEvalCompleteness.UnsatisfiedAppend | src/iaeval/ro_eval_completeness.py:97-110 | Collecting the missing requirements distributes over concatenation, so the missing lists keep requirement order. |
| RoEvalCompleteness.MissingListsPartition | src/iaeval/ro_eval_completeness.py:97-110 | An unsatisfied requirement is in the missing list of its own level and of no other. A level other than MUST, SHOULD or MAY puts it in none. |
| RoEvalCompleteness.SummaryMembers | src/iaeval/ro_eval_completeness.py:79-111 | Each level is in the summary iff no requirement at that level or above is missing. |
| RoEvalCompleteness.AllRulesMetFullySatisfies | src/iaeval/ro_eval_completeness.py:79-111 | With every data rule met, all three levels are in the summary. |
| RoEvalCompleteness.NoneMissingWhenAllMet | src/iaeval/ro_eval_completeness.py:97-110 | With every data rule met, no missing list has an entry. |
| RoEvalCompleteness.NoneMissingWhenMoreAggregated | src/iaeval/ro_eval_completeness.py:72-110 | A level with nothing missing still has nothing missing when the RO aggregates more. |
| RoEvalCompleteness.SummaryMonotoneInAggregates | src/iaeval/ro_eval_completeness.py:72-111 | Aggregating more resources can only add satisfaction levels. |
| RoEvalCompleteness.SummaryAntitoneInRequirements | src/iaeval/ro_eval_completeness.py:72-111 | Adding requirements to a model can only remove satisfaction levels. |
| RoEvalCompleteness.SummaryText | src/iaeval/ro_eval_completeness.py:135-138 | Names the highest level present ("Fully", "Nominally", "Minimally complete"), or "Incomplete" when none is. |
| RoEvalCompleteness.SummaryTextOfEvaluation | src/iaeval/ro_eval_completeness.py:135-138 | The summary text of an evaluation, in terms of which levels have missing requirements. |
| RoEvalCompleteness.MissingLines | src/iaeval/ro_eval_completeness.py:140-145 | One line per missing requirement, in order, naming the resource its data rule requires. |
| RoEvalCompleteness.PutMissing | src/iaeval/ro_eval_completeness.py:140-145 | A missing-requirements loop appends its lines exactly when the detail selects them. |
| RoEvalCompleteness.Format | src/iaeval/ro_eval_completeness.py:114-148 | "summary" writes the header and summary lines. "full" adds the MUST, SHOULD and MAY lines in that order, then the two URI lines. Any other detail writes nothing. |
| RoCommand.AfterLastSlash | src/rocommand/ro_command.py:64 | The index just past the last '/', with no '/' after it. |
| RoCommand.RStripSlashes | src/rocommand/ro_command.py:64 | A prefix without a trailing '/', with only slashes removed. |
| RoCommand.Dirname | src/rocommand/ro_command.py:70 | dirname of a path is a prefix of it: empty exactly when the path has no '/'. |
| RoCommand.Join | src/rocommand/ro_command.py:66 | `os.path.join(ro_dir_next, MANIFEST_DIR)`. No ensures of its own. Stated through FirstRoot, RoRootDirectory and RootOfRoot, which test `Join(d, ManifestDir)` against the directories. |
| RoCommand.DirnameFixpoint | src/rocommand/ro_command.py:64-70 | dirname leaves a path unchanged exactly when the path is empty or all slashes. |
| RoCommand.Walk | src/rocommand/ro_command.py:64-70 | The walk starts at the directory, and is empty for the empty path. |
| RoCommand.WalkShape | src/rocommand/ro_command.py:64-70 | Each step of the walk is the dirname of the previous one, and the walk never visits the empty path. It ends at a path that is its own dirname or whose dirname is empty. |
| RoCommand.WalkPrefixes | src/rocommand/ro_command.py:64-70 | Every directory on the walk is a prefix of the starting path. |
| RoCommand.FirstRoot | src/rocommand/ro_command.py:64-68 | The first directory of the walk that holds a metadata directory, found iff some directory of the walk holds one. |
| RoCommand.RoRootDirectory | src/rocommand/ro_command.py:42-73 | No directory from ropath gives none. A directory that does not exist gives none without walking. Otherwise the loop answers the first directory on the walk that holds the metadata directory, or none when there is no such directory. |
| RoCommand.RootOfRoot | src/rocommand/ro_command.py:64-68 | A directory holding a metadata directory is its own root. |
| RoCommand.RootIsAncestor | src/rocommand/ro_command.py:64-68 | The root found is the starting directory or an ancestor of it (a prefix), and holds a metadata directory. |
| RoCommand.NotHidden | src/rocommand/ro_command.py:296-297 | `notHidden`: the regular expression finds no match at the start of the path. No ensures of its own. Stated by SlashDotOnFirstLineIff and HiddenIff. |
| RoCommand.SlashDotOnFirstLineIff | src/rocommand/ro_command.py:296-297 | The regular expression's scan matches exactly when "/." occurs before the first newline. |
| RoCommand.HiddenIff | src/rocommand/ro_command.py:296-297 | A newline-free path is hidden exactly when it starts with "." or contains "/.". |
| RoCommand.Visible | src/rocommand/ro_command.py:298 | The filter never lengthens the listing. |
| RoCommand.VisibleMember | src/rocommand/ro_command.py:298 | The listing keeps exactly the non-hidden paths. |
| RoCommand.VisibleAppend | src/rocommand/ro_command.py:298 | Filtering distributes over concatenation, so the listing keeps the original order. |
| RoCommand.VisibleCount | src/rocommand/ro_command.py:298 | Each non-hidden path is listed as often as it occurs, and each hidden one not at all. |
| RoCommand.Add | src/rocommand/ro_command.py:208-242 | Exit status 1 unless there are two or three arguments and an RO root. The operand defaults to ".". |
| RoCommand.List | src/rocommand/ro_command.py:273-300 | Status 1 without an RO root. With -a every path is listed. Without it, the listing is the filter of the paths: exactly the non-hidden ones, in order, each as often as it occurs (VisibleAppend, VisibleCount). |
| RoCommand.EvaluateCommand | src/rocommand/ro_command.py:485-533 | Status 1 unless there are at least three arguments, an RO root, the "checklist" operation, five or six arguments and a level among summary, must, should, may and full. Empty operands take their defaults, and -a selects "full". |
| MockHttpResources.FileTypeMimeType | src/MiscUtils/MockHttpResources.py:15-16 | The table built from the (type, extensions) groups. No ensures of its own. Stated by TableEntry, ListedOnceMapsToItsType and, through LastTypeFor, LastTypeForIsLast. |
| MockHttpResources.LastTypeForIsLast | src/MiscUtils/MockHttpResources.py:15-16 | The reference lookup finds a type exactly when some group lists the extension. That type belongs to a group listing it, and no later group lists it. |
| MockHttpResources.DictOfAppend | src/MiscUtils/MockHttpResources.py:15-16 | A dictionary built from concatenated pairs is the first overridden by the second: later pairs win. |
| MockHttpResources.DictOfGroup | src/MiscUtils/MockHttpResources.py:15-16 | One group's pairs map exactly its extensions, each to its type. |
| MockHttpResources.TableEntry | src/MiscUtils/MockHttpResources.py:15-16 | The table maps an extension exactly when some group lists it, and then to the type of the last group that lists it. |
| MockHttpResources.ListedOnceMapsToItsType | src/MiscUtils/MockHttpResources.py:15-16 | An extension listed under exactly one type maps to that type. |
| MockHttpResources.LastDot | src/MiscUtils/MockHttpResources.py:19 | The index of the last '.', or none exactly when there is no '.'. |
| MockHttpResources.RSplitDot | src/MiscUtils/MockHttpResources.py:19 | rsplit(".", 1) gives the whole name when it has no '.'. Otherwise it gives the parts before and after the last '.', joined by it. |
| MockHttpResources.HttpContentType | src/MiscUtils/MockHttpResources.py:18-22 | The type of a filename by its extension, with the default. No ensures of its own. Stated by NoDotGetsDefault, ExtensionAfterLastDot and TarGzLooksUpGz. |
| MockHttpResources.NoDotGetsDefault | src/MiscUtils/MockHttpResources.py:19-22 | A filename without '.' gets "application/octet-stream". |
| MockHttpResources.ExtensionAfterLastDot | src/MiscUtils/MockHttpResources.py:19-22 | Only the text after the last '.' is looked up. A known extension gives exactly its table entry, and an unknown one the default. |
| MockHttpResources.TarGzLooksUpGz | src/MiscUtils/MockHttpResources.py:19 | "a.tar.gz" is looked up under "gz". |

## Left out

- HTTP and the ROSRS protocol: the remote is its abstract state plus the `Service` answers. Status codes of uploads, updates and deletions are not looked at, as in the pass, which ignores them.
- RDF and the manifest graph: resources, annotations and classifications are given as values. `getComponentUriRel` and `getFilenameFromUri` are taken as the identity on RO-relative paths, so URIs and registry keys are paths; an `Item` records whether a yield names a relative path, the local URI or the remote URI.
- RoSync.LocalRo.ReplaceUri: renames the node in the local annotation entries only. The local RO's `replaceUri` lives in ro_metadata, which is not part of this model. Any other use of the old URI in the manifest graph (aggregated resources, other statements) is not renamed in the model.
- Checksum computation and file reads: the checksum of each readable file is an input, and a file that cannot be read aborts the pass.
- Generator suspension and cancellation: the pass is modelled to completion or to its exception. The yields that come before their remote call are in the order the source gives them, but stopping a consumer between a yield and its call is not modelled.
- The loops run over the lists as they are when each loop starts. This is an assumption of the model: the store classes whose methods list the resources and annotations (ro_metadata and the remote RO class) are not part of this model, so whether a loop sees changes the pass makes to its own list is not captured.
- Python's dictionary order: the summary of an evaluation is a set, not a list.
- `ro_settings` is not part of this model; its MANIFEST_DIR is taken as ".ro". `ro_utils.ropath` and `os.path.isdir` are inputs.
- The directory scan of `ro list`, the manifest update of `ro add`, the minim graph reads of `evaluate`, and the printing of the results are left out (file system and RDF I/O). `ro evaluate` itself calls the evaluation in ro_eval_minim, which is not part of this model; `RoCommand.EvaluateCommand` stops at the request it passes on.
- The other commands of `ro` (config, create, status, annotate, annotations, push, checkout) and `getoptionvalue`: file system, stdin and network I/O.
- The `MockHttpResources` class, which registers and serves responses through httpretty, is left out. The `FileMimeTypes` list is an input of `FileTypeMimeType`.
- Logging and printing.
- `force` of `pushResearchObject` is never read by the pass, so it has no effect in the model.
- RoSyncProperties.AnnotationsSettleAfterPush: requires the local annotation entries to have distinct nodes. Two entries can share a node, for example one annotation with two body/target triples. Each loop iteration tests its own snapshot entry, which still has the old node, so both entries take the creation branch. The first rename moves both entries to the first new node, and the second rename finds nothing. The second new node then has no local entry, so the final loop deletes it in the same pass, and the remote loses the second body/target pair (RoSyncProperties.SharedBlankNodeLosesSecondTriple).
- RoSyncProperties.RerunSkips: states that a rerun skips every resource in step with the registry. A rerun is not idempotent as a whole, because the annotation loop updates every existing annotation unconditionally.
- RoEvalCompleteness.Evaluate: a requirement whose data rule lacks an `aggregates` entry raises KeyError in the source. Here a data rule always names a resource.
- RoEvalCompleteness.Format: requires every missing requirement to carry a data rule, which `Evaluate` guarantees. Any other detail value, such as "must", "should" or "may" (levels the `ro evaluate` command accepts for the formatter in ro_eval_minim, which is not part of this model), writes nothing in this `format`, as in the source.
