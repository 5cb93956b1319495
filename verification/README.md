# A verified model of k8cc

k8cc leases distcc servers and build clients to users on Kubernetes.  An API front end renews leases, three
controllers reconcile claims, Deployments and Services, and all of them share objects in an API server that
they partly see through caches.  This project models that protocol in Dafny and proves what it guarantees.

## How the model is built

Each controller appears three times, and the three are tied together by proofs.

* **Imperative code.**  Classes and methods follow the Go code branch by branch: objects with references in
  their status, deep copies, the API server's maps, the controllers' `Sync` and its parts, the worker.
  The synced claim or Distcc with its status, the secrets of a client claim, and the DistccClient with its
  labels and pod template are objects in memory.  A `Sync` may modify the API server and nothing else that
  was there before, so no path of it writes to them, although copies of them are changed.
* **Functions.**  Every method is proved equal to a function of the old state.  Clock readings, failures of
  lookups and calls, generated names and server defaults are parameters, so the functions cover every
  behaviour of the surroundings.
* **Machines.**  Properties of whole runs are proved of machines of atomic steps that interleave passes of
  the controllers, API requests, the clock and everybody else.  Each `Sync` is then proved to be a run of
  the machine it belongs to.

The main results:

* *The lease promise.*  A renewal that the API writes is good until the stored form of renewal time plus
  lease, which is less than a second short, in every interleaving.  How far this goes depends on the care
  taken of deletions, which the code makes by name alone:
  * if a deletion took effect only on the version it was decided on, the promise would be unconditional;
  * if every deletion is decided on a version that is current then, it holds exactly if none was decided
    before the renewal, because that one can still take the renewed claim away, and such a state is
    reachable without any stale snapshot;
  * if deletions may be decided on stale snapshots, it holds exactly if no version of the claim was ever
    written with an expiration before the deadline, and no pass in hand can act on one; so no renewal that
    extends a lease is safe.

  When the API finds the expiration empty already it does not write; the promise then also needs that no
  pass on that version has read its clock too early, because such a pass can still write, and that state is
  reachable too.
* *Collection.*  Whatever else goes on, a pass on a version past its expiration can only end by deleting the
  claim or by being stopped; so a claim that survived a pass and is not renewed is deleted by the first
  unstopped pass that starts on a current snapshot more than a lease later.
* *Agreement.*  A claim that survives a claim pass is counted by the autoscaler at every later instant until
  it is renewed or deleted, down to the replicas that `desiredReplicas` computes from its listing.
* *Quiescence.*  Writes of an expiration are paid for by renewals, creations and reductions of the lease;
  writes of a client claim by disturbances of that claim.
* *Users.*  The lookup selector of a user keeps off the objects of others exactly if the user's name is a
  valid label value (and the client's labels are valid): an invalid one makes a selector that matches
  everything.  Such a user is still given no object of others.
* *One object per claim.*  A client claim never controls two live Deployments or two live Services, wherever
  passes stop, whatever references they had lost and however often lookups fail, as long as no lookup comes
  back empty although the claim owns an object; such a lookup breaks it.
* *Convergence.*  On current caches each `Sync` succeeds exactly if what it needs is there and no call that
  it needs fails.  A successful one reaches its goal from any state, writes exactly what was missing or off,
  and a second one does nothing.
* *Downscale spacing.*  Over any number of Syncs that record their scales a downscale of the live Deployment
  comes more than the window less a second after every scale before it, exactly if no Sync lowers the live
  replicas sooner without its caches showing a downscale.  After a lost status write spacing goes on exactly if every
  scale is covered by the recorded time or far in the past.
* *Retrying.*  The goroutines and the shared channel of a request behave like a sequential loop: nothing
  leaks, nothing gets stuck, no message reaches the wrong call, nothing is tried again after a cancellation,
  all calls are made unless one fails, and every run is bounded.
* *The worker.*  Gets and Dones match, no item is shared, the rate limiter's memory is the number of events
  since the last success, and no event is lost.

Where the code differs from what it says of itself, the model follows the code:

* `pkg/controller/kit/controller_kit.go:253-257` announces that transient failures are requeued.  Nothing
  requeues them there; an item comes back exactly if an event made it dirty (`Kit.ReadyAgainExactlyIfDirty`,
  `Kit.IdleWithoutEvents`).
* `pkg/controller/distcc/distcc_controller.go:207-208` counts claims "if they are not expired".  It counts
  claims whose expiration is set and before a lease taken now; expired ones that are still there count,
  renewed ones that the claim controller has not filled in yet do not.
* The range loop of `newDeploy` takes the address of the loop variable, of which there is one for all
  iterations in the Go versions this repository was written for.  All added volumes mount the last secret
  (`SecretVolumes.AddVolumes`, `SecretVolumes.SecretsAreMountedExactly`).
* `labels.Set.AsSelector` turns a set with one invalid label into a selector that matches everything, and
  user names are not checked before they become label values
  (`pkg/controller/distccclientclaim/distccclientclaim_controller.go:196`, `:259`, `Labels.UserWithDashSeesOthers`).
* The int32 product in `desiredReplicas` can overflow; `Scaling.DesiredIsClamped` says exactly when that
  changes the answer.

## Files

| file | content |
|---|---|
| `Prelude.dfy`, `Cells.dfy`, `Time.dfy`, `Errors.dfy`, `Labels.dfy` | options, references, timestamps and expiration arithmetic, errors, labels and names |
| `Leases.dfy`, `LeaseRuns.dfy` | the lease machine and what its runs guarantee |
| `Agreement.dfy` | the lease machine and the autoscaler's listing together |
| `ClaimController.dfy`, `Api.dfy` | server claims: store, controller, renewal by the API |
| `Autoscaler.dfy`, `DistccController.dfy` | replica arithmetic, the scaling machine, the Distcc controller |
| `Resolver.dfy`, `ClientController.dfy`, `ClientObjects.dfy`, `ClientLeases.dfy` | object resolution, the machine of client passes, the client claim controller, its leases |
| `Retry.dfy` | `getWithRetry` and its channel |
| `WorkQueue.dfy` | the work queue contract and the controller skeleton |

## Model

| member | source | states |
|---|---|---|
| `KubeTime.ToKubeTime` | pkg/conv/time.go:12-15 | the stored timestamp is a whole second, at most the instant and less than a second before it |
| `KubeTime.KubeTimeIsUnique` | pkg/conv/time.go:9-15 | no other whole second has that property |
| `KubeTime.RoundTimestamp` | pkg/apiserver/service/endpoints.go:133-135 | the reported expiry is the nearest whole second, half way going up |
| `KubeTime.ReportedVersusStored` | pkg/apiserver/service/endpoints.go:94-119 | a user is told at most one second more than a controller stores that stamps no earlier than the API read its clock; otherwise less than 1.5 s plus the head start |
| `KubeTime.ReportedVersusStoredIsTight` | pkg/apiserver/service/service.go:107-112 | both bounds are attained for every lease |
| `Expiration.Updated` | pkg/controller/distccclaim/distccclaim_controller.go:151-161 | the expiration after updateExpiration is within the lease, never above the old one, and a fresh one is less than a second short of the lease |
| `Expiration.LapsedIsPast` | pkg/controller/distccclaim/distccclaim_controller.go:118-120 | where the test comes no later than a second before the end of the lease, a pass has to delete what is past its expiration and nothing else |
| `Errors.WrappingKeepsClass` | pkg/errors/errors.go:5-9 | any number of wraps keeps whether an error is transient, ambiguous or eventful, and hides a bare not-found status |
| `Errors.FirstLayerDecides` | pkg/controller/kit/controller_kit.go:400-424 | the first layer that is not a wrap is the one that classification sees |
| `Errors.ClassesExclude` | pkg/controller/refresolver.go:85-105 | an error is at most one of transient, eventful and ambiguous |
| `LabelMaps.GetLabelsForUser` | pkg/controller/distccclientclaim/distccclientclaim_controller.go:402-410 | the copying loop yields a new map, with the labels and the user label set; the map it copies is left alone |
| `Labels.UsersAreIsolated` | pkg/controller/distccclientclaim/distccclientclaim_controller.go:402-420 | the lookup selector of one user matches nothing labelled for others exactly if its labels are valid; the pod selector never does |
| `Labels.ValidUsersAreIsolated` | vendor/k8s.io/apimachinery/pkg/util/validation/validation.go:87-104 | with a client whose labels are valid that is so exactly if the user's name is a valid label value |
| `Labels.UserWithDashSeesOthers` | vendor/k8s.io/apimachinery/pkg/labels/selector.go:836-856 | the lookup selector of the user "alice-" matches everybody's objects |
| `Labels.DeploymentSelectsItsPods` | pkg/controller/distccclientclaim/distccclientclaim_controller.go:334-375 | a created client Deployment selects its own pods exactly if the client's selector is present, valid down to the syntax of keys and values once the user's label is set, lies within the client's labels, and its expressions hold of the pod labels |
| `Labels.AcceptedClaimsAreListed` | pkg/controller/distccclaim/distccclaim_controller.go:101-111 | every claim that the claim controller accepts is listed by the autoscaler exactly if the selector is valid down to the syntax of keys and values, its match labels lie within the Distcc's labels, and its expressions are about these labels and hold of them; invalid labels of the Distcc count as none |
| `Labels.OperatorsAreOpposites` | vendor/k8s.io/apimachinery/pkg/labels/selector.go:193-212 | NotIn is the opposite of In, also where the key is missing, and DoesNotExist that of Exists |
| `Labels.ClaimNamesCollideExactly` | pkg/apiserver/service/service.go:361-363 | two requests share a claim name exactly if they are equal or one user name continues the other across a dash |
| `Labels.ClaimNamesAreInjective` | pkg/apiserver/service/service.go:361-363 | user names without a dash never share a claim name |
| `Leases.ReachableKeepsInv` | pkg/controller/distccclaim/distccclaim_controller.go:113-131 | in every reachable world versions identify contents, and what a pass holds fits the snapshot it was computed from |
| `Leases.GuardedIsSpared` | pkg/controller/distccclaim/distccclaim_controller.go:118-129 | a claim guarded up to a deadline is deleted by no controller up to it, in every run whose deletions hit only the version they were decided on, and in every run whose deletions are decided on current versions if none is decided yet |
| `Leases.PromiseExactly` | pkg/apiserver/service/service.go:195-201 | when the API leaves an empty expiration, the lease is kept in all such runs exactly if no pass on that version has read its clock too early and, where care is only taken at the decision, no deletion is decided yet |
| `Leases.RenewalIsPromised` | pkg/apiserver/service/service.go:186-201 | a renewal that is written, or a creation, keeps the lease in all runs of the first kind, and in all of the second kind exactly if no deletion was decided before |
| `Leases.RenewalCanBeTooLate` | pkg/controller/distccclaim/distccclaim_controller.go:119-121 | every expired claim can be found expired on its current version, be renewed, and still be up for deletion |
| `Leases.TooLateIsReachable` | pkg/controller/distccclaim/distccclaim_controller.go:119-121 | so such a state is reachable for every lease |
| `Leases.PromiseToTheUser` | pkg/apiserver/service/service.go:103-113 | in terms of the expiry told to the user: under the same conditions the claim is spared until 1.5 s and the read delay before it |
| `Leases.LateStampIsReachable` | pkg/apiserver/service/service.go:195-201 | the failing side of that is reachable for every lease, and the promise is broken there |
| `Leases.StalePromiseExactly` | pkg/controller/distccclaim/distccclaim_controller.go:120-123 | with deletions decided on any version ever written, the promise holds exactly if no version was ever written with an expiration before the deadline, and the pass in hand cannot act on one |
| `Leases.ExtensionIsUnsafe` | pkg/apiserver/service/service.go:195-199 | so a renewal that extends a lease is not safe from stale snapshots |
| `Leases.ExpiredIsCollected` | pkg/controller/distccclaim/distccclaim_controller.go:118-123 | whatever else goes on, a pass on a version past its expiration ends by deleting the claim or by being stopped, and in no other way |
| `LeaseRuns.Quiescence` | pkg/controller/distccclaim/distccclaim_controller.go:118-131 | successful writes of an expiration number at most the creations, renewals and lease reductions, plus what was pending; a lease that shows up again after its Distcc was missing counts as a reduction, whatever its length |
| `LeaseRuns.OnlyLowered` | pkg/controller/distccclaim/distccclaim_controller.go:151-161 | between renewals an expiration never goes up and a deleted claim stays deleted |
| `LeaseRuns.SurvivorExpiresBy` | pkg/controller/distccclaim/distccclaim_controller.go:118-131 | a claim that survives a pass is left with an expiration within a lease from the stamp of that pass, whatever goes on in between |
| `LeaseRuns.UnrenewedIsCollected` | pkg/controller/distccclaim/distccclaim_controller.go:118-123 | a claim that survived a pass stamped at t0 and is not renewed is deleted by the first pass, in any interleaving, that starts on a current snapshot after t0 plus the lease and is not stopped |
| `LeaseRuns.SurvivorIsCounted` | pkg/controller/distcc/distcc_controller.go:207-226 | a claim that survives a pass stamped at t0 is counted at every later instant, in any interleaving, until it is renewed or deleted |
| `LeaseRuns.RenewalUncounts` | pkg/controller/distcc/distcc_controller.go:220-226 | renewing a counted claim lowers the count by exactly one |
| `LeaseRuns.PassRecounts` | pkg/controller/distcc/distcc_controller.go:220-226 | after such a renewal the next pass that the claim survives restores it, in any interleaving, and no other claim is lost that still exists unrenewed |
| `Agreement.WantedIsForTheCounted` | pkg/controller/distcc/distcc_controller.go:207-238 | over any listing of the stored claims through the selector, desiredReplicas counts exactly these claims, and asks for their replicas between the limits where nothing overflows |
| `Agreement.SurvivorIsWanted` | pkg/controller/distcc/distcc_controller.go:207-238 | so every claim that survives a pass is among those whose replicas are asked for later, until it is renewed or deleted |
| `LeasePasses.PassReaches` | pkg/controller/distccclaim/distccclaim_controller.go:116-131 | one pass from its snapshot to its end is a run of the lease machine without anybody else, with the server it leaves |
| `ClaimStore.DistccClaim.DeepCopy` | pkg/apis/k8cc.io/v1alpha1/zz_generated.deepcopy.go:59-76 | an equal claim that shares no reference with the original |
| `ClaimController.Controller.Sync` | pkg/controller/distccclaim/distccclaim_controller.go:74-132 | the outcome is that of the function, and nothing but the API server changes |
| `ClaimController.Controller.UpdateExpiration` | pkg/controller/distccclaim/distccclaim_controller.go:151-161 | only the copy's expiration changes, to the updated one, and the result says whether it was due |
| `ClaimController.SyncDecides` | pkg/controller/distccclaim/distccclaim_controller.go:113-131 | with the clock read twice: what is left is not past at the test and within the lease from the stamp, the old expiration if possible and else a full lease, and nothing else about the claim changes; what is deleted is exactly what is past at the test, unless the test comes as late as the lease itself |
| `ClaimController.StaleSyncDecides` | pkg/controller/distccclaim/distccclaim_controller.go:118-129 | on a stale cached claim nothing is written, and whatever has its name is deleted exactly if the cached claim has lapsed |
| `ClaimController.SyncSucceedsExactly` | pkg/controller/distccclaim/distccclaim_controller.go:74-131 | a Sync of a current claim succeeds exactly if its Distcc is there and carries labels that the claim has, and the one call it needs does not fail |
| `ClaimController.SurvivorStaysListed` | pkg/controller/distccclaim/distccclaim_controller.go:101-131 | an admissible claim that survives its Sync stays admissible, and listed by every selector that listed it |
| `ClaimController.AdmissibleIsListed` | pkg/controller/distccclaim/distccclaim_controller.go:101-111 | an admissible claim is listed by every valid selector within the labels of its Distcc |
| `ClaimController.FailedSyncIsHarmless` | pkg/controller/distccclaim/distccclaim_controller.go:77-131 | a failure changes nothing; it is transient for an admissible claim and carries an event for any other; it reports an update exactly if the update failed |
| `ClaimController.SyncIsALeaseRun` | pkg/controller/distccclaim/distccclaim_controller.go:74-132 | every Sync, from any cached version and with any failures, is a run of the lease machine in which only the pass on its claim acts |
| `ServerLease.RenewDistccLease` | pkg/apiserver/service/service.go:178-202 | it succeeds exactly if no call that it needs fails, and then leaves the user's claim with an empty expiration; every failure is transient and changes nothing |
| `ServerLease.RenewalKeepsTheRest` | pkg/apiserver/service/service.go:186-198 | a renewal changes nothing but the expiration of one claim; a new one is for the user and the Distcc and carries its labels |
| `ServerLease.CreatedClaimIsAdmissible` | pkg/apiserver/service/service.go:309-321 | a claim created by the API passes the claim controller's label test |
| `ServerLease.RenewalIsPromised` | pkg/apiserver/service/service.go:178-202 | a successful renewal is a run of the lease machine; it writes exactly unless the expiration is empty already, and then its lease is promised, exactly unless a deletion was decided before |
| `Scaling.CountReplicas` | pkg/controller/distcc/distcc_controller.go:220-237 | the int32 loop computes the desired replicas of the specification |
| `Scaling.DesiredIsClamped` | pkg/controller/distcc/distcc_controller.go:227-237 | with sensible limits the answer is the users' total between the limits, exactly unless the product overflows to something below a maximum that leaves a choice |
| `Scaling.OverflowAsksForNothing` | pkg/controller/distcc/distcc_controller.go:227 | 65536 claims of 65536 replicas ask for none |
| `Scaling.MoreClaimsCountMore` | pkg/controller/distcc/distcc_controller.go:220-226 | the count grows with the claims and with time, and does not depend on the order of the list |
| `Scaling.DesiredIsMonotone` | pkg/controller/distcc/distcc_controller.go:207-238 | so do the desired replicas where nothing overflows |
| `ScaleRuns.SpacedExactly` | pkg/controller/distcc/distcc_controller.go:352-374 | in every run that loses no status write, downscales of the live replicas are spaced exactly if none comes inside the window that the caches did not show, replicas and time of the last scale |
| `ScaleRuns.DownscalesAreSpaced` | pkg/controller/distcc/distcc_controller.go:352-374 | so they are if every scale is decided on the live replicas and the live time of the last scale |
| `ScaleRuns.SpacingSurvivesExactly` | pkg/controller/distcc/distcc_controller.go:105-108 | whatever was lost before, spacing is kept from here on exactly if every scale so far is far in the past or covered by the recorded time |
| `ScaleRuns.LossIsHarmlessExactly` | pkg/controller/distcc/distcc_controller.go:105-108 | losing the status write of a scale is harmless exactly if the window is below a second or the time recorded earlier is at most a second older |
| `ScaleRuns.LostStatusBreaksSpacing` | pkg/controller/distcc/distcc_controller.go:105-108 | losing the first status write is not harmless |
| `DistccSync.SyncSucceedsExactly` | pkg/controller/distcc/distcc_controller.go:97-118 | a Sync on current caches succeeds exactly if names, selector and listing are good, both objects are found or can be created and are its own, and neither a needed update nor the status write fails |
| `DistccSync.SyncWritesExactly` | pkg/controller/distcc/distcc_controller.go:97-118 | a successful one writes the Deployment exactly if it was missing or off, the Service exactly if it was missing, and the status exactly if it wrote any of them, and reports that |
| `DistccSync.DeploymentWritesExactly` | pkg/controller/distcc/distcc_controller.go:165-201 | a written Deployment has the labels, selector and owner of the Distcc and the wanted replicas |
| `DistccSync.SyncConverges` | pkg/controller/distcc/distcc_controller.go:97-118 | a successful Sync on current caches leaves owned objects and enough replicas, more only while the window is open, and touches nothing else |
| `DistccSync.SyncIsIdempotent` | pkg/controller/distcc/distcc_controller.go:97-118 | a second Sync at the same instants changes nothing and reports no update |
| `DistccSync.ServiceCoversPods` | pkg/controller/distcc/distcc_controller.go:302-350 | the created Service selects every pod that the Deployment selects |
| `DistccSync.CreatedObjectsCarryLabels` | pkg/controller/distcc/distcc_controller.go:302-350 | created objects carry the labels of the Distcc |
| `DistccSync.ErrorsAreClassified` | pkg/controller/distcc/distcc_controller.go:142-297 | on any caches, an error is transient or carries an event except for a missing service name, an invalid selector and a failed status write |
| `DistccSync.DeploymentErrorsExactly` | pkg/controller/distcc/distcc_controller.go:142-205 | which error the first part gives: an event exactly for a missing name and somebody else's Deployment, a transient one exactly for a call that fails |
| `DistccSync.ErrorsExactly` | pkg/controller/distcc/distcc_controller.go:97-118 | which error a Sync on current caches gives, and what it reports with it |
| `DistccController.SyncIsAScaleRun` | pkg/controller/distcc/distcc_controller.go:142-205 | every Sync, on whatever cached version of the Distcc, is a run of the scaling machine on the live replicas and status, in which an existing Deployment changes by the scale alone; only a Sync that scales and then fails loses a status write |
| `DistccController.SyncsSpaceDownscalesExactly` | pkg/controller/distcc/distcc_controller.go:352-374 | over any number of Syncs that record their scales, downscales of the live Deployment are spaced exactly if no Sync scales blindly inside the window |
| `DistccController.SyncsSpaceDownscales` | pkg/controller/distcc/distcc_controller.go:352-374 | so they are if the cache shows every Sync the live replicas |
| `DistccController.StaleDeploymentBreaksSpacing` | pkg/controller/distcc/distcc_controller.go:191-201 | two successful Syncs at one instant, the Distcc edited in between and the second on a stale Deployment, scale from three to ten and down to five |
| `DistccController.DistccObject.DeepCopy` | pkg/apis/k8cc.io/v1alpha1/zz_generated.deepcopy.go:30-47 | an equal Distcc that shares no status reference |
| `DistccController.Controller.Sync` | pkg/controller/distcc/distcc_controller.go:97-118 | the outcome is that of the function, and nothing but the API server changes |
| `DistccController.Controller.SyncDeployment` | pkg/controller/distcc/distcc_controller.go:142-205 | the outcome is that of the function, all branches included |
| `DistccController.Controller.DesiredReplicas` | pkg/controller/distcc/distcc_controller.go:207-238 | the listing, its failures and the count give the wanted replicas |
| `DistccController.Controller.SyncService` | pkg/controller/distcc/distcc_controller.go:240-278 | the outcome is that of the function |
| `DistccController.Controller.UpdateDistccStatus` | pkg/controller/distcc/distcc_controller.go:280-297 | the status is written exactly if something was updated, with the scale time only after a scale |
| `Resolver.FromLabelsExactly` | pkg/controller/refresolver.go:64-83 | the label fallback finds the only match, nothing if there is none, and reports ambiguity otherwise, in whatever order |
| `Resolver.LostReferenceIsRecovered` | pkg/controller/refresolver.go:35-45 | a lost or dangling reference is recovered exactly if nothing else matches |
| `Resolver.NothingResolved` | pkg/controller/refresolver.go:35-45 | nothing is resolved only when nothing matches |
| `Resolver.ResolvedIsThere` | pkg/controller/refresolver.go:47-62 | what is resolved is in the cache under the reference's name or with the wanted labels |
| `Resolver.ResolvedBelongsToUser` | pkg/controller/refresolver.go:64-83 | resolving by labels yields objects of the user only, exactly if the labels are valid |
| `ClientRuns.LookKeepsInvExactly` | pkg/controller/distccclientclaim/distccclientclaim_controller.go:191-224 | a lookup keeps a claim at one object exactly if it does not come back empty although the claim owns one |
| `ClientRuns.CoveringIsEnough` | pkg/controller/refresolver.go:35-45 | a cache that shows what the claim owns never does that, even if its lookups fail |
| `ClientRuns.AtMostOneObject` | pkg/controller/distccclientclaim/distccclientclaim_controller.go:191-315 | in every run whose lookups overlook nothing of their own claim, no claim controls two live objects of a kind |
| `ClientRuns.ReachableHasAtMostOne` | pkg/controller/distccclientclaim/distccclientclaim_controller.go:191-315 | so it is in every world reached from an empty one |
| `ClientRuns.ObjectsAreConserved` | pkg/controller/distccclientclaim/distccclientclaim_controller.go:213-224 | what a claim owned and made it still owns or has had deleted; it makes at most one more than were deleted |
| `ClientRuns.StaleLookupDuplicates` | pkg/controller/distccclientclaim/distccclientclaim_controller.go:191-224 | a lookup that overlooks the claim's object leads to a second one |
| `ClientSync.SyncSucceedsExactly` | pkg/controller/distccclientclaim/distccclientclaim_controller.go:106-172 | a Sync of a current claim on current caches succeeds exactly if its client is there and either the deletion of a lapsed claim works, or the claim can be given a Deployment and a Service and be written if that is needed |
| `ClientSync.SyncDecides` | pkg/controller/distccclientclaim/distccclientclaim_controller.go:142-171 | it deletes exactly what is past its expiration, unless the test comes as late as the lease itself; a claim that stays keeps its expiration if possible and else gets a full lease, and is written exactly if something about it changes |
| `ClientSync.StaleSyncDecides` | pkg/controller/distccclientclaim/distccclientclaim_controller.go:142-171 | on a stale cached claim it is not written, and whatever has its name is deleted exactly if the cached claim has lapsed |
| `ClientSync.ErrorsExactly` | pkg/controller/distccclientclaim/distccclientclaim_controller.go:106-172 | which error it gives, and what it reports with it |
| `ClientSync.ClientIsTheNamedOne` | pkg/controller/distccclientclaim/distccclientclaim_controller.go:110-135 | the client of a claim is the one that it names |
| `ClientSync.SyncConverges` | pkg/controller/distccclientclaim/distccclientclaim_controller.go:106-172 | a successful Sync that does not delete leaves both references naming live objects of the claim and changes nothing else |
| `ClientSync.PartSucceedsExactly` | pkg/controller/distccclientclaim/distccclientclaim_controller.go:191-237 | syncing one kind of object succeeds exactly if the reference names an object of the claim, or the only match is one, or nothing is there and one can be created; otherwise the error is transient exactly if nothing is there |
| `ClientSync.FailingGetExactly` | pkg/controller/refresolver.go:47-62 | a lookup of the reference that fails is a transient failure, or as good as no reference if it reports that there is nothing |
| `ClientSync.FailingListExactly` | pkg/controller/refresolver.go:64-83 | so is a listing that fails, and one that reports that there is nothing leads to a new object |
| `ClientSync.SyncIsIdempotent` | pkg/controller/distccclientclaim/distccclientclaim_controller.go:166-171 | a second Sync of an unexpired claim writes nothing |
| `ClientSync.PartConverges` | pkg/controller/distccclientclaim/distccclientclaim_controller.go:191-252 | syncing one kind of object links the claim to a live object of its own, from any reference |
| `ClientSync.InvalidUserIsRefused` | pkg/controller/distccclientclaim/distccclientclaim_controller.go:191-237 | a user whose labels are not valid gets neither an object nor a reference as long as others have objects, and an event |
| `ClientSync.LinkedPartIsStable` | pkg/controller/distccclientclaim/distccclientclaim_controller.go:254-315 | an object that is linked already is left as it is |
| `ClientSync.FailedSyncIsHarmless` | pkg/controller/distccclientclaim/distccclientclaim_controller.go:106-172 | a failure changes no claim and removes nothing, and is either transient or carries an event |
| `ClientSyncRuns.SyncIsAClientRun` | pkg/controller/distccclientclaim/distccclientclaim_controller.go:106-172 | what a Sync does to objects, failing or not, is a run of the machine of client passes in which only its own pass acts |
| `ClientController.ClientClaim.DeepCopy` | pkg/apis/k8cc.io/v1alpha1/zz_generated.deepcopy.go:191-208 | an equal claim that shares neither secrets nor references |
| `ClientController.CopySecrets` | pkg/apis/k8cc.io/v1alpha1/zz_generated.deepcopy.go:254-266 | the slice is copied element by element |
| `ClientController.NewDeploy` | pkg/controller/distccclientclaim/distccclientclaim_controller.go:334-375 | the Deployment is new throughout: labels, selector, owner, and a copy of the client's pod template with a volume for each secret; client, labels and template are left alone |
| `SecretVolumes.PodTemplate.DeepCopy` | pkg/controller/distccclientclaim/distccclientclaim_controller.go:340 | an equal template that shares neither labels nor sources of volumes |
| `ClientController.Controller.Sync` | pkg/controller/distccclientclaim/distccclientclaim_controller.go:106-172 | the outcome is that of the function; only the API server changes, not the cached claim or client |
| `ClientController.Controller.SyncObjects` | pkg/controller/distccclientclaim/distccclientclaim_controller.go:154-171 | the outcome is that of the function, with one write at the end |
| `ClientController.Controller.UpdateExpiration` | pkg/controller/distccclientclaim/distccclientclaim_controller.go:317-328 | only the copy's expiration changes, to the updated one |
| `ClientController.Controller.SyncDeploy` | pkg/controller/distccclientclaim/distccclientclaim_controller.go:191-252 | resolves, creates, tests ownership and links as the function says |
| `ClientController.Controller.SyncService` | pkg/controller/distccclientclaim/distccclientclaim_controller.go:254-315 | the same for Services |
| `SecretVolumes.AddVolumes` | pkg/controller/distccclientclaim/distccclientclaim_controller.go:341-350 | the template gets volumes with the names of the secrets in order, and all of them the source of the last secret |
| `SecretVolumes.SecretsAreMountedExactly` | pkg/controller/distccclientclaim/distccclientclaim_controller.go:341-350 | every secret is mounted under its own name exactly if all have the same source, so for the claims the API creates |
| `ClientLeases.SyncIsALeaseRun` | pkg/controller/distccclientclaim/distccclientclaim_controller.go:106-171 | every client Sync is a run of the lease machine in which only the pass on its claim acts |
| `ClientLeases.Quiescence` | pkg/controller/distccclientclaim/distccclientclaim_controller.go:142-171 | successful writes of a client claim number at most the disturbances of it, plus one |
| `ClientLease.RenewDistccClientLease` | pkg/apiserver/service/service.go:204-275 | it renews the lease exactly if no call that it needs for that fails, and succeeds, with the node port of the live Service, exactly if the claim is served as well; every failure is transient |
| `ClientLease.RenewalKeepsTheRest` | pkg/apiserver/service/service.go:211-247 | a renewal changes nothing but the expiration of one claim |
| `ClientLease.NewClaimFindsItsClient` | pkg/apiserver/service/service.go:323-358 | a created claim resolves to its client, is the user's, and mounts the user's key exactly if there is one |
| `ClientLease.RenewalIsPromised` | pkg/apiserver/service/service.go:204-275 | what the renewal leaves is a run of the lease machine, with the same promise |
| `Retry.RunKeepsInv` | pkg/apiserver/service/service.go:279-307 | in every reachable state one goroutine at most is outstanding and the log explains where the request is |
| `Retry.ChannelDiscipline` | pkg/apiserver/service/service.go:86-105 | a message is only delivered to the call and attempt it belongs to, and none is left when a call returns or the channel closes |
| `Retry.CallRefinesSequential` | pkg/apiserver/service/service.go:279-307 | a call returns what the sequential loop returns for the same answers, unless the request was canceled and the call says so |
| `Retry.CanceledCallIsOver` | pkg/apiserver/service/service.go:287-292 | a call drains only after a cancellation, and then returns the cancellation with the object of the drained reply; no goroutine is started any more |
| `Retry.RequestMakesItsCalls` | pkg/apiserver/service/service.go:86-105 | every call but the current one has succeeded, and a request that ends without an error has made all of them |
| `Retry.NeverStuck` | pkg/apiserver/service/service.go:287-303 | until the channel is closed some step can be taken without a cancellation |
| `Retry.RunsAreBounded` | pkg/apiserver/service/service.go:30-35 | every run of a request is over after a bounded number of steps |
| `Kit.ControllerKit.ProcessNextWorkItem` | pkg/controller/kit/controller_kit.go:219-278 | one item is taken, forgotten exactly on success or when it is no key, and done |
| `Kit.ControllerKit.SyncHandler` | pkg/controller/kit/controller_kit.go:282-314 | an error of a Sync leaves exactly the event it carries and none if it is transient; a success leaves one exactly if it updated something; a failed lookup leaves none |
| `Kit.ControllerKit.HandleObject` | pkg/controller/kit/controller_kit.go:334-379 | exactly the routed custom resources are enqueued, in order |
| `Kit.ControllerKit.HandleObjectUpdate` | pkg/controller/kit/controller_kit.go:381-391 | nothing happens for an unchanged version |
| `Kit.WorkerDiscipline` | pkg/controller/kit/controller_kit.go:219-278 | over every run Gets and Dones of an item match, and the limiter remembers the additions since the item was last synced without error, or was no key |
| `Kit.NoSharedItem` | pkg/controller/kit/controller_kit.go:163-168 | no item is processed by two workers |
| `Kit.ReadyAgainExactlyIfDirty` | pkg/controller/kit/controller_kit.go:252-263 | a finished item is ready again exactly if it became dirty meanwhile, whatever the answer |
| `Kit.IdleWithoutEvents` | pkg/controller/kit/controller_kit.go:252-263 | without a new event an idle item is never taken again, after a transient error as after any other |
| `Kit.EventsAreNotLost` | pkg/controller/kit/controller_kit.go:319-327 | an item with an event stays delayed or dirty until it is taken |
| `Kit.EventOrTransient` | pkg/controller/kit/controller_kit.go:300-308 | an event recorded for an error and the transient branch exclude each other |
| `Kit.RoutesExactly` | pkg/controller/kit/controller_kit.go:334-379 | a change reaches exactly the claim's Distcc and the owner, except a claim known only from a tombstone, and the owner of a claim whose Distcc is missing |
| `Kit.EnqueuedAreDelayed` | pkg/controller/kit/controller_kit.go:352-376 | exactly the routed keys are waiting afterwards |

## Left out

- Labels, selectors and pod templates of a Distcc, the expressions of a client's selector, and the Deployments, Services and claims that listers show: they are values, so sharing of them is not modelled; no code assigns to them.
- Namespaces: every lookup and call of a pass stays in the namespace of its object, so the stores and caches are those of one namespace.
- Errors of calls that took effect anyway: a failing call is modelled as one without effect; a pass that stops at any point is in the machines.
- `Kit.ControllerKit.ProcessNextWorkItem`: blocking in Get and the endless runWorker loop are not modelled; the machine of workers covers runs of any length.
- Contents of pod templates, ports of created Services and the encoding of owner references: only labels, owners, replicas and secret volumes matter to the properties.
- The API server's own validation of what is created: its refusals are among the failures of a Create.
- LeaseDistcc, LeaseClient and the delete requests: their calls of getWithRetry are the request of the retry machine; assembling the response adds nothing to prove.
- Client-go's queue, rate limiter timing, informers and the exponential backoff: only their contracts are modelled, with at most twelve attempts and no timing.
- Client-set plumbing, HTTP routing, JSON, logging and event broadcasting: input and output only.
- Assigning users to ordered hosts (design.md): no code implements it.
- `KubeTime.ToKubeTime`: years outside the format and time zones with seconds are not modelled.
