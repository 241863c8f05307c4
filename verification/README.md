# Verification model of the Azure File CSI driver

The driver keeps shares, accounts, SMB mappings, mounts and copy jobs consistent while calls fail, are
retried and interleave. This project models that state in Dafny, one module per concern, and proves what
every run keeps. Where a promise fails under some circumstance, the circumstance is a field of a policy, and
the main theorem says that the promise holds in every run if and only if the policy excludes it; the failing
run is a lemma of its own.

Protocols are step relations (`Runs.dfy`) in which every foreign call succeeds, fails, or takes effect and
reports failure. Code that works on state is a class whose methods take the same steps and are proved
against the relation or against a specification function; a `reliable` class is one whose foreign calls do not
fail, and its methods then succeed. Encoders and parsers are functions with round
trips. Text is ASCII, where case folding and lower-casing agree.

| file | concern |
|---|---|
| `SmbMapping.dfy` | the Windows host mounter: links that share one host-wide SMB mapping without a counter |
| `AccountRetry.dfy` | CreateVolume's account choice and its recursion |
| `VolumeLocks.dfy`, `LockMap.dfy` | the two kinds of lock |
| `AzcopyJobs.dfy`, `AzcopyCopy.dfy`, `AzcopyPromises.dfy`, `AzcopyCloner.dfy` | reading the azcopy job list; overlapping clone and restore attempts on one share, with rollback |
| `MountPoints.dfy`, `NodeMounts.dfy`, `PodMounts.dfy` | staging and unstaging on Linux, with loop mounts over a share; publishing at pods' paths |
| `FolderTree.dfy`, `SubnetEndpoints.dfy`, `ShareQuota.dfy` | loops that converge on a remote store |
| `VolumeId.dfy`, `AccountKey.dfy`, `WmiEscape.dfy`, `ShareName.dfy` | printed forms and their readers |
| `CaseMaps.dfy` | attribute maps read without regard to case, in any order |
| `Sizing.dfy` | capacities, and IOPS and bandwidth defaults in int32 and float64 |
| `Strings.dfy`, `Numbers.dfy`, `Results.dfy`, `Runs.dfy` | string operations, fixed-width integers, results, runs |

Where the code and its comments differ, the code is modelled:

- The comment on `getValidFileShareName` says that the name has no two hyphens in a row and only letters,
  digits and hyphens. `ShareName.ValidExactly` gives the exact condition for that.
- The formula in the comment on `getDefaultIOPS` is met for premiumv2 only while the sum fits an int32
  (`Sizing.IOPSAsDocumented`).
- CreateVolume's retry releases the volume lock early "to prevent deadlock"; it is released again when the
  outer call returns, which costs the exclusion (`VolumeLocks.ExclusiveExactly`).
- ControllerExpandVolume and ControllerModifyVolume take no volume lock, so two expansions of one volume, or
  an expansion and a modification, can lower its quota (`ShareQuota.NeverShrinksExactly`).
- The comment in `cleanupShareOnFailure` promises not to delete a share that was successfully copied; the
  job list it reads can miss or misname the finished job (`AzcopyPromises.KeepsCopiedExactly`).
- The documented snapshot ID forms do not cover five-field volume IDs, whose snapshot IDs are read as the
  standard form (`VolumeId.SnapshotRoundTrip`).

## Model

| member | source | states |
|---|---|---|
| `SmbMapping.GoodIsSafe` | pkg/mounter/safe_mounter_host_process_windows.go:63-201 | in every interleaving of mounts and unmounts, with links the scan sees, spelled alike, and calls that succeed, every link whose lock is free has its mapping |
| `SmbMapping.RemovalIsJustified` | pkg/mounter/safe_mounter_host_process_windows.go:124-201 | while the scan sees every link, a step that removes a mapping is that of a mount that decided to replace it, or of an unmount when no other link needs it |
| `SmbMapping.RemovalFollowsBadCheck` | pkg/mounter/safe_mounter_host_process_windows.go:131-151 | in every run a mount about to remove a mapping has itself, under its lock, found it disconnected, or reporting OK with a path that is not valid |
| `SmbMapping.HealthyKeptExactly` | pkg/mounter/safe_mounter_host_process_windows.go:124-201 | with status and path validity changing at any time: a mapping that reports OK and passes the path check, from before the remover decided until the removal, is removed only by the unmount of the last link that needs it, if and only if the scan sees every such link and the check of a valid path does not fail, or nothing is mounted |
| `SmbMapping.FailedCheckTakesHealthy` | pkg/mounter/safe_mounter_host_process_windows.go:140-151 | a run in which the path check fails on a valid path and the mount removes a healthy mapping |
| `SmbMapping.UnseenTakesHealthy` | pkg/mounter/safe_mounter_host_process_windows.go:173-201 | a run in which an unmount that does not see another link takes its healthy mapping away |
| `SmbMapping.SafeExactly` | pkg/mounter/safe_mounter_host_process_windows.go:173-201 | for every deployment the promise holds if and only if a mapping once removed is always made again, and wherever an unmount could remove the mapping of a link, all links are under the scanned directory, the spellings read back alike and link calls do not fail |
| `SmbMapping.OneSpellingExactly` | pkg/os/smb/smb.go:107-147 | where all links are scanned, calls succeed and remote paths have no white space around them, every link keeps its mapping if and only if no two remote paths differ in case and trailing backslashes only |
| `SmbMapping.OutsideUnsafe` | pkg/os/smb/smb.go:117-147 | a run in which a link outside the scanned directory loses its mapping |
| `SmbMapping.SpellingUnsafe` | pkg/os/smb/smb.go:107-147 | a run in which two spellings with one lock key do not protect each other's mapping |
| `SmbMapping.CaseUnsafe` | pkg/os/smb/smb.go:107-147 | two different spellings without white space around them, alike but for case and trailing backslashes, do not protect each other's mapping |
| `SmbMapping.NewFailureUnsafe` | pkg/mounter/safe_mounter_host_process_windows.go:139-158 | a run in which a mount removes a mapping, cannot make a new one, and leaves another link without |
| `SmbMapping.LinkFailureUnsafe` | pkg/mounter/safe_mounter_host_process_windows.go:184-200 | a run in which the scan fails to look at a link and the unmount removes that link's mapping |
| `SmbMapping.WinMounter.SMBMount` | pkg/mounter/safe_mounter_host_process_windows.go:63-114 | a mount that succeeds published its link at some moment of its run, with the mapping in place; it removes a mapping only after finding it disconnected or its path not valid; on a reliable host it fails only where it then met a link; it keeps waiting only for a lock that is taken; an empty source changes nothing |
| `SmbMapping.SlashesTurned` | pkg/mounter/safe_mounter_host_process_windows.go:83 | the remote path is the source with its slash-separated parts joined by backslashes |
| `SmbMapping.WinMounter.EnsureSMBGlobalMappingLocked` | pkg/mounter/safe_mounter_host_process_windows.go:124-160 | under the lock, success leaves the remote path mapped; a mapping found OK with a valid path is left in place, one that is removed was found disconnected or its path not valid, and on a reliable host one found so is removed, the path being checked exactly when the mapping reports OK |
| `SmbMapping.WinMounter.CheckForDuplicates` | pkg/os/smb/smb.go:117-147 | "no duplicate" means that no other link needs the mapping, though links of other remote paths change during the scan; on a reliable host "duplicate" means that another link read back as the same path, which without white space around the paths is one spelled exactly so |
| `SmbMapping.WinMounter.Unmount` | pkg/mounter/safe_mounter_host_process_windows.go:173-201 | an unmount is a run of its steps, one that succeeds had its link deleted, while the scan sees every link it removes a mapping only when no other link needs it, and on a reliable host it does not fail, and the mapping of the link it read goes unless another link with the same remote path was seen |
| `SmbMapping.WinMounter.UnmountLockedLink` | pkg/mounter/safe_mounter_host_process_windows.go:181-201 | on a reliable host the mapping goes unless another link with the same remote path was seen |
| `AccountRetry.AtMost` | pkg/azurefile/controllerserver.go:667-722 | with tagging that works and no account made meanwhile, there are at most as many activations as untagged accounts, plus one for each remembered or cached account, plus one |
| `AccountRetry.Attained` | pkg/azurefile/controllerserver.go:769-789 | the bound is met: the remembered account hides the search key, so a stale cache entry costs one more retry |
| `AccountRetry.AtMostBeside` | pkg/azurefile/controllerserver.go:667-789 | beside other callers that fill or empty the cache entry of the same key, tag accounts and untag them, each of their steps brings at most one retry more |
| `AccountRetry.AttainedBeside` | pkg/azurefile/controllerserver.go:667-789 | that bound is met for every number of such steps |
| `AccountRetry.BoundedExactly` | pkg/azurefile/controllerserver.go:769-789 | the recursion is bounded if and only if the request names its account, or one is searched for, none is made for it, and tagging works or there is nothing to tag |
| `AccountRetry.LongRun` | pkg/azurefile/controllerserver.go:706-714 | otherwise a request that searches for an account has chains of every length |
| `AccountRetry.SecretRun` | pkg/azurefile/controllerserver.go:669-789 | a request that brings its account in its secrets retries as it was, so it has chains of every length |
| `AccountRetry.Driver.ChooseAccount` | pkg/azurefile/controllerserver.go:667-722 | the account is the remembered one, else the cached one, else an untagged one, which is then recorded unless its quota is used up |
| `AccountRetry.Driver.Activate` | pkg/azurefile/controllerserver.go:667-790 | one activation: the share is asked for on the chosen account; a refusal (account limit or quota) tags it, forgets it and leads to the retry, a success leaves the account where the next call finds it, any other error is the result |
| `AccountRetry.Driver.CreateVolume` | pkg/azurefile/controllerserver.go:663-790 | the recursion terminates; its activations, counted in a field, form a chain of retries within the bound, each after a refusal that is logged; the account chosen is the one that answered the last request and has the share; exactly the accounts that refused are tagged; other volumes, keys and shares are untouched; with reliable calls only accounts at their limits refuse, and it fails only when every matching account is tagged |
| `VolumeLocks.VolumeLocks.TryAcquire` | pkg/azurefile/volume_lock.go:45-53 | the effect of an acquire in the handlers' steps: it succeeds exactly when the key is free, and the key is locked then |
| `VolumeLocks.VolumeLocks.Release` | pkg/azurefile/volume_lock.go:55-59 | the effect of a release in the handlers' steps: the key is free, whoever held it |
| `VolumeLocks.PairedHandlers` | pkg/azurefile/nodeserver.go:475-479 | in every interleaving of handlers that pair one acquire with one release, no two work on one key and the locked keys are exactly those held |
| `VolumeLocks.NoKeyLost` | pkg/azurefile/controllerserver.go:942-945 | even with retries, once every handler has returned no key is locked |
| `VolumeLocks.RetryLosesExclusion` | pkg/azurefile/controllerserver.go:781-788 | a run in which the retry's second release lets two handlers work on one key |
| `VolumeLocks.ExclusiveExactly` | pkg/azurefile/controllerserver.go:109-117 | handlers exclude each other if and only if none retries or there is only one |
| `LockMap.EntriesStay` | pkg/azurefile/utils.go:85-87 | entries are never removed, so that every caller on a key takes the same mutex |
| `LockMap.GlobalNeverBlocked` | pkg/azurefile/utils.go:63-83 | the holder of the global mutex never waits for an entry and can always go on |
| `LockMap.FreeKeyIsGranted` | pkg/azurefile/utils.go:63-73 | a call on a key nobody holds is granted it by its own steps and those of the global mutex's holder, whatever other threads wait for |
| `LockMap.ExclusiveExactly` | pkg/azurefile/utils.go:75-95 | entries exclude in every interleaving if and only if only holders unlock |
| `LockMap.UnpairedIsNot` | pkg/azurefile/utils.go:75-83 | a run in which one stray unlock lets a second caller in |
| `LockMap.LookupMeetsInsertion` | pkg/azurefile/utils.go:63-91 | two callers and two keys suffice for a run that leads to an unprotected read of the map beside an insertion: the lookup follows the release of the global mutex |
| `LockMap.LookupExactly` | pkg/azurefile/utils.go:63-91 | no lookup ever meets an insertion, if and only if there are not both two callers and two keys |
| `LockMap.LockMap.LockEntry` | pkg/azurefile/utils.go:63-73 | a call that returns holds the entry through the one mutex the entry has had since it was added |
| `LockMap.LockMap.UnlockEntry` | pkg/azurefile/utils.go:75-83 | a call that returns has given back what it held |
| `AzcopyJobs.ParseAzcopyJobList` | pkg/util/util.go:151-185 | the loop computes the specified scan of the segments, also for malformed lists |
| `AzcopyJobs.ParsesListing` | pkg/util/util.go:151-185 | on the printed form of any list of well-formed records the parser gives the state of the first finished record, else running with the last id in progress, else not found |
| `AzcopyJobs.ReportsVerdict` | pkg/util/util.go:101-143 | the reported state is an error when the list cannot be had; otherwise that verdict, but an error when a job in progress cannot be asked for |
| `AzcopyJobs.VerdictTells` | pkg/util/util.go:158-184 | what each verdict says of the records by the status azcopy prints: none in progress and none finished, one in progress and none finished, or one that ended so |
| `AzcopyJobs.PrintedForm` | pkg/util/util.go:104-113 | how a listing of one record looks, written out: its lines in azcopy's order |
| `AzcopyPromises.OneCopyExactly` | pkg/azurefile/controllerserver.go:1392-1434 | over all runs of attempts at most one job copies into a share, if and only if attempts do not overlap and cleaning keeps the records of running jobs |
| `AzcopyPromises.OverlapStartsTwo` | pkg/azurefile/controllerserver.go:109-117 | a run in which two volumes that name one share, locked by their own names, both read that there is no job and both start one |
| `AzcopyPromises.DroppedRecordStartsTwo` | pkg/azurefile/controllerserver.go:1426-1430 | a run in which the cleaning after another share's copy drops the record of a running job, and a second one starts |
| `AzcopyPromises.CleanRollbackExactly` | pkg/azurefile/controllerserver.go:906-929 | no rollback deletes a share under a running copy, if and only if the name was given by the user, or attempts do not overlap, job reads succeed and show no other share's jobs, and cleaning keeps running jobs |
| `AzcopyPromises.SuccessIsCopiedExactly` | pkg/azurefile/controllerserver.go:797-817 | a successful attempt means that a job finished into the share that exists, if and only if jobs end in "Completed", cleaning keeps running jobs, the list shows no other share's jobs, DeleteVolume does not delete the share, and for a generated name job reads succeed and attempts do not overlap |
| `AzcopyPromises.RollbackUnderCopy` | pkg/azurefile/controllerserver.go:910-929 | a run in which a failed read, another share's job, a dropped record or an overlapping attempt lets the rollback delete the share of a running job |
| `AzcopyPromises.KeepsCopiedExactly` | pkg/azurefile/controllerserver.go:912-919 | no rollback deletes a share that a job has finished into, if and only if the name was given by the user, or moreover no attempt follows a success on the share, cleaning after other shares' successes keeps finished jobs and jobs end in "Completed"; the cleaning after its own success does no harm by itself |
| `AzcopyPromises.DeletesCopied` | pkg/azurefile/controllerserver.go:912-919 | a run for each flag in which a rollback deletes the copied share: its record was cleaned, names another ending, is shadowed by another share's job, or could not be read |
| `AzcopyPromises.RepeatDeletes` | pkg/azurefile/controllerserver.go:1426-1430 | a run in which CreateVolume is called again after a success that cleaned the list, fails before copying, and its rollback finds no record and deletes the copied share |
| `AzcopyPromises.JoinedJobVanishes` | pkg/azurefile/controllerserver.go:1398-1408 | a run in which a polled job that ends unfinished counts as a copy |
| `AzcopyPromises.JoinedJobDropped` | pkg/azurefile/controllerserver.go:1398-1408 | a run in which a polled job whose record is dropped counts as a copy |
| `AzcopyPromises.OldRecordPasses` | pkg/azurefile/controllerserver.go:1392-1397 | once a share with a finished record is gone, the next attempt succeeds on a new empty one: the early return leaves the record uncleaned |
| `AzcopyPromises.DeletedByVolume` | pkg/azurefile/controllerserver.go:982 | a run in which DeleteVolume deletes the share, and the old record makes the next clone into it succeed empty |
| `AzcopyPromises.DeletedByRollback` | pkg/azurefile/controllerserver.go:915-926 | a run in which a rollback that could not read the list deletes the share of a finished job, and the next attempt passes on the old record |
| `AzcopyPromises.DeletedByOther` | pkg/azurefile/controllerserver.go:915-926 | a run in which a rollback deletes the share between another attempt's copy and its success |
| `AzcopyPromises.ForeignPasses` | pkg/util/util.go:101-102 | a run in which the search by substring shows another share's finished job, and an attempt succeeds on an empty share |
| `AzcopyCloner.Cloner.CopyFileShareByAzcopy` | pkg/azurefile/controllerserver.go:1376-1434 | a call that ends well has the protocol's success; with a record in progress or finished and no overlap it starts no job, with a finished one and reads that succeed it ends well at once, and a reliable one ends well whenever attempts follow each other and the list shows the share's own jobs |
| `AzcopyCloner.Cloner.Poll` | pkg/azurefile/controllerserver.go:1398-1408 | ends well once a reading is anything but running or failed to be read, badly at the timeout; each round reads the list once and the state is left to others |
| `AzcopyCloner.Cloner.CopyTwice` | pkg/azurefile/controllerserver.go:803-815 | a second copy, with a SAS token, is made exactly after a first one without a token that ended in a permission mismatch, and the last copy's result is the result |
| `AzcopyCloner.Cloner.CleanUp` | pkg/azurefile/controllerserver.go:1426-1430 | the cleaning after a success drops records only, all but those of running jobs when it is reliable, and then the success is reported |
| `AzcopyCloner.Cloner.CleanupShareOnFailure` | pkg/azurefile/controllerserver.go:910-929 | ends the attempt, deleting at most this share, and only if its name was generated and its job was read on the way neither as running nor as completed; a reliable one with a generated name leaves no share unless the job was read as running or completed |
| `AzcopyCloner.Cloner.Attempt` | pkg/azurefile/controllerserver.go:770-817 | one attempt, with the second copy after a permission mismatch and the rollback, is a run of the protocol among other attempts' steps; it deletes the share at most once, only after failing and reading the job so; under the exact conditions success leaves a copied share; a reliable attempt succeeds, or else leaves no share under a generated name unless the job was read as running or completed |
| `MountPoints.EnsureMountPoint` | pkg/azurefile/nodeserver.go:961-1041 | a good mount is left as it is; only a stale one is unmounted and only if asked; an error changes nothing |
| `MountPoints.CleanupMountPoint` | vendor/k8s.io/mount-utils/mount_helper_common.go:31-43 | takes off at most one mount and succeeds only when none is left |
| `NodeMounts.LoopHasShareExactly` | pkg/azurefile/nodeserver.go:615-621 | over every run of stage and unstage calls a VHD volume's loop mount has its share mounted, if and only if share mounts do not go stale |
| `NodeMounts.StaleShareUnmounted` | pkg/azurefile/nodeserver.go:615-618 | a run in which a stale share is unmounted beneath the loop mount that uses it |
| `NodeMounts.NoStackingExactly` | pkg/azurefile/nodeserver.go:615-768 | neither the staging path nor the proxy mount ever carries two mounts, if and only if a share mount that timed out cannot land later |
| `NodeMounts.LateMountStacks` | pkg/azurefile/nodeserver.go:615-687 | a run in which a late mount lands on top of the one its retry made |
| `NodeMounts.Volume.NodeStageVolume` | pkg/azurefile/nodeserver.go:615-768 | repeating a stage on good mounts changes nothing, and success leaves only good ones, the share before the loop |
| `NodeMounts.Volume.NodeUnstageVolume` | pkg/azurefile/nodeserver.go:817-827 | the share's mount is touched only once the staging path is free; success leaves neither |
| `PodMounts.Publisher.NodePublishVolume` | pkg/azurefile/nodeserver.go:262-285 | a call among others on its target: success means that a good mount was there during the call; alone it never unmounts, leaves a good target as it is, reports a stale one, and otherwise adds one bind mount |
| `PodMounts.Publisher.NodeUnpublishVolume` | pkg/azurefile/nodeserver.go:291-325 | unmounts once; success found at most one mount and left none |
| `PodMounts.TargetStacksExactly` | pkg/azurefile/nodeserver.go:254-285 | a pod's target never carries two mounts, if and only if publishes on it, which take no lock, do not overlap, whatever unpublishes and stale mounts come between |
| `PodMounts.PublishesStack` | pkg/azurefile/nodeserver.go:254-285 | a run in which two publishes both find the target free and both bind it |
| `FolderTree.IsValidFolderName` | pkg/azurefile/utils.go:637-676 | accepts exactly the empty name and names that, between the slashes around them, hold only allowed characters and no period, space or slash before a slash or the end |
| `FolderTree.SegmentsExactly` | pkg/azurefile/utils.go:647-674 | checking the segments one by one, "." and ".." included, comes to that condition on each position |
| `FolderTree.SlashesTrimmed` | pkg/azurefile/azurefile.go:1690 | exactly the slashes around the name are taken off |
| `FolderTree.ValidPath` | pkg/azurefile/azurefile.go:1684-1693 | of a valid name the creating loop skips no component, and none leads upwards |
| `FolderTree.ShareTree.CreateFolderIfNotExists` | pkg/azurefile/azurefile.go:1664-1729 | beside writers that add directories: parents before children, nothing removed, all that its own requests create are levels of the path that were missing, none if the path was there, and on success, which reliable requests bring, every level exists; answers may be lost |
| `FolderTree.ShareTree.EnsureLevel` | pkg/azurefile/azurefile.go:1700-1722 | one round makes one level, or finds that another writer made it, or fails; its own requests create nothing else |
| `VolumeId.ValidateVolumeIDSegment` | pkg/azurefile/azurefile.go:615-629 | rejects exactly the values in which two dots stand as a whole path component |
| `VolumeId.ClimbsExactly` | pkg/azurefile/azurefile.go:619-627 | looking among the fields finds exactly those values |
| `VolumeId.PrintedSegments` | pkg/azurefile/controllerserver.go:879-882 | cut at its hashes a printed volume ID is its six fields in order, with a seventh for a subscription other than the driver's |
| `VolumeId.VolumeRoundTrip` | pkg/azurefile/azurefile.go:578-609 | a printed volume ID gives every field back if and only if no path climbs and there is a resource group, or the namespace stands where the migrated form keeps it and no subscription is printed |
| `VolumeId.ShorterForms` | pkg/azurefile/azurefile.go:578-609 | what the forms of one to five fields give back, the migrated one with its namespace |
| `VolumeId.SubscriptionKept` | pkg/azurefile/controllerserver.go:879-882 | later calls resolve to the subscription the share was made in, if and only if it is the driver's own or well formed |
| `VolumeId.ValidSubExactly` | pkg/azurefile/utils.go:47 | a subscription ID is well formed exactly when its parts between hyphens are 8, 4, 4, 4 and 12 hexadecimal digits |
| `VolumeId.SnapshotRoundTrip` | pkg/azurefile/azurefile.go:641-678 | for every volume ID its snapshot ID gives back share, time and subscription, if and only if the ID has three, four or six fields or its later fields repeat what follows |
| `VolumeId.OlderOrder` | pkg/azurefile/azurefile.go:633-639 | the order subscription before time is read the same way for three, four and six fields |
| `VolumeId.WithoutSubscription` | pkg/azurefile/azurefile.go:641-678 | the form that ends with the time: no snapshot ID below four fields, and which longer ones give back share and time |
| `VolumeId.SnapshotOfCreated` | pkg/azurefile/controllerserver.go:1232 | from CreateVolume to DeleteSnapshot: the snapshot deleted is the one taken, on the same account, share and subscription |
| `CaseMaps.Attributes.Set` | pkg/azurefile/utils.go:380-390 | in every visiting order, afterwards the key is its only spelling and nothing else has changed |
| `CaseMaps.Attributes.CollidingKey` | pkg/azurefile/utils.go:395-412 | reports a collision exactly when there is one |
| `CaseMaps.Attributes.Get` | pkg/azurefile/utils.go:416-426 | gives some spelling's value, the only one when no keys collide |
| `CaseMaps.Attributes.RewriteInline` | pkg/azurefile/nodeserver.go:104-142 | colliding keys are refused; otherwise the secret's namespace becomes the pod's, no collision arises, for key access by secret the account is left to the secret, and every attribute that spells none of the rewritten ones keeps its value, the account too without key access by secret |
| `CaseMaps.ReadAll` | pkg/azurefile/azurefile.go:901-946 | the loop over the map is a fold over its keys in some order |
| `CaseMaps.OrderFreeExactly` | pkg/azurefile/nodeserver.go:379-447 | a reading loop gives one outcome under every order, if and only if some value is refused or no two attributes disagree about a variable |
| `CaseMaps.NoCollisionNoOrder` | pkg/azurefile/utils.go:392-412 | without colliding keys the outcome is one, and each variable holds what a lookup by name finds |
| `CaseMaps.InlineReadsOneWay` | pkg/azurefile/azurefile.go:901-946 | so it is for the two loops of GetAccountInfo and NodeStageVolume |
| `CaseMaps.AccountReadsText` | pkg/azurefile/azurefile.go:901-946 | without colliding keys, under every order and if the loop of GetAccountInfo accepts, each of eleven text attributes is read as its one spelling gives it, or stays as it started |
| `CaseMaps.AccountReadsFlag` | pkg/azurefile/azurefile.go:923-941 | each of four booleans is true or false exactly as one of the accepted spellings says |
| `CaseMaps.AccountReadsKeySource` | pkg/azurefile/azurefile.go:909-912 | the key is left to the secret exactly by "true" in any case |
| `CaseMaps.AccountAccepts` | pkg/azurefile/azurefile.go:922-942 | the loop refuses exactly the maps in which one of the four booleans is spelled otherwise |
| `CaseMaps.StageReadsText` | pkg/azurefile/nodeserver.go:379-447 | likewise for the loop of NodeStageVolume and its eleven text attributes |
| `CaseMaps.StageReadsFlag` | pkg/azurefile/nodeserver.go:424-444 | likewise for its four booleans |
| `CaseMaps.StageReadsWhether` | pkg/azurefile/nodeserver.go:394-399 | two flags are whether their attribute is "true" in any case |
| `CaseMaps.StageReadsFolder` | pkg/azurefile/nodeserver.go:387-393 | the folder is read without the slashes around it, and is valid |
| `CaseMaps.StageReadsPermissions` | pkg/azurefile/nodeserver.go:412-423 | mount permissions are read as octal numbers of 32 bits, of which zero only clears the chmod flag |
| `CaseMaps.OctalPlaces` | pkg/azurefile/nodeserver.go:412-423 | the number read: each digit counts for the power of eight of its place |
| `CaseMaps.StageAccepts` | pkg/azurefile/nodeserver.go:387-444 | the loop refuses exactly the maps with a boolean spelled otherwise, an invalid folder name, or permissions that are no such number |
| `CaseMaps.InlineNamespace` | pkg/azurefile/nodeserver.go:110 | after the rewriting every reading order looks for the secret in the pod's namespace |
| `ShareQuota.RoutesAgreeExactly` | pkg/azurefile/azurefile_mgmt_client.go:100-114 | the three resize routes give the larger of the old quota and the size, if and only if the size is below 2^31 GiB |
| `ShareQuota.ShrinksExactly` | pkg/azurefile/azurefile_dataplane_client.go:103-121 | which routes and sizes can lower a quota |
| `ShareQuota.NeverShrinksExactly` | pkg/azurefile/controllerserver.go:1513 | over all runs of creations, expansions, modifications and deletions with lost answers and retries the quota never falls, if and only if no expansion overlaps another or a modification by the management client, neither of these overlaps a deletion, and sizes of 2^31 GiB and more do not go by the management client; creations and modifications among themselves never lower it |
| `ShareQuota.UndercutShrinks` | pkg/azurefile/azurefile_mgmt_client.go:128-147 | runs in which a call sets an old quota over a larger one: an expansion or a modification, which writes the whole share back, over another expansion's or that of the share made anew after a deletion |
| `ShareQuota.HugeShrinks` | pkg/azurefile/azurefile_mgmt_client.go:100-114 | a run in which the management client compares a size beyond int32 and sets what is left of it |
| `ShareQuota.ProvidesExactly` | pkg/azurefile/controllerserver.go:736-750 | a call that succeeds has provided the size it reports, if and only if moreover creations do not overlap each other, the capacity check is made and sizes stay below 2^31 GiB; deletions amid a creation do no harm |
| `ShareQuota.UndercutFallsShort` | pkg/azurefile/controllerserver.go:736-750 | a run in which the quota is lowered between a creation's check and its success |
| `ShareQuota.OverlapFallsShort` | pkg/azurefile/azurefile.go:1203-1208 | a run in which two volumes on one named share both find it missing and the larger succeeds on the smaller share |
| `ShareQuota.UncheckedFallsShort` | pkg/azurefile/controllerserver.go:736-744 | a run in which the skipped check accepts a smaller share |
| `ShareQuota.HugeFallsShort` | pkg/azurefile/azurefile_dataplane_client.go:87-95 | a run in which a size beyond int32 makes a share of what is left of it |
| `ShareQuota.AloneIsRun` | pkg/azurefile/controllerserver.go:1767-1848 | what one call does alone, as the methods below state it, is a run among any other calls |
| `ShareQuota.Shares.CreateFileShare` | pkg/azurefile/azurefile.go:1175-1224 | a chain of the protocol's moves: an existing share is left as it is and nothing is requested for it when calls are reliable, a missing one is made once, within the configured number of requests |
| `ShareQuota.Shares.ResizeFileShare` | pkg/azurefile/azurefile.go:1278-1321 | a chain of the protocol's moves: only this share changes, only to what the route makes of its quota, with no request when that is no more and calls are reliable; the driver's own request ends at the first read that fails; all within the configured number of requests |
| `ShareQuota.Shares.ModifyFileShare` | pkg/azurefile/azurefile.go:1324-1361 | a chain of the protocol's moves: alone it leaves every quota as it was, by the management route with requests that set the quota, by the data plane's with none, within the configured number of requests |
| `ShareQuota.Shares.CreateVolume` | pkg/azurefile/controllerserver.go:734-796 | a chain of the protocol's moves: a share smaller than reported was there before and unchecked |
| `WmiEscape.UserEscapedOnce` | pkg/os/wmi/smb.go:46-51 | the two replacements escape each character once |
| `WmiEscape.CredentialRoundTrip` | pkg/os/wmi/smb.go:112-116 | a reader that stops at the first unescaped colon recovers exactly the user name and the password |
| `WmiEscape.CredentialInjective` | pkg/os/wmi/smb.go:112-116 | only callers without a user name share a credential |
| `WmiEscape.LiteralRoundTrip` | pkg/os/wmi/wmi.go:170-177 | a reader of a quoted literal recovers the value and what follows it, if and only if no quote follows |
| `WmiEscape.ConditionsRoundTrip` | pkg/os/wmi/wmi.go:140-151 | the joined conditions are read back one by one, whatever their values hold |
| `WmiEscape.QueryInjective` | pkg/os/wmi/wmi.go:153-168 | queries on one class and selection have one text only if they have the same conditions |
| `WmiEscape.QueryBuilder.Build` | pkg/os/wmi/wmi.go:153-168 | the text built from the builder's fields |
| `WmiEscape.QueryBuilder.WithCondition` | pkg/os/wmi/wmi.go:130-133 | appends one condition and changes nothing else |
| `WmiEscape.SmbMappingQuery` | pkg/os/wmi/smb.go:61-65 | builds the query, in the SMB namespace, that finds or removes the mapping of one remote path; behind its head a reader finds one condition, that RemotePath is that path |
| `WmiEscape.MappingQueryRoundTrip` | pkg/os/wmi/smb.go:83-87 | no two remote paths share that query, and the text of its condition gives the path back |
| `SubnetEndpoints.EquippedMeans` | pkg/azurefile/azure.go:285-303 | a listed subnet without a storage endpoint gets one for the location behind those it has; every listed subnet then has one and nothing else changes |
| `SubnetEndpoints.Converges` | pkg/azurefile/azure.go:262-308 | a partial run followed by a complete one leaves what the complete one would have left |
| `SubnetEndpoints.RightExactly` | pkg/azurefile/azure.go:233-242 | over every run of calls and of changes that others make to the networks, each answer is right when it is given, if and only if no two requests have one cache key, none is for a whole network while subnets are added, and none is served while subnets or endpoints are taken away |
| `SubnetEndpoints.WrongAnswer` | pkg/azurefile/azure.go:233-242 | two different requests with one key give a run in which the second is answered with the subnets of the first |
| `SubnetEndpoints.OldAnswer` | pkg/azurefile/azure.go:233-242 | a run in which the network changes while an answer is cached, and the answer given next is out of date |
| `SubnetEndpoints.KeysRunTogether` | pkg/azurefile/azure.go:233 | such requests exist: moving the border between resource group and network changes the request and not the key |
| `SubnetEndpoints.SubnetUpdater.EquipOne` | pkg/azurefile/azure.go:273-302 | a subnet with the endpoint is not written, another is written once, and a lost answer leaves it as it was or done |
| `SubnetEndpoints.ResourceParts` | pkg/azurefile/azurefile.go:75 | the printed resource ID, cut at its slashes, holds the subscription, the group, the network and the name where they belong |
| `SubnetEndpoints.ResourceIDsDiffer` | pkg/azurefile/azurefile.go:1508-1528 | two different subnets never get one ID, when no part has a slash |
| `SubnetEndpoints.SubnetUpdater.UpdateSubnetServiceEndpoints` | pkg/azurefile/azure.go:210-309 | the method is one call of those runs: an answer has one ID per subnet in order, from which a reader recovers subscription, group, network and name; off the cache they are those of the request, all with the endpoint; a failed call has done the first part of a complete one; nothing is written when all had it; reliable requests for subnets that exist succeed |
| `AccountKey.KeyInjective` | pkg/azurefile/controllerserver.go:673-680 | requests share a cached account if and only if they agree on all 28 printed options, when only the tags can hold a bar |
| `AccountKey.KeyReads` | pkg/azurefile/controllerserver.go:673-680 | a reader that cuts the key at its bars finds the options in the order they are printed in, when the tags hold no bar either |
| `AccountKey.InjectiveExactly` | pkg/azurefile/controllerserver.go:673-680 | the joined form determines its fields if and only if at most one place may hold bars |
| `Sizing.ShareSize` | pkg/azurefile/controllerserver.go:102-107 | the least whole number of GiB that holds the request and meets the minimum of the kind of share; 100 GiB without one; a negative request of a GiB or more is cut toward zero and meets only a minimum above 1 |
| `Sizing.MinimumExactly` | pkg/azurefile/controllerserver.go:536-552 | the least size: 32 GiB where "v2" occurs in the account type in lower case, else 100 where it begins with "premium" |
| `Sizing.RoundsUp` | pkg/util/util.go:73-79 | truncating division with the remainder test rounds up exactly |
| `Sizing.NoOverflowExactly` | pkg/azurefile/controllerserver.go:894 | the reported bytes are the share's true size, if and only if the request is at most 2^63 - 2^30 |
| `Sizing.FloatCeilExact` | pkg/azurefile/utils.go:551-560 | the float64 product rounded up equals the exact quotient rounded up for every size, whichever way ties go |
| `Sizing.BandwidthAsDocumented` | pkg/azurefile/utils.go:572-582 | for every account type and size the default bandwidth is the documented formula, or none, without int32 overflow |
| `Sizing.IOPSAsDocumented` | pkg/azurefile/utils.go:551-562 | the default IOPS are the documented formula, or none, for every account type but premiumv2; for that if and only if the sum fits an int32 or wraps to at least the cap |
| `Sizing.SkuExactly` | pkg/azurefile/utils.go:551-580 | the kind of an account type, by what occurs in its name in lower case |
| `Sizing.DocumentedMonotone` | pkg/azurefile/utils.go:542-571 | a larger share never gets less |
| `ShareName.RunsHalved` | pkg/azurefile/azurefile.go:814 | replacing double hyphens shortens a run of k to the upper half of k |
| `ShareName.NameShape` | pkg/azurefile/azurefile.go:805-817 | 3 to 63 characters, none upper case, a letter or digit at either end, runs of hyphens halved |
| `ShareName.ValidExactly` | pkg/azurefile/azurefile.go:799-817 | the name keeps all of Azure's rules, if and only if it was regenerated, or the part used has only letters, digits and hyphens and no three hyphens in a row |
| `ShareName.ValidStays` | pkg/azurefile/azurefile.go:799-817 | a name that keeps the rules is its own share name |
| `ShareName.NameExactly` | pkg/azurefile/azurefile.go:803-817 | of any other the first 63 characters, in lower case and with halved runs of hyphens, are the name if they begin and end well and are 3 at least; if not, the name is "pvc-file-dynamic-" and the UUID |
| `ShareName.GenerateVolumeName` | pkg/util/util.go:227-237 | the name fits, ends with a dash and the whole volume name, and starts with what fits of the prefix |
| `ShareName.GeneratedShape` | pkg/azurefile/azurefile.go:810-813 | the fallback name keeps the rules whatever UUID is drawn |

## Left out

- Waiting: calls of the two lock maps and of polling are watched for a number of rounds given by the caller; a longer wait is an unfinished run.
- LockMap.LookupMeetsInsertion: the run ends with the two accesses side by side; what the Go runtime does then is not modelled.
- SMB: whether two lock keys name one server share, credentials, and the CIM and PowerShell front ends; a mapping is identified by the lock key of its remote path.
- AccountRetry.Driver.CreateVolume: an account is searched for, the call is alone, tagging takes effect and no account is made meanwhile; the other cases are in `AccountRetry.BoundedExactly`, other callers in `AccountRetry.AtMostBeside`.
- The expiry of cached entries: an entry that disappears is a view without it.
- AzcopyJobs.ReportsVerdict: speaks of the records the search yields; which those are is the `foreign` policy of `AzcopyCopy`, where records of other shares come and change freely.
- AzcopyCloner.Cloner.Attempt: the share is created or the attempt ends; the account retry inside one attempt is in `AccountRetry`. A job is counted as copied when it ends in any of the four states that the driver takes for completed.
- PodMounts.Publisher.NodePublishVolume: only the bind mount; Windows, Kata volumes, the refreshing of credentials and the inline volumes that are staged at the target are not modelled.
- FolderTree.ShareTree.CreateFolderIfNotExists: other writers add directories and remove none.
- WmiEscape.QueryBuilder.Build: the selectors are a field; `Select`, which nothing in the driver calls, is not modelled.
- CaseMaps.Attributes.RewriteInline: the checks between the rewrites (mount options, authentication modes, authorization) are not modelled; a nil map is not modelled.
- CaseMaps.InlineReadsOneWay: speaks of acceptance and values; which of several error messages is returned may depend on the order.
- ShareQuota.ProvidesExactly: creation of a share that exists changes nothing, as the service documents; a request takes effect before its answer or failure is seen, or not at all; the values of IOPS and bandwidth are not followed.
- WmiEscape.ConditionsRoundTrip: string, integer and boolean values; formatting of other types, which no caller passes, is not modelled. The reader's grammar (doubled quotes and backslash escapes) is that of WQL literals.
- SubnetEndpoints.SubnetUpdater.UpdateSubnetServiceEndpoints: calls follow each other, others change the networks between calls and not within one, and cached answers do not expire; the vnet and resource group defaults are filled in before.
- AccountKey.KeyInjective: the tags field is taken as printed; `serializeTags` itself, JSON with sorted keys, is not modelled.
- Sizing.FloatCeilExact: the exponent range of float64 is unbounded, which these magnitudes never reach.
- Credential acquisition, SAS tokens, workload identity, access reviews and inline server validation.
- Soft-delete handling, the retries of DeleteFileShare, throttling back-off times, metrics and logging.
- classifyMountError, the supported-value lists and the capability checks: one reading of a branch settles them.
