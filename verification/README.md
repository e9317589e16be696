# Runtime enforcer: a verified model

The runtime enforcer decides, for every exec in a Kubernetes container, whether the
executable is on the allow-list of the container's `WorkloadPolicy`. An agent on each node
compiles policies into kernel maps, an LSM hook reads them, and a controller learns,
promotes and reports. This project models those parts in Dafny and proves what they
achieve together:

* **Enforcement** (`StringMaps`, `PathWalk`, `ExecHook`, `BpfManager`, `ResolverState`,
  `Resolver`, `Enforcement`; the `*Proofs` modules hold the lemmas). The resolver keeps
  pods, policies and policy ids and writes four kernel maps; the hook renders the path of
  the executed file backwards into a per-CPU buffer and looks it up. The main result is one
  theorem across agent and kernel: on the maps the resolver wrote, the hook's verdict is
  the one the spec asks for (`Enforcement.EnforcedAsSpecified`, and `Enforcement.Decide` for
  the hook's own code), for every exec in the container's subtree of cgroups
  (`Enforcement.EnforcedInSubtree`). Its hypotheses hold in every state of every run:
  `Enforcement.Run` performs any list of operations and returns a system that carries that
  very list and the state after each operation.
* **Cgroup tracking** (`CgTracker`). A walk of a container's cgroup directory runs against
  mkdir, rmdir, release and the walks of other containers, interleaved in any way
  (`CgTracker.Walked` is the trace of a schedule); whenever it ends, the tracker attributes
  exactly the container's subtree to the container, and every later event keeps it so.
* **Learning and promotion** (`Proposals`, `Promotion`). Agents, a user and the controller
  act on an API server with optimistic concurrency and caches of any age; `Promotion.Run`
  takes any list of their events to the state `Promotion.RunOf` defines. A promoted policy
  has the rules of a later version of its proposal exactly if nothing was learnt in between,
  and nothing is learnt while the label is on.
* **Violations** (`ViolationBuffer`, `Scrape`, `Violations`, `PolicyStatus`, `NodeStatus`, with
  `Sorting` and `Decimal`). Ring buffer, scrape of all nodes, merge, trimming, clearing,
  acknowledgement and node status. `PolicyStatus.Run` takes any list of rounds through the
  statuses that `PolicyStatus.Rounds` defines. The count is the number of events of the
  readable rounds, each is counted once, in an active, an acknowledged or a gone record of its
  key, and a record goes only for one of three reasons (`PolicyStatus.GoneWhy`).

State that the source updates in place is a class; its methods are proved against
specification functions and predicates over plain values, and the properties are lemmas on
those. `BpfManager.Manager.trace` holds the kernel maps after every single write. A hook on
another CPU makes several lookups, each in whatever state it finds: `BpfManager.Safe` speaks
of both lookups in one state, `BpfManager.TwoReads` of a binding found in one state and its
settings looked for in a later one.

**Assumptions.** BPF map calls succeed. Live containers have distinct, non-zero cgroup ids,
and container subtrees do not nest. A namespace holds no slash, so a policy key is a pair; a
policy has a name. Rule pointers are not nil. Allowed strings and path components hold no NUL.
Policy ids, resource versions and counters do not wrap. Every write of a proposal goes
through the webhook. A cgroup mkdir and its hook are one step, cgroup ids are not reused, a
directory of the cgroup file system can be read as long as it exists, and a container's
cgroup path is not created a second time. A scrape has one report a node, at a time other
than zero, and no node is named "...". Inputs that are foreign calls in the source
(whether an exec is a runtime bootstrap or crosses a root, what a cache returns, the clock)
are parameters.

**Statements that are false of the code as one would first put them**, each with the exact
condition under which they hold:

* A listed path matches in the hook exactly outside the lengths 121 to 144, where agent and
  hook pick different maps (`StringMaps.IndexAgreement`, `StringMaps.KernelLookupExact`); a
  path over 4096 bytes is looked up by its first 4096, one over 8192 by what its offset and
  its length modulo 65536 leave of it (`ExecHook.HookLookupExact`). A path of exactly 8192
  bytes is never denied (`ExecHook.NeverDenied`).
* The agent decodes the resolved path, whatever its length, exactly up to 4094 bytes
  (`ExecHook.DeliveryLimit`; `ExecHook.DeliveredPath` says what it decodes beyond).
* The padding behind the path stays clean exactly if no component of a walk straddles the end
  of the second segment: for one component (`PathWalk.PaddingNext`), one walk
  (`PathWalk.BpfDPathApprox`), one exec (`ExecHook.EnforceCgroupPolicy`) and all execs of a CPU
  (`ExecHook.RunAll`). 82 directories with names of 100 bytes dirty it (`PathWalk.DirtyChain`,
  `ExecHook.DirtyExec`). After that a path is still judged as listed exactly if it fills its
  key, or is listed just if a listed string extends it as the padding does
  (`ExecHook.DirtyVerdict`); in `ExecHook.DirtyRun` a listed file is denied.
* After a reconciliation a policy has ids for the containers of the spec alone exactly if
  some matching pod carried each dropped container (`Enforcement.NoStaleIff`;
  `Enforcement.DroppedNameBindsLater` is a run where a later pod is bound to a dropped id).
* Every single state of a reconciliation has settings for all that is bound exactly if no
  dropped container name is carried twice (`Resolver.ResolverCache.ReconcileWP`;
  `Enforcement.SharedNameDropped` is a run where one has not).
* A hook that has found an id finds its settings later in the same operation, or just after
  it, exactly if nothing is bound to a dropped container's id when a reconciliation begins
  (`Resolver.ResolverCache.ReconcileWP`), or to the policy when a deletion does
  (`Resolver.ResolverCache.HandleWPDelete`); no other operation can make it miss them
  (`Enforcement.Perform`). In `Enforcement.DeletedUnderneath` every single state has settings
  for all that is bound, and such a hook misses them.
* After an add every cached container is bound as its policy says exactly if no container was
  cached before a clash that its policy names (`Enforcement.AddCompleteIff`;
  `Enforcement.RejectedReAdd` is a run where a rejected re-add leaves one unbound).
* Unless a user edits rules, a promoted policy has the rules of a later version of its proposal
  exactly if nothing was learnt since the version the controller saw, so as long as the label
  stays on (`Promotion.PromotedIsFinal`; in `Promotion.WithdrawnRun` the label is withdrawn).
* The first-observed time of a new record is the earliest of its events exactly if they all
  have one time, events of a key being newest first (`Violations.FirstObservedIff`, and
  `Scrape.FirstObserved` for what a scrape delivers; `Violations.StampedLate` is a batch that
  is stamped late).
* A violation is cleared exactly if the hook now lets the exec pass, but for listed paths of 121
  to 144 bytes, which are cleared and still denied (`PolicyStatus.ClearedIffPermitted`).
* A record that is acknowledged is listed as acknowledged exactly if fewer than 100 go before
  it (`PolicyStatus.KeptIff`).
* A node's time is that of the round in which its code began if it was among the first 19 of
  its group ever since (`NodeStatus.SinceTrue`); in general it is when the node was last listed
  anew under that code (`NodeStatus.Run`).

**Where code and documentation differ** the model follows the code: `violationCount` is
documented as the number of unique records and counts events
(api/v1alpha1/workloadpolicy_types.go:80-87, api/v1alpha1/violation_record.go:147);
`firstObservedTimestamp` is documented as the earliest time known; and the header comment of
bpf/string_maps.h lists key sizes that the code does not use.

## Model

| member | source | states |
|---|---|---|
| `Bytes.PadInjective` | internal/bpf/policy_values.go:134-135 | NUL padding to a common size keeps NUL-free strings apart |
| `Bytes.LittleEndianRoundTrip` | internal/bpf/events_common.go:89-120 | a number written in as many bytes as it needs is read back |
| `StringMaps.IndexAgreement` | bpf/main.c:569-616 | the hook's map index is in range, and equals the agent's exactly outside lengths 121 to 144 |
| `StringMaps.AgentIndex` | internal/bpf/policy_values.go:81-103 | every length has one sub-map whose key size is its padded length, and fits it |
| `StringMaps.PutValueInMap` | internal/bpf/policy_values.go:138-153 | a value is refused exactly for a bad length, and otherwise goes padded into the sub-map of its size and no other |
| `StringMaps.ConvertValues` | internal/bpf/policy_values.go:155-163 | fails exactly on a list with a bad string; otherwise each sub-map holds exactly the padded strings of its size |
| `StringMaps.BucketMember` | internal/bpf/policy_values.go:165-211 | a padded path is in a bucket exactly if the path is listed and belongs to it |
| `StringMaps.KernelLookupExact` | bpf/main.c:777-799 | the hook's lookup in compiled maps is list membership, blind at 121 to 144 and cut at 4096, in both directions |
| `PathWalk.OffsetPlace` | bpf/d_path_resolution.h:17-21 | the masked 32-bit offset of a path of any length is the place of its first byte when the first two segments are taken round and round |
| `PathWalk.WalkSplit` | bpf/d_path_resolution.h:66-99 | the walk up from any point prepends exactly the components that the path of that point, defined without the walk, ends with |
| `PathWalk.OneStep` | bpf/d_path_resolution.h:66-99 | one step against the path that recursion on dentries and mounts defines: the parent below a mount's root, the mountpoint in the mount above at it, and the top exactly where nothing is left |
| `PathWalk.MountCrossed` | bpf/d_path_resolution.h:81-98 | inside a mount the walk writes exactly the names below its root, then goes on at the mountpoint |
| `PathWalk.VolumePath` | bpf/d_path_resolution.h:88-96 | a file at the root of a volume is named by the directory the volume is mounted on, and marked once deleted |
| `PathWalk.CopyName` | bpf/d_path_resolution.h:54-64 | writes a slash and the name right before the offset, in 32-bit arithmetic |
| `PathWalk.PaddingNext` | bpf/d_path_resolution.h:54-64 | copying a component writes into the third segment exactly when it straddles its start, and then a byte of the name comes first there |
| `PathWalk.ShowsNext` | bpf/d_path_resolution.h:54-64 | whether it straddles or not, after one more component the buffer shows the path from its place up to the end of the second segment |
| `PathWalk.PathReadData.PathRead` | bpf/d_path_resolution.h:66-99 | one step copies the component, goes from a mount's root to its mountpoint in the mount above, or stops at the top |
| `PathWalk.WalkUp` | bpf/d_path_resolution.h:159-182 | the bounded loop takes the walk as many steps as it has, with offset, buffer and padding as those steps leave them, and resolves exactly if the top was reached |
| `PathWalk.BpfDPathApprox` | bpf/d_path_resolution.h:123-200 | for every dentry and mount chain: the offset is 0 if as many names and mounts lie above the file as the bound, and else 8192 minus the length in 32 bits; below 8192 bytes exactly the root-to-leaf path, across all mounts and with its deleted suffix, is written; at any length the path shows from its offset up to the padding, which is untouched exactly if no step straddles it |
| `PathWalk.ShortIsClean` | bpf/d_path_resolution.h:54-99 | a walk that renders up to 8192 bytes straddles nowhere |
| `PathWalk.DirtyChain` | bpf/d_path_resolution.h:54-99 | 82 directories with names of 100 bytes are resolved and straddle the padding |
| `PathWalk.FilePathIsCString` | bpf/d_path_resolution.h:123-200 | a rendered path is not empty and holds no NUL |
| `ExecHook.ProcessEvt.PopulateWithPath` | bpf/main.c:500-521 | offset 0 exactly for a path that is unresolved or 8192 bytes long; else offset and length in 32 and 16 bits; what the buffer and the padding hold, for paths of any length |
| `ExecHook.ProcessEvt.CopyOut` | bpf/main.c:805-818 | the path is copied to the front of the buffer, as masked lengths allow |
| `ExecHook.Matches` | bpf/main.c:777-799 | the lookup at the offset is that of the visible part of the path followed by whatever padding there is |
| `ExecHook.HookLookupExact` | bpf/main.c:777-799 | over clean padding the lookup of a path of any length is membership of what the hook sees of it, in both directions |
| `ExecHook.LearnExec` | bpf/main.c:645-708 | an exec without policy is reported exactly if learning is on and it is foreign, or resolved and not 8192 bytes long, with what the agent decodes; it is never reported as a violation |
| `ExecHook.CopyRecord` | bpf/main.c:801-833 | for a path of any length the record decodes to tracker id, mode and foreign flag with what is delivered of the path over the old first segment, and to nothing if the length modulo 65536 is over 4096 |
| `ExecHook.CheckForeign` | bpf/main.c:723-761 | a foreign exec is denied exactly without opt-out and unless only monitored |
| `ExecHook.CheckLocal` | bpf/main.c:763-843 | a local exec is denied exactly for a lookup miss under settings that protect, over any padding |
| `ExecHook.EnforceCgroupPolicy` | bpf/main.c:619-843 | for every exec, verdict and report are functions of maps, exec, path and the padding it leaves; that is the padding it found exactly if the hook does not walk or no step straddles; a runtime bootstrap and an exec outside all containers pass, silently and with the buffer untouched |
| `ExecHook.Exempt` | bpf/main.c:619-826 | over any padding and for any path: bootstraps and untracked execs pass unreported and leave the padding alone; execs without policy, without settings, only monitored, opted out or unresolved are not denied, and what is reported of them |
| `ExecHook.RunAll` | bpf/main.c:474-521 | over any sequence of execs on one CPU, from the zeroed event on, every verdict and report is that of its own exec over the padding at that point, which changes exactly in execs that dirty it and then begins with another byte than NUL; up to the first of those it is as over NULs; the padding ends clean exactly if there is none |
| `ExecHook.CleanUntil` | bpf/main.c:474-521 | the padding is one of NULs exactly until an exec dirties it, and never again after |
| `ExecHook.ShortExecIsClean` | bpf/main.c:500-521 | an exec whose walk renders up to 8192 bytes leaves the padding alone |
| `ExecHook.NeverDenied` | bpf/main.c:500-521 | a file below 32 directories with names of 255 bytes has a path of 8192 bytes, is resolved and is denied by no policy |
| `ExecHook.DirtyExec` | bpf/main.c:619-721 | an exec below 82 directories with names of 100 bytes is resolved and dirties the padding |
| `ExecHook.DirtyLookupExact` | bpf/main.c:777-799 | over a dirty padding a path of any length that fills its key is found exactly if it is listed, and one that does not exactly if a listed string extends it as the padding does |
| `ExecHook.DirtyVerdict` | bpf/main.c:763-843 | the verdict over a dirty padding is that over NULs exactly if the path fills its key, or is listed just if a listed string extends it so |
| `ExecHook.PaddingIgnored` | bpf/main.c:619-843 | foreign, monitored, unbound and unresolved execs and paths that fill their key are judged alike over every padding |
| `ExecHook.DirtyRun` | bpf/main.c:619-843 | after an exec that dirtied the padding, a listed path that does not fill its key, and that no listed string begins with, is denied |
| `ExecHook.DecodeRecord` | internal/bpf/events_common.go:89-120 | what the agent makes of any record, including refused lengths |
| `ExecHook.DeliveredPath` | internal/bpf/events_common.go:89-120 | what arrives of a path of any length over any buffer: as many of its first bytes as its length modulo 65536 says up to 4094; at 4095 the leftovers, at 4096 its first byte, six leftovers and NULs; nothing above |
| `ExecHook.DeliveryLimit` | bpf/main.c:805-833 | a path of any length arrives whole over every buffer that shows it exactly up to 4094 bytes |
| `BpfManager.Manager.AddPolicyToCgroups` | internal/bpf/cgroup_policy.go:38-71 | succeeds exactly for a non-zero id and cgroups that are free or already its own; never rebinds |
| `BpfManager.Manager.RemovePolicyFromCgroups` | internal/bpf/cgroup_policy.go:73-108 | exactly the bindings of the id go, and every state in between is a subset |
| `BpfManager.Manager.RemoveCgroups` | internal/bpf/cgroup_policy.go:110-127 | exactly the bindings of the cgroups go; a non-zero id is refused |
| `BpfManager.Manager.UpdatePolicySettings` | internal/bpf/policy_settings_operation.go:20-36 | one write, the settings of one id |
| `BpfManager.Manager.DeletePolicySettings` | internal/bpf/policy_settings_operation.go:38-48 | one write, the settings of one id |
| `BpfManager.Manager.BuildInner` | internal/bpf/policy_values.go:190-200 | an inner map filled from raw keys holds exactly the bucket of the list |
| `BpfManager.Manager.GenerateBPFMaps` | internal/bpf/policy_values.go:213-236 | an id without strings gets maps that denote the list; a bad list writes nothing |
| `BpfManager.Manager.ReplaceBPFMaps` | internal/bpf/policy_values.go:247-270 | the maps denote the new list whatever they held, other ids keep theirs, and each state in between has every bucket old or new |
| `BpfManager.LookupDuringReplace` | internal/bpf/policy_values.go:247-270 | a lookup during a replacement, over any padding, answers as the old or as the new list does |
| `BpfManager.Manager.RemoveBPFMaps` | internal/bpf/policy_values.go:238-245 | an id's strings go and nothing else |
| `BpfManager.EpochFinds` | bpf/main.c:645-826 | if every id bound at any time had settings at first and none of those was deleted, a hook finds the settings of any id it has found, in any later state |
| `BpfManager.TwoPhases` | bpf/main.c:645-826 | after a phase that binds nothing new and loses nothing, the two-lookup property of the whole is that of the rest |
| `Resolver.ResolverCache.constructor` | internal/resolver/resolver.go:29-50 | the empty resolver satisfies the invariant; ids start at 1 |
| `Resolver.ResolverCache.AllocPolicyID` | internal/resolver/policy.go:36-40 | ids are issued in order and their owner is recorded for good |
| `Resolver.ResolverCache.UpsertPolicyIDInBPF` | internal/resolver/policy.go:44-58 | the kernel enforces mode, flag and list under the id, or nothing was written; other ids keep their data; no state lacks settings for what is bound; when the id is replaced, each state in between has its settings old or new and each bucket old or new |
| `Resolver.ResolverCache.ClearPolicyIDFromBPF` | internal/resolver/policy.go:62-75 | an id's data go; every state has settings for all that is bound if nothing is bound to the id |
| `Resolver.ResolverCache.ApplyPolicyToPod` | internal/resolver/policy.go:79-96 | binds exactly the pod's containers that are named, and fails only on a clash |
| `Resolver.ResolverCache.RemovePolicyFromPod` | internal/resolver/policy.go:101-123 | strips exactly the dropped containers of the pod from policy, bindings and kernel data; single states have settings for all that is bound if those containers hold their ids alone, and a shared id shows |
| `Resolver.ResolverCache.ApplyPolicyToPodIfPresent` | internal/resolver/policy.go:126-154 | completes the join for the pod and tells whether its policy is unknown; overlap cannot happen |
| `Resolver.ResolverCache.SyncWorkloadPolicy` | internal/resolver/policy.go:160-196 | succeeds exactly for valid strings; every container of the spec is then enforced under its id, new ids go to new containers, other ids keep their data |
| `Resolver.SplitPolicy` | internal/resolver/policy.go:231-240 | the split into still-listed and dropped containers, with their ids |
| `Resolver.ResolverCache.MovePods` | internal/resolver/policy.go:242-252 | all matching pods are moved over in any order; what they carried of the dropped names is gone everywhere; single states have settings for all that is bound if no dropped id is shared |
| `Resolver.ResolverCache.ReconcileWP` | internal/resolver/policy.go:200-255 | keeps the invariant; READY exactly for valid strings; which names have ids afterwards, the same ids as before, and nothing left in the kernel for those given up; a failed one changes no binding and its ids are lost; every single state has settings exactly if no dropped name is carried twice; a binding found in one state has settings in every later one exactly if it failed or nothing was bound to a dropped id |
| `Resolver.ResolverCache.HandleWPDelete` | internal/resolver/policy.go:258-290 | exactly the policy's bindings and data go, its ids are retired, and every single state has settings for all that is bound; a binding found in one state has settings in every later one exactly if nothing was bound to the policy |
| `Resolver.ResolverCache.ForgetID` | internal/resolver/policy.go:269-286 | one id loses its bindings, settings and strings, other ids keep theirs, and every state in between has settings for all that is bound |
| `Resolver.ResolverCache.CacheContainers` | internal/resolver/nri_api.go:32-66 | caches new containers until a conflict; the caches agree even then |
| `Resolver.ResolverCache.AddPodContainerFromNri` | internal/resolver/nri_api.go:20-74 | conflict exactly for a cached container under another name or cgroup; cached rows stay, only containers of the input come in, as the input has them, and without a conflict all of them; then the pod's join is complete; new containers get tracker entries and no other entry changes; the policy's absence is reported exactly |
| `Resolver.ResolverCache.RemovePodContainerFromNri` | internal/resolver/nri_api.go:76-112 | exactly one container goes from both caches and the bindings, its pod exactly if it had no other; all other rows stay |
| `Resolver.ResolverCache.GetContainerView` | internal/resolver/export_views.go:7-36 | returns the container of any cached cgroup with its own pod's metadata, and nothing for any other |
| `ResolverProofs.BoundHaveSettings` | bpf/main.c:821-826 | under the invariant every bound id has settings |
| `ResolverProofs.NoOverlap` | internal/bpf/cgroup_policy.go:60-68 | a pod's own policy never clashes with what its containers are bound to |
| `ResolverState.ReadyKept` | internal/resolver/policy.go:160-253 | a READY policy stays enforced as its spec says while others change |
| `DataProofs.SharedIffTwoCarry` | internal/resolver/policy.go:106-121 | two cgroups share a dropped id exactly if two matching containers carry its name |
| `DataProofs.PoliciesAfter` | internal/resolver/policy.go:200-255 | ids, kernel data and readiness of all policies after a reconciliation, successful or not |
| `DataProofs.ReconcileIff` | internal/resolver/policy.go:200-255 | over the two phases of a reconciliation, a hook that makes its lookups in different states finds settings exactly if nothing was bound to a dropped id |
| `DataProofs.DeleteIff` | internal/resolver/policy.go:258-290 | the same for a deletion, exactly if nothing was bound to the policy |
| `DataProofs.HeldGone` | internal/resolver/policy.go:106-121 | a dropped id that was bound has no settings at the end, so a hook that found it before misses them |
| `Enforcement.EnforcedAsSpecified` | bpf/main.c:619-843 | in a container a READY policy covers by label, namespace and name, a runtime bootstrap passes, and the verdict on any other exec, of a path of any length, is the one said from the spec alone: denied exactly if the mode protects and the path is not listed as the hook sees it, or it is foreign without opt-out |
| `Enforcement.PlainVerdict` | bpf/main.c:763-843 | up to 4096 bytes the spec denies exactly what is not listed, and the lengths 121 to 144, without long keys only up to 512 bytes; foreign execs exactly without opt-out; and all that only in protect mode |
| `Enforcement.VerdictDuringUpsert` | internal/resolver/policy.go:44-58 | while a policy id is written anew, the hook decides by mode and flag of the old or of the new spec, and by the list of one of them |
| `Enforcement.EnforcedInSubtree` | bpf/main.c:425-458 | the same for an exec in any cgroup of the container's subtree, with the tracker a finished walk leaves |
| `Enforcement.Decide` | bpf/main.c:619-843 | the same for the hook's own run on the maps of a resolver, with a clean event and an exec that does not dirty it; unresolved files pass |
| `Enforcement.UnboundRuns` | bpf/main.c:645-708 | a container whose pod has no policy label, or one that names no policy with something for the container, is never denied |
| `Enforcement.BindingsDetermined` | internal/resolver/policy.go:79-154 | bindings and cgroup cache are functions of pods and policies, whatever the order of events |
| `Enforcement.BoundIdsLive` | internal/resolver/policy.go:36-40 | a bound id is never 0 nor retired and belongs to the container it was issued to |
| `Enforcement.NoStaleIff` | internal/resolver/policy.go:106-121 | a reconciled policy has ids for the spec's containers alone exactly if each dropped one was carried |
| `Enforcement.System.Step` | internal/resolver/policy.go:200-290 | any operation takes the state where its transition relation says, keeps the invariant and the owners of ids, and is appended to the run; over the whole run, unless a re-add was rejected, nothing is unbound and every single state has settings for all that is bound exactly if no shared name was dropped; within and around each operation a binding found in one state has settings in every later one exactly if the operation deletes no id that is bound when it begins |
| `Enforcement.Perform` | internal/resolver/policy.go:200-290 | the same of one operation of any kind on any valid resolver |
| `Enforcement.Run` | internal/resolver/policy.go:200-290 | any list of operations from the empty resolver is performed as given: the system carries that list, the state after each of them, and the invariant |
| `Enforcement.DroppedNameBindsLater` | internal/resolver/policy.go:242-252 | a run without a rejected re-add after which a container outside the spec is bound to the id its name had before |
| `Enforcement.SharedNameDropped` | internal/resolver/policy.go:106-121 | a run without a rejected re-add with a state in which a bound id has no settings |
| `Enforcement.DeletedUnderneath` | internal/resolver/policy.go:258-290 | a run in which every single state has settings for all that is bound, and a hook that found an id before the deletion of its policy misses its settings after |
| `Enforcement.CompleteIff` | internal/resolver/policy.go:79-154 | the join is complete exactly if no unbound container is named by its policy |
| `Enforcement.AddCompleteIff` | internal/resolver/nri_api.go:20-74 | after an add the join is complete exactly if no container was cached before a clash that its policy names |
| `Enforcement.RejectedReAdd` | internal/resolver/nri_api.go:32-66 | a run in which a rejected re-add leaves a container of the policy cached and unbound |
| `CgTracker.Hierarchy.CgroupMkdir` | bpf/main.c:425-446 | a new cgroup inherits its parent's tracker, whosever it is, and only then is tracked |
| `CgTracker.Hierarchy.CgroupRelease` | bpf/main.c:448-458 | the entry of a released cgroup goes, and no other |
| `CgTracker.EventKeeps` | bpf/main.c:425-458 | no event of the rest of the system makes the walk miss a cgroup below the container |
| `CgTracker.OthersUntouched` | bpf/main.c:425-458 | an entry of the tracker changes only when its cgroup is made or released, or a walk writes it; removing a directory leaves it |
| `CgTracker.PutKeeps` | internal/bpf/cgtracker.go:55-64 | writing the id a directory had is right even if the directory is gone or has been made again |
| `CgTracker.ListReplaces` | internal/bpf/cgtracker.go:41-74 | listing a directory that was recorded before misses nothing below it |
| `CgTracker.Hierarchy.WalkStep` | internal/bpf/cgtracker.go:41-74 | one step of the walk: what it records of the first item, and what it leaves to do instead of it |
| `CgTracker.Hierarchy.RunEvents` | bpf/main.c:425-458 | any list of events of the rest of the system leads to the state defined for that list |
| `CgTracker.HappenedKeeps` | bpf/main.c:425-458 | no list of events makes the walk miss a cgroup below the container |
| `CgTracker.WalkedExact` | internal/bpf/cgtracker.go:24-84 | at every moment of every trace of a walk, if nothing is left to do, exactly the live cgroups of the subtree are tracked as the container |
| `CgTracker.QuietFinishes` | internal/bpf/cgtracker.go:24-84 | a trace without other events has nothing left to do after three steps a cgroup |
| `CgTracker.Hierarchy.UpdateCgTrackerMap` | internal/bpf/cgtracker.go:24-84 | for every schedule of other events between its steps, the code goes through a trace of that schedule and ends in its last state; it has finished exactly if nothing is left to do there, and whenever nothing is left the tracker is exact; undisturbed, it finishes within three steps a cgroup |
| `CgTracker.Hierarchy.Afterwards` | bpf/main.c:425-458 | any later events lead to the state defined for them and keep the tracker exact |
| `CgTracker.TrackerIdExact` | bpf/main.c:34-38 | an exec is attributed to the container exactly if its cgroup is in the subtree |
| `Proposals.IsFull` | api/v1alpha1/workloadpolicyproposal_types.go:51-103 | full exactly from 100 executables over all containers |
| `Proposals.AddProcess` | api/v1alpha1/workloadpolicyproposal_types.go:105-125 | the executable is learnt at the end of its container's list, once; flags and all other containers stay as they were, and nothing changes exactly if it was known |
| `Proposals.SetAllowForeignRootExec` | api/v1alpha1/workloadpolicyproposal_types.go:131-148 | the flag of the named container is learnt; its list and all other containers stay as they were, and nothing changes exactly if it was set |
| `Promotion.Mutate` | internal/eventhandler/learning_controller.go:281-303 | computes the mutation: nothing for a labelled or full proposal, else the flag or the executable added |
| `Promotion.MutationIs` | internal/eventhandler/learning_controller.go:281-303 | the mutation changes a proposal exactly if there is something to learn and it is neither full nor labelled; then by exactly what the request asks for, in its container alone, and the limits hold |
| `Promotion.ApiServer.Learn` | internal/eventhandler/learning_controller.go:141-315 | with reads of any age: accepted exactly if the version read is current, unlabelled, with room and without what is to be learnt, or none was read and none is there; an accepted write adds exactly the flag or path of the request to the current version, or to nothing for a new incarnation |
| `Promotion.ApiServer.SetPromotionLabel` | internal/controller/workloadpolicyproposals_webhook.go:202-242 | the label is set, changed or withdrawn on the current version, and refused exactly for a value that is no mode or a proposal that is not there; nothing else changes |
| `Promotion.ApiServer.UserWrite` | internal/controller/workloadpolicyproposals_webhook.go:193-242 | a user's write of rules and label is accepted exactly if the label is none or a mode, as a new version or a new incarnation |
| `Promotion.ApiServer.Promote` | internal/controller/workloadpolicyproposal_controller.go:27-94 | a policy is created exactly from a version labelled monitor or protect, with a free key and a name that fits the label, and never over another one; it has that mode and the version's rules |
| `Promotion.AfterKeeps` | internal/eventhandler/learning_controller.go:276-315 | every event of every actor keeps the history: each version is what its author can make of the one before it in its incarnation, current versions are the last ones, and every promotion is of a labelled version |
| `Promotion.RunOf` | internal/controller/workloadpolicyproposal_controller.go:27-94 | the history is in order after any list of events |
| `Promotion.Growth` | internal/eventhandler/learning_controller.go:281-303 | unless a user edits rules, those of an incarnation only grow |
| `Promotion.SameRulesIff` | internal/eventhandler/learning_controller.go:281-303 | unless a user edits rules, two versions of an incarnation have the same rules exactly if no version in between was learnt |
| `Promotion.LabelFreezes` | internal/eventhandler/learning_controller.go:281-286 | nothing is learnt from a labelled version on while all versions are labelled |
| `Promotion.LimitsHold` | api/v1alpha1/workloadpolicyproposal_types.go:51-125 | unless a user edits rules, a proposal has at most 100 executables, none twice in a container |
| `Promotion.PromotedIsFinal` | internal/controller/workloadpolicyproposal_controller.go:66-75 | over any run and however stale the version seen: unless a user edits rules, a promoted policy has the rules of a later version of its proposal exactly if nothing was learnt since, and so while the label stays on |
| `Promotion.PromotedMode` | api/v1alpha1/workloadpolicyproposal_types.go:79-99 | over any run every promoted policy has mode monitor exactly if the version seen was labelled monitor, protect exactly if labelled protect, no other label promotes, and rules and promoted-from label are the version's |
| `Promotion.LearntOne` | internal/eventhandler/learning_controller.go:276-315 | over any run a learnt version differs from the one it was made from by one path or one flag of one container |
| `Promotion.WithdrawnRun` | internal/controller/workloadpolicyproposals_webhook.go:218-222 | a run of five events in which the label is withdrawn after the controller has seen it: the policy promoted lacks what the proposal has learnt by then |
| `Promotion.Run` | internal/controller/workloadpolicyproposal_controller.go:27-94 | any list of events of agents, users and controller leads the API server to the state defined for that list |
| `ViolationBuffer.Buffer.Record` | internal/violationbuf/buffer.go:45-55 | refines appending to an unbounded log; reports a loss exactly when the oldest kept record goes |
| `ViolationBuffer.Buffer.Drain` | internal/violationbuf/buffer.go:59-77 | returns exactly the last 10000 records since the previous drain, newest first |
| `Scrape.DrainNewestFirst` | internal/violationbuf/buffer.go:57-77 | a drain of a log recorded as time went on is newest first |
| `Scrape.GetViolationsByPolicy` | internal/controller/workloadpolicystatus_sync.go:148-182 | each policy gets exactly its events from all nodes that answered, node after node, in the order of their drains |
| `Scrape.BatchCount` | internal/controller/workloadpolicystatus_sync.go:148-182 | a policy is told every event as often as the answering nodes report it for the policy, and nothing else |
| `Scrape.BatchInOrder` | internal/controller/workloadpolicystatus_sync.go:148-182 | events of a key that one node reports come newest first, however the nodes are ordered |
| `Scrape.FirstObserved` | internal/controller/workloadpolicystatus_sync.go:148-182 | for such a key, the first-observed time of a new record is the earliest exactly if all its events have one time |
| `Sorting.StableSortIs` | api/v1alpha1/violation_record.go:150-152 | the sort is newest first and keeps the order of equal times |
| `Sorting.StableSortUnique` | api/v1alpha1/violation_record.go:150-152 | there is only one such list, so any stable sort gives this one |
| `Violations.MergeIs` | api/v1alpha1/violation_record.go:120-148 | key by key, what a batch does to numbers, origins, first sightings, occurrences and latest times, from the batch alone; a new record is numbered by the first event of its key and has its origin and time |
| `Violations.SameRecord` | api/v1alpha1/violation_record.go:128-139 | a record scraped again keeps id and first sighting and counts every event of its key |
| `Violations.FirstObservedIff` | api/v1alpha1/violation_record.go:138-146 | with the events of its key newest first and any others between them, the first-observed time of a new record is the earliest exactly if they all have one time |
| `Violations.StampedLate` | api/v1alpha1/violation_record.go:138-146 | a violation seen twice before the scrape is recorded as first observed the second time |
| `Violations.MergeSum` | api/v1alpha1/violation_record.go:120-148 | in all and for each key, the occurrences of the active records grow by the events of the batch |
| `Violations.MergeNumbered` | api/v1alpha1/violation_record.go:120-148 | ids stay below the count and are issued once, beside any other records that are numbered so |
| `Violations.TrimmedAreOldest` | api/v1alpha1/violation_record.go:154-156 | a record is dropped only over the limit, and is not newer than any kept one |
| `PolicyStatus.WorkloadPolicy.MergeScrapedViolations` | api/v1alpha1/violation_record.go:120-157 | the index by key implements the merge; then sorted and cut to 100; what is cut off goes, and the count adds up |
| `PolicyStatus.WorkloadPolicy.ClearAllowedViolations` | api/v1alpha1/violation_record.go:104-115 | a record of the container's own files goes exactly if its path is listed for its container, one of a foreign root exactly if the container is open to these; a container without rules clears nothing |
| `PolicyStatus.ClearedIffPermitted` | api/v1alpha1/violation_record.go:104-115 | rules clear a record exactly if the hook lets the exec pass under them in protect mode, except exactly for listed paths of 121 to 144 bytes, which are cleared and still denied |
| `PolicyStatus.ActiveAreDenied` | api/v1alpha1/workloadpolicy_types.go:164-199 | after any round, a record that is still active is of an exec the hook denies in protect mode under the round's rules |
| `PolicyStatus.AckKeyDecodes` | internal/kubectlplugin/policy_ack.go:248-250 | the annotation written for an id is read back as that id |
| `Decimal.IntRoundTrip` | api/v1alpha1/violation_record.go:179 | every 64-bit integer is parsed back from its decimal form |
| `Decimal.PlusSignRead` | api/v1alpha1/violation_record.go:179 | another spelling decodes to the same id |
| `PolicyStatus.CollectAcks` | api/v1alpha1/violation_record.go:171-193 | the ids annotations decode to, each with one annotation; others are ignored |
| `PolicyStatus.WorkloadPolicy.AcknowledgeViolationsFromAnnotations` | api/v1alpha1/violation_record.go:159-231 | exactly the named active records move, each using up one annotation that named it; the rest stays |
| `PolicyStatus.WorkloadPolicy.ApplyAckAnnotation` | internal/kubectlplugin/policy_ack.go:170-187 | writes the annotation of the id, and tells whether it was there |
| `PolicyStatus.WorkloadPolicy.AcknowledgeOne` | api/v1alpha1/workloadpolicy_types.go:184-197 | an acknowledged record moves with its reason and its annotation goes, exactly if it survives trimming and clearing; if earlier acknowledgements are older, it is then listed as acknowledged |
| `PolicyStatus.AckOrder` | api/v1alpha1/violation_record.go:216-231 | new acknowledgements are listed behind those that are not older and before all others |
| `PolicyStatus.KeptIff` | api/v1alpha1/violation_record.go:216-231 | a new acknowledgement survives the limit exactly if fewer than 100 go before it |
| `PolicyStatus.WorkloadPolicy.RecomputeStatus` | api/v1alpha1/workloadpolicy_types.go:164-199 | the status becomes what merge, cut, clearing and acknowledgement make of it in that order, with every record that went and why; node status is that of the reports; an unknown node code leaves status and annotations alone |
| `PolicyStatus.Conservation` | api/v1alpha1/violation_record.go:120-157 | in all and key by key, the events reported are the occurrences over active, acknowledged and gone records |
| `PolicyStatus.RoundsKeep` | api/v1alpha1/workloadpolicy_types.go:164-199 | after each round of any list ids are issued once and below the count, all events are counted, and both lists are distinct, sorted and bounded |
| `PolicyStatus.GoneWhy` | api/v1alpha1/violation_record.go:104-231 | a record that goes in a round was cut over the limit and is not newer than any kept one, or the rules now list its path or open its container, or it was pushed off the acknowledged list by ones not older |
| `PolicyStatus.LeftAreGone` | api/v1alpha1/violation_record.go:104-231 | a record that was listed and is not any more is among those that went in that round |
| `PolicyStatus.GoneOnce` | api/v1alpha1/violation_record.go:104-231 | a listed record has not gone before |
| `PolicyStatus.Perform` | internal/controller/workloadpolicystatus_helpers.go:31-48 | a round works on a copy, which replaces the policy exactly if every node code is known |
| `PolicyStatus.Run` | api/v1alpha1/workloadpolicy_types.go:164-199 | any list of rounds goes through the statuses defined for it; the count is the number of events of the rounds whose node codes are all known, and they are conserved over active, acknowledged and gone records, in all and key by key |
| `NodeStatus.NodeTable.AddTransitioningNode` | api/v1alpha1/policy_node_status.go:54-69 | one more node of the group: the list holds the first 19 with the right time, then one marker |
| `NodeStatus.NodeTable.AddNodeIssue` | api/v1alpha1/policy_node_status.go:71-95 | one more node of the group: the map holds the first 19 with the right time, then one marker, never more than 20 entries |
| `NodeStatus.NodeTable.ProcessPolicyNodeStatus` | api/v1alpha1/policy_node_status.go:137-187 | fails exactly on a code other than ready, transitioning, failed and missing; counters are the counts of those, failed and missing together, and add up; what is remembered is exactly the first 19 nodes of each group with their status, and the marker exactly if there are more |
| `NodeStatus.CountsAddUp` | api/v1alpha1/policy_node_status.go:171-175 | the consistency check cannot fail |
| `NodeStatus.PhaseMeans` | api/v1alpha1/policy_node_status.go:177-184 | ready exactly if all nodes are, failed exactly if one has failed or misses the policy, transitioning exactly if one is and none has failed; never left unset |
| `NodeStatus.LookupRemembered` | api/v1alpha1/policy_node_status.go:120-130 | a node among the first 19 of its group is found with its code, its message and its time |
| `NodeStatus.LookupNone` | api/v1alpha1/policy_node_status.go:120-130 | no other node is found |
| `NodeStatus.MarkerIff` | api/v1alpha1/policy_node_status.go:54-95 | of each group at most 19 nodes are named, and a marker stands for more exactly if there are more |
| `NodeStatus.SortedByName` | api/v1alpha1/policy_node_status.go:164-169 | the transitioning nodes are sorted |
| `NodeStatus.InDictionaryOrder` | api/v1alpha1/policy_node_status.go:164-169 | of two of them, the earlier one has the smaller character where the names first differ, or ends there |
| `NodeStatus.Run` | api/v1alpha1/policy_node_status.go:97-106 | over any run of rounds with any number of nodes, those with an unknown code thrown away: a node is found exactly while it is among the first 19 of its group, with its code, its message and the time of the round in which it was last listed anew under it |
| `NodeStatus.SinceTrue` | api/v1alpha1/policy_node_status.go:97-106 | for a node that was among the first 19 ever since its code began, that is the round in which it began |

## Left out

- eBPF loading, ring buffer transport, link attachment and kernel reads: foreign calls; the model takes the values they deliver.
- Failing BPF map calls, and the partial states they would leave: the model lets them succeed.
- The limit of 500 entries for inner maps on kernels before 5.9.
- Whether an exec is a runtime bootstrap or crosses a root: inputs of the model.
- Resolver.ResolverCache.AddPodContainerFromNri: writes the container's own tracker entry; the directory walk it triggers runs beside it and is `CgTracker`, joined to the verdict in `Enforcement.EnforcedInSubtree`.
- Resolver.ResolverCache.CacheContainers: the same.
- Unknown policy options, which the resolver only logs, and the texts of log messages.
- Owner references, namespace selection, admission errors and retry timing of the learner: a retry is one more event.
- Deletion timestamps: a delete is one step. A promotion deletes by name and may meet a later incarnation.
- Enforcement.System.Step: does not speak of a hook whose two lookups lie more than one operation apart.
- Timestamps are integers; truncation to seconds in the API is not modelled.
- gRPC, metrics, the command line beyond the acknowledgement, webhooks beyond the promotion label and generated code: input and output.
- Image scanning, policy drafting and manifest generation: work over libraries that are not part of this model.
- Pod workload parsing, cgroup path parsing and kernel version parsing: would only add easy members.
