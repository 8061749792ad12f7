# LSDN in Dafny

LSDN turns a declared network model (settings, networks, physes, phys attachments and virts) into kernel traffic-control
state. This project models the parts of the library that carry its correctness and proves what they promise, for every
input, every run and every reachable state. `dafny verify dfyconfig.toml` checks all of it.

The four parts:

- **The commit engine** (`Engine`, with `Netmodel`, `Invariant`, `Edits`, `Removals`, `Freeing`, `Decommit`, `Recommit`,
  `Runs`, `Traces`). `Context` is the library context; its API calls mark objects and `Commit` propagates, validates,
  decommits, recommits and acknowledges. The network-type callbacks are events of a ghost trace, and `kernel` is what the trace
  leaves behind. `Inv` relates commit states to the kernel between any two calls. From it follow that an incremental
  commit ends exactly where a commit from scratch would (`Describes`, `Runs.CommitBoth`), that remote views are exact,
  that the trace is well bracketed over whole runs, that a commit without changes makes no callback and that teardown is
  complete. `Runs` also says field by field what a commit leaves in the model and in the kernel, and `Traces` what a well
  bracketed trace means for each installed thing. `LifeCycle` follows one object through runs in which kernel calls fail,
  `Failing` the whole decommit phase of such a commit with the final state of every object, and `Promises` states exactly
  when a commit is refused and when three promises of the documentation hold.
- **The rules compiler** (`Masking`, `Ruleset`, `RuleMeaning`, `VirtRules`, `Broadcast`). Prioritised rules become flower
  filters keyed by masked match data. `RuleMeaning.CompilationKeepsMeaning` compares what the kernel selects for any
  packet with a reference that knows no filters. `VirtRules.CommitRules` installs the firewall rules of a virt so that a
  packet gets the action of the rule that accepts it. `Broadcast` packs actions of different sizes into filters of 32.
- **The static bridge** (`List`, `Clist`, `Index`, `Mesh`, `Sbridge`, `Dataplane`, `Chains`, `Classification`). Rings and
  cleanup lists are modelled on the heap with their pointers. `Sbridge.Switch` keeps exactly one broadcast action per
  interface and route of another interface; `Dataplane` says what its rules do to a frame, `Chains` runs the lists that
  the packer leaves in the kernel, and `Classification` makes every decision a lookup among compiled filters. A VNI is
  the identifier of section 5 of RFC 7348 and section 3.4 of RFC 8926.
- **Prefix masks** (`Prefix`), the notation of section 3.1 of RFC 4632.

Objects are known by addresses (numbers). The lists of the commit engine are tables filtered by back pointers and walked
in any order, which covers every list order. Kernel calls are steps on ghost tables.

What the model shows about the code:

- A deleted attachment is not always freed by the next commit when kernel calls fail: if an attachment before it in the
  list of its network is decommitted and the removal of its view fails, the failure is marked on the deleted attachment,
  which then is not pending decommission at its turn. If its network is deleted too, the assertion of `net_do_free` fails;
  if only its phys is deleted, the phys is freed under it. `Failing.DecommitPhase`, `Failing.EmptyIffUnspoiled` and
  `Failing.OutlivesIffSpoiled` prove that this is the only way for any deleted object to survive the phase,
  `Failing.DeletedCanSurvive` gives an input. docs/internals.rst:203-205 says that deleted objects bypass the FAIL state.
- `lsdn_phys_unclaim_local` leads to a second destroy of an attachment, because `committed_as_local` is only ever set to
  true (netmodel/lsdn.c:1643): `Promises.DestroyAllowed` says when, `Promises.DestroyedTwice` gives a run. It is not part
  of the runs of the engine.
- A refused commit can leave propagated RENEW states behind (`Promises.RefusalKeepsStates`); the kernel is unchanged.
- A commit after a detach passes validation if the virts that are still connected need not be committed
  (`Promises.DetachRefused`).
- `commit_vr` sets the sub-priority only for the rule that opens a priority (netmodel/lsdn.c:964-984). It does not
  matter, because validated keys differ; `VirtRules.CommitVr` holds for any value.
- `lsdn_sbridge_add_mac` links the entry even if its rule was refused, so that the cleanup in `lsdn_sbridge_add_virt`
  meets a failing assertion. Validation does not prevent it: it compares addresses only between virts that are about to be
  committed (`Sbridge.CommittedClash`).
- The engine proofs need no restriction to one local phys per network (docs/netmodel.rst:206-209).

## Model

| member | source | states |
|---|---|---|
| `Runs.Run` | netmodel/lsdn.c:1583-1680 | any sequence of API calls and commits, started on a fresh context, leads through the models that the calls say, one by one, and keeps the invariant: every callback was legal when it was made, and replaying the callbacks gives the kernel |
| `Runs.Do` | netmodel/lsdn.c:1583-1680 | every API call makes of the model what its own effect is, whatever the state, and keeps the invariant; a successful commit leaves every object OK and the kernel exactly what the model describes |
| `Runs.OneKernel` | netmodel/lsdn.c:1295-1433 | the kernel described by a model is unique |
| `Runs.SameOutcome` | netmodel/lsdn.c:1583-1680 | the model that a commit leaves depends only on the described objects, not on commit states or on what was committed before |
| `Runs.CommitBoth` | netmodel/lsdn.c:1583-1680 | two contexts with the same model, whatever runs they have behind them, have equal models and equal kernels once both have committed; so incremental commits end where a commit from scratch does |
| `Runs.CommitDrops` | netmodel/lsdn.c:1610-1636 | after a commit exactly the objects being deleted are missing, and of the attachments also those that only virts being deleted still held |
| `Runs.CommitKeepsFields` | netmodel/lsdn.c:1653-1672 | what stays keeps its network, phys, attributes, connection and claim through a commit |
| `Runs.InstalledPas` | netmodel/lsdn.c:1295-1310 | after a commit an attachment is in the kernel exactly if its phys is claimed, with the attributes of that phys and the identifier of its network |
| `Runs.InstalledViews` | netmodel/lsdn.c:1363-1400 | after a commit a local attachment sees exactly the other attachments of its network, its own phys on the local and the other phys on the remote side |
| `Runs.InstalledVirts` | netmodel/lsdn.c:1311-1361 | after a commit a virt is in the kernel exactly if it is connected through an attachment of a claimed phys: on that attachment, with its attributes and interface; its own record says so, and is empty otherwise |
| `Runs.InstalledVirtViews` | netmodel/lsdn.c:1402-1432 | after a commit each view carries exactly the virts connected through its remote side, with their addresses |
| `Runs.ConnectAndCommit` | netmodel/lsdn.c:712-729 | a connect through a claimed phys and a successful commit put the virt into the kernel, on the attachment of that phys to its network and with the interface given |
| `Runs.DisconnectAndCommit` | netmodel/lsdn.c:733-740 | a disconnect and a successful commit take the virt and every view of it out of the kernel |
| `Traces.BalanceIs` | netmodel/private/net.h:60-109 | in a well-bracketed trace nothing is installed twice or removed twice: a thing is in the kernel exactly if it was installed once more than removed |
| `Traces.OpenOnce` | netmodel/private/net.h:60-109 | every callback that installs meets nothing installed, every callback that removes meets something |
| `Traces.EmptyWhenDestroyed` | netmodel/private/net.h:93-97 | when an attachment is destroyed, all its remote attachments and remote virts were removed |
| `Traces.VirtsGoFirst` | netmodel/private/net.h:93-97 | a virt added on an attachment is removed again before the attachment is destroyed |
| `Traces.InsideItsContainer` | netmodel/private/net.h:76-106 | a virt is added to an attachment that is there, a remote virt behind a remote attachment that is there, and a remote attachment is removed after its remote virts |
| `Traces.AllClosed` | netmodel/private/net.h:60-109 | after a teardown every installation has its removal |
| `Runs.RunToTeardown` | netmodel/lsdn.c:151-163 | any run, a commit and, if it passed validation, the context cleanup leave no object; the whole callback trace is well bracketed, and everything that was ever installed was removed as often |
| `Engine.Context.constructor` | netmodel/lsdn.c:151-163 | a fresh context is empty and satisfies the invariant that cleanup returns to |
| `Engine.Context.Emit` | netmodel/private/net.h:60-109 | a callback is made only where the contract of the network operations allows it, and the trace stays well bracketed |
| `Engine.Context.DecommitRemoteVirt` | netmodel/lsdn.c:1435-1453 | takes exactly the given remote virt out of the kernel |
| `Engine.Context.DecommitVirt` | netmodel/lsdn.c:1455-1480 | takes out the virt and every view of it, and nothing else |
| `Engine.Context.DecommitRemotePa` | netmodel/lsdn.c:1482-1507 | takes out the remote virts of a view before the view |
| `Engine.Context.DecommitPa` | netmodel/lsdn.c:1509-1531 | takes out an attachment with all views of it and by it; at the final destroy nothing refers to it any more |
| `Engine.Context.PaDoFree` | netmodel/lsdn.c:488-495 | frees an attachment that no virt uses |
| `Engine.Context.FreePaIfPossible` | netmodel/lsdn.c:497-507 | an attachment with virts or with an explicit attachment stays as it is; otherwise it goes at once if never committed and is marked for deletion if it was; no other attachment changes |
| `Engine.Context.VirtDoFree` | netmodel/lsdn.c:653-669 | frees a virt and, if it was the last user, its attachment |
| `Engine.Context.NetDoFree` | netmodel/lsdn.c:298-307 | frees a network whose lists are empty, as its assertions demand |
| `Engine.Context.PhysDoFree` | netmodel/lsdn.c:381-388 | freeing a phys that no attachment refers to keeps the invariant; the source does not look at the list of attachments, its callers establish that it is empty |
| `Engine.Context.SettingsDoFree` | netmodel/lsdn.c:249-255 | frees settings without networks, as its assertion demands |
| `Engine.Context.SweepVirt` | netmodel/lsdn.c:1612-1617 | the turn of a virt in the decommit phase keeps the invariant and only takes away what has to go |
| `Engine.Context.SweepPa` | netmodel/lsdn.c:1618-1623 | the turn of an attachment: by then no virt is installed on it |
| `Engine.Context.DecommitPhase` | netmodel/lsdn.c:1610-1636 | after the phase nothing is left to decommit, every deleted object is freed and all emptiness assertions held; a model without changes makes no callback |
| `Engine.Context.CommitVirts` | netmodel/lsdn.c:1311-1361 | installs exactly the new virts of the attachment and notes where and under which interface |
| `Engine.Context.CommitViews` | netmodel/lsdn.c:1363-1400 | adds exactly the missing views of the attachment, none twice |
| `Engine.Context.CommitVirtViews` | netmodel/lsdn.c:1402-1432 | adds exactly the missing remote virts behind the views of the attachment, none twice |
| `Engine.Context.CommitPa` | netmodel/lsdn.c:1295-1433 | after it the kernel is complete for this attachment as well |
| `Engine.Context.RecommitPhase` | netmodel/lsdn.c:1638-1651 | turns a kernel that holds what survived into exactly the kernel that the model describes |
| `Engine.Context.AckContainers` | netmodel/lsdn.c:1653-1672 | acknowledges every remaining settings object, network and phys |
| `Engine.Context.AckMembers` | netmodel/lsdn.c:1653-1672 | acknowledges every remaining attachment and virt |
| `Engine.Context.Validate` | netmodel/lsdn.c:1192-1290 | spreads renewal exactly along phys, network, attachment and virt, keeps the invariant, and refuses exactly the models with a problem |
| `Engine.Context.Apply` | netmodel/lsdn.c:1610-1672 | decommit, recommit and acknowledge: the closed form of the resulting model, and a kernel that it describes |
| `Engine.Context.Commit` | netmodel/lsdn.c:1583-1680 | a refused commit makes no callback; an accepted one ends in the closed form `Committed`, with the kernel, the remote attachments and the remote virts exactly as described; a second commit makes no callback |
| `Engine.Context.SettingsNew` | netmodel/net.c:7-19 | adds a new settings object and keeps the invariant |
| `Engine.Context.NetNew` | netmodel/lsdn.c:274-293 | adds a new network and keeps the invariant |
| `Engine.Context.PhysNew` | netmodel/lsdn.c:353-376 | adds a new phys and keeps the invariant |
| `Engine.Context.VirtNew` | netmodel/lsdn.c:618-640 | adds a new, unconnected virt and keeps the invariant |
| `Engine.Context.PhysSetAttrs` | netmodel/lsdn.c:534-582 | a changed attribute renews the phys, an equal one changes nothing |
| `Engine.Context.ClaimLocal` | netmodel/lsdn.c:593-601 | claiming a phys renews it once |
| `Engine.Context.VirtSetMac` | netmodel/lsdn.c:742-764 | a changed address renews the virt, an equal one changes nothing |
| `Engine.Context.VirtSetRate` | netmodel/lsdn.c:810-853 | sets the rate of the given direction only; setting a rate always renews, clearing an absent one does not |
| `Engine.Context.FindOrCreateAttachment` | netmodel/lsdn.c:438-462 | the only attachment of the phys to the network, found or made |
| `Engine.Context.PhysAttach` | netmodel/lsdn.c:475-486 | every attachment of the phys to the network is explicit afterwards and there is one, a new one at the given address if there was none; the phys is renewed unless it was attached explicitly before; everything else is as before |
| `Engine.Context.DetachByPa` | netmodel/lsdn.c:509-513 | the attachment is not explicit any more; without virts it goes or is marked for deletion; no other attachment changes |
| `Engine.Context.PhysDetach` | netmodel/lsdn.c:524-532 | detaches the one attachment of the pair, or does nothing |
| `Engine.Context.VirtConnect` | netmodel/lsdn.c:712-729 | the virt is connected on the given interface through the attachment of the phys to its own network, which is made if there was none, and is renewed; all other virts and attachments are unchanged |
| `Engine.Context.VirtDisconnect` | netmodel/lsdn.c:733-740 | the virt is not connected any more, and renewed if it was; nothing else about it changes |
| `Engine.Context.VirtFree` | netmodel/lsdn.c:672-676 | a virt never committed goes at once and may take its attachment with it, another one stays, marked for deletion; no other virt changes |
| `Engine.Context.NetFree` | netmodel/lsdn.c:311-320 | what exactly becomes of every virt and attachment of the network and of nothing else |
| `Engine.Context.SettingsFree` | netmodel/lsdn.c:259-265 | frees exactly the networks with these settings, in any order |
| `Engine.Context.PhysFree` | netmodel/lsdn.c:393-402 | unplugs exactly the virts connected through the phys and clears exactly its attachments |
| `Engine.Context.Cleanup` | netmodel/lsdn.c:151-163 | from any state without deleted virts still plugged in, cleanup empties the model and the kernel |
| `Edits.VirtEditInv` | netmodel/lsdn.c:21-25 | any legal change of a virt keeps the relation between model and kernel |
| `Edits.PaEditInv` | netmodel/lsdn.c:475-513 | any legal change of an attachment keeps it |
| `Edits.PhysEditInv` | netmodel/lsdn.c:534-601 | any legal change of a phys keeps it |
| `Edits.NetEditInv` | netmodel/lsdn.c:311-320 | marking an emptied network keeps it |
| `Removals.FreeVirtInv` | netmodel/lsdn.c:653-669 | freeing an uninstalled virt keeps it |
| `Removals.FreePaInv` | netmodel/lsdn.c:497-507 | dropping an attachment keeps it |
| `Decommit.VirtOutInv` | netmodel/lsdn.c:1455-1480 | taking out a virt keeps the invariant |
| `Decommit.PaOutInv` | netmodel/lsdn.c:1509-1531 | taking out an idle attachment keeps the invariant |
| `Decommit.PaIdleUnused` | netmodel/lsdn.c:1611-1623 | when an attachment has its turn, no virt is installed on it and none of its virts is untouched |
| `Decommit.LastVirtOrphans` | netmodel/lsdn.c:497-507 | an attachment that loses its last virt in the phase had only deleted virts when the phase began |
| `Decommit.SweptNetEmpty` | netmodel/lsdn.c:298-307 | a deleted network has neither virts nor attachments when it is freed |
| `Recommit.StartMid` | netmodel/lsdn.c:1638-1651 | what survives decommission is exactly the part of the described kernel that is already there |
| `Recommit.EndMid` | netmodel/lsdn.c:1638-1651 | when every local attachment was visited, the kernel is the described one |
| `Recommit.AllOkDescribes` | netmodel/lsdn.c:1583-1680 | a model without pending changes is installed completely and exactly |
| `Recommit.UpToDateMirrored` | netmodel/lsdn.c:1653-1672 | an up to date model satisfies the invariant from which the next changes start |
| `Recommit.CommitEnds` | netmodel/lsdn.c:1583-1680 | the commit that started from a model ends in its closed form |
| `Recommit.CommitKeeps` | netmodel/lsdn.c:1653-1672 | after acknowledgement the invariant holds again and the model is up to date |
| `Recommit.CommittedRenewed` | netmodel/lsdn.c:1199-1217 | propagation does not change where a commit goes |
| `Recommit.RenewedAllOk` | netmodel/lsdn.c:1199-1217 | propagation changes nothing in a model without changes |
| `Recommit.DoomedWorld` | netmodel/lsdn.c:151-163 | when all physes and settings are deleted, validation passes and the commit leaves nothing |
| `Freeing.FreedCompose` | netmodel/lsdn.c:259-265 | freeing networks one after the other is freeing the set of them |
| `Freeing.NetReady` | netmodel/lsdn.c:311-320 | a network whose members were freed is empty if it is new, and can be marked otherwise |
| `Freeing.PhysReady` | netmodel/lsdn.c:393-402 | a phys whose attachments were cleared can go |
| `LifeCycle.FailIsFinal` | netmodel/private/errors.h:40-69 | over every run with kernel failures, FAIL is left only by a free of the user |
| `LifeCycle.FreedStaysFreed` | netmodel/private/state.h:28-86 | over every run, a freed object is never revived |
| `LifeCycle.PendingMeansFreed` | netmodel/private/state.h:28-86 | over every run, a pending free means DELETE or FAIL, and DELETE means a pending free |
| `LifeCycle.FreedAtItsTurn` | netmodel/private/state.h:65-86 | over every run in which nothing else is blamed on it, a freed object is deallocated exactly at its first turn in a decommit phase, whatever the kernel says to its removal |
| `LifeCycle.DocumentedChanges` | docs/internals.rst:176-196 | the documented effect of updates, renewed containers and frees on an object in each state |
| `LifeCycle.DocumentedCommit` | docs/internals.rst:198-205 | an object whose installation failed is new again after the commit, so that the next one retries; what cannot be undone ends in FAIL |
| `Failing.DecommitVirts` | netmodel/lsdn.c:1612-1617 | with any failing removals, exactly the deleted virts are freed, a renewed one ends FAIL if its removal failed and NEW otherwise, any other is unchanged; exactly the attachments that lose their last virt are freed or marked |
| `Failing.DecommitPas` | netmodel/lsdn.c:1618-1623 | with any failing removals: exactly those deleted attachments are freed that no attachment before them in the list, itself taken out, has a failing view of; a renewed one that has its turn ends FAIL if and only if its own removal or that of a view of it failed, and NEW otherwise; one without a turn ends FAIL if and only if an attachment taken out has a failing view of it, and is unchanged otherwise |
| `Failing.TakeOutViews` | netmodel/lsdn.c:1482-1507 | a failed removal of a view is marked on its remote side and on nothing else |
| `Failing.DecommitNet` | netmodel/lsdn.c:1611-1626 | exact fate and final state of virts, attachments and network; the assertions of `net_do_free` hold exactly when nothing is left on its lists |
| `Failing.EmptyIffUnspoiled` | netmodel/lsdn.c:298-307 | for a freed network the assertions of `net_do_free` hold if and only if no attachment of it is spoiled |
| `Failing.FreeNet` | netmodel/lsdn.c:311-320 | freeing a committed network, in any states, leaves it as the decommit phase relies on: members never committed are gone, the others that go are marked |
| `Failing.SettingsTurns` | netmodel/lsdn.c:1633-1636 | the assertion of `settings_do_free` holds exactly when no network is left that uses deleted settings |
| `Failing.TurnAll` | netmodel/lsdn.c:1628-1631 | deleted physes go, renewed ones are new again, the others are unchanged |
| `Failing.DecommitPhase` | netmodel/lsdn.c:1610-1636 | the phase comes to its end if and only if no deleted network has a spoiled attachment; then all deleted virts, networks, physes and settings are freed and, of the deleted attachments, exactly the unspoiled ones, and the final state of everything else is given |
| `Failing.OutlivesIffSpoiled` | netmodel/lsdn.c:1628-1631 | an attachment outlives its deleted phys if and only if it is spoiled |
| `Failing.DeletedCanSurvive` | netmodel/lsdn.c:1482-1531 | an input on which a deleted attachment survives its commit and the first assertion of `net_do_free` fails |
| `Failing.NothingSpoiled` | netmodel/lsdn.c:1610-1636 | without a failing removal of a view no attachment is spoiled, so that the phase comes to its end |
| `Promises.RefusalKeepsStates` | docs/internals.rst:207-210 | validation, and so a refused commit, leaves all states alone if and only if no renewed object has a committed member |
| `Promises.RefusalChangesStates` | docs/internals.rst:207-210 | an input on which a refused commit changes a state |
| `Promises.RefusedExactly` | netmodel/lsdn.c:1192-1290 | a commit is refused if and only if the checks of the network types object to something that stays or a virt is about to be committed through an attachment that was never made explicitly |
| `Promises.DetachRefused` | netmodel/lsdn.c:515-532 | the virts on a detached attachment make the next commit fail validation if and only if one of them has to be committed |
| `Promises.DetachedPasses` | netmodel/lsdn.c:515-532 | an input on which a commit after a detach passes although a virt is still connected |
| `Promises.DestroyAllowed` | netmodel/lsdn.c:603-612 | over every run of claims, unclaims, changes and commits, the next destroy callback meets a live attachment if and only if the phys was claimed at the last commit |
| `Promises.ClaimedDestroyAllowed` | netmodel/lsdn.c:593-601 | without an unclaim it always does |
| `Promises.DestroyedTwice` | netmodel/lsdn.c:603-612 | a run with an unclaim after which an attachment is destroyed twice |
| `Ruleset.Ruleset.constructor` | netmodel/private/rules.h:81-115 | an empty ruleset mirrors an empty kernel |
| `Ruleset.Ruleset.DefinePrio` | netmodel/rules.c:249-268 | refuses exactly the priorities that exist |
| `Ruleset.Ruleset.FindPlace` | netmodel/rules.c:515-526 | the position that keeps sub-priorities ascending, or a duplicate exactly when the sub-priority is taken |
| `Ruleset.Ruleset.Flush` | netmodel/rules.c:329-413 | writes one filter; a create meets a free handle, an update a used one, and the abort for mixed targets is not reached |
| `Ruleset.Ruleset.Add` | netmodel/rules.c:484-534 | DUPLICATE exactly when a live rule has the masked key and sub-priority, out of memory exactly when a new key finds no handle, both without any change; otherwise kernel and memory correspond one to one again |
| `Ruleset.Ruleset.Remove` | netmodel/rules.c:431-445 | removes exactly this rule from memory and kernel |
| `Ruleset.Ruleset.RemovePrio` | netmodel/rules.c:447-453 | removes an empty priority |
| `Ruleset.PutMirrored` | netmodel/rules.c:329-413 | writing a flower rule keeps filters and flower rules in one to one correspondence |
| `Ruleset.PutExclusive` | netmodel/rules.c:484-504 | a freshly allocated handle is not in the kernel |
| `Ruleset.DropMirrored` | netmodel/rules.c:415-429 | deleting a flower rule keeps the correspondence |
| `RuleMeaning.OrderIsUnique` | netmodel/private/rules.h:81-115 | a set of rules has at most one ascending order, so the reference result is well defined |
| `RuleMeaning.CompilationAt` | netmodel/rules.c:484-534 | at each priority one lookup gives the actions of exactly the live matching rules in ascending sub-priority |
| `RuleMeaning.CompilationKeepsMeaning` | netmodel/rules.c:329-534 | for every packet the compiled filters select what the live rules mean, priority by priority |
| `RuleMeaning.ActionsFit` | netmodel/rules.c:329-413 | no filter in the kernel has more than 31 actions |
| `RuleMeaning.LookupHit` | netmodel/rules.c:484-534 | a lookup that only one live rule matches gives the actions of that rule |
| `Masking.FindCommonEthType` | netmodel/rules.c:314-326 | fails exactly for targets that mix IPv4 and IPv6; otherwise the type is that of IPv4 or IPv6 exactly if some target is of that version |
| `Masking.HardMask` | netmodel/rules.c:455-459 | keeps the first bytes and clears the rest |
| `Masking.ApplyMask` | netmodel/rules.c:461-482 | byte by byte: data and mask for every target but two; a tunnel key keeps its four bytes and no target keeps none |
| `Masking.AcceptsField` | netmodel/rules.c:238-247 | a filter accepts a packet exactly if the packet has the field and agrees with the data in every bit of the mask |
| `Masking.AcceptsKey` | netmodel/rules.c:471-473 | a tunnel key is compared as it is, whatever the mask |
| `Masking.FieldWidth` | netmodel/private/rules.h:50-64 | the lengths of the compared fields |
| `Masking.MaskingKeepsMeaning` | netmodel/rules.c:461-482 | a packet matches a rule exactly when it matches the masked rule |
| `Masking.MaskingIsIdempotent` | netmodel/rules.c:461-482 | masking twice is masking once |
| `Masking.KeysAreDisjoint` | docs/netmodel.rst:153-156 | rules of one priority that match the same packet have the same key, so that the lookup is deterministic |
| `VirtRules.ValidateRules` | netmodel/lsdn.c:912-962 | accepts exactly the lists with one set of targets and masks and pairwise different masked keys |
| `VirtRules.CommitVr` | netmodel/lsdn.c:964-984 | installing a new rule of a validated list without mixed targets reaches no abort, neither a duplicate nor a priority defined twice, and the rule is there with its own key and its own action |
| `VirtRules.CommitRules` | netmodel/lsdn.c:986-996 | afterwards exactly the rules of the list are installed at the priority, and a packet that one of them accepts gets the action of that rule |
| `VirtRules.OwnMeaning` | netmodel/lsdn.c:964-984 | an installed rule accepts the packets that it accepts under its own masks |
| `VirtRules.RuleSelected` | netmodel/lsdn.c:964-996 | a packet that an installed rule accepts selects the action of that rule, since no other rule of the priority accepts it |
| `VirtRules.NoRuleSelected` | netmodel/lsdn.c:964-996 | a packet that no installed rule accepts selects nothing |
| `Broadcast.Broadcast.constructor` | netmodel/rules.c:536-543 | a new chain has no filter |
| `Broadcast.Broadcast.FindFreeAction` | netmodel/rules.c:545-581 | the first free slot of the first filter with room, a new filter exactly when none has room; the abort is not reached |
| `Broadcast.Broadcast.Add` | netmodel/rules.c:611-623 | adds exactly this action, moves no other, and the kernel lists stay those of the slots |
| `Broadcast.Broadcast.Occupy` | netmodel/rules.c:611-623 | the action occupies the slot it records and its filter is written again |
| `Broadcast.Broadcast.Remove` | netmodel/rules.c:625-633 | removes exactly this action and writes its filter again |
| `Broadcast.Flush` | netmodel/rules.c:586-609 | the orders handed out by the loop number the actions of the occupants from 1 and end with a continue |
| `Broadcast.RoomMeansSlot` | netmodel/rules.c:545-581 | where there is room for an action there is a free slot |
| `Broadcast.WellNumbered` | netmodel/private/rules.h:169-203 | every kernel list is numbered without gap or overlap, ends with its only continue at order 32 at the latest, and carries as many actions as its filter has used up |
| `Broadcast.OccupyPacked` | netmodel/rules.c:611-623 | filling a slot keeps free plus used actions at 31 |
| `Broadcast.VacatePacked` | netmodel/rules.c:625-633 | emptying a slot keeps free plus used actions at 31 |
| `List.Init` | netmodel/list.c:7-11 | a ring of one entry |
| `List.Add` | netmodel/list.c:21-26 | insertion after a position of the sequence |
| `List.InitAdd` | netmodel/list.c:32-38 | insertion after a position, whatever the entry held before |
| `List.Remove` | netmodel/list.c:41-47 | deletion from the sequence; the entry is a ring of its own again |
| `List.IsEmpty` | netmodel/list.c:50-53 | true exactly for a ring that is only its head |
| `List.ForEach` | netmodel/private/list.h:38-42 | the saved-next walk visits every original entry once and in order while its body unlinks some of them, and the others stay linked in order |
| `Clist.ClistEntry.constructor` | netmodel/clist.c:15-22 | an entry starts on rings of its own |
| `Clist.Add` | netmodel/clist.c:25-30 | the entry is first on the list |
| `Clist.Unlink` | netmodel/clist.c:40-44 | every ring is as before without the entry, also if the entry was on none |
| `Clist.Callback` | netmodel/clist.c:45-45 | whatever becomes of the released entry's links, all rings are intact |
| `Clist.Flush` | netmodel/clist.c:36-48 | each member's callback is called once and in order, the list ends empty, every other list keeps exactly its other entries in order, and a failure of any callback is reported |
| `Sbridge.Switch.constructor` | netmodel/sbridge.c:106-144 | no bridge, no rule |
| `Sbridge.Switch.Init` | netmodel/sbridge.c:106-144 | adds an empty bridge |
| `Sbridge.Switch.PhysIfInit` | netmodel/sbridge.c:304-356 | adds a physical interface with a fresh range of chains |
| `Sbridge.Switch.IfBrMake` | netmodel/sbridge.c:33-55 | one more pair has its action, on the owner list and on the destination list |
| `Sbridge.Switch.Pull` | netmodel/sbridge.c:207-214 | a new interface gets an action for every route of another one |
| `Sbridge.Switch.PullAll` | netmodel/sbridge.c:207-214 | a new interface gets an action for every route of every other one |
| `Sbridge.Switch.Classify` | netmodel/sbridge.c:177-205 | refuses exactly when chains have run out or the physical interface serves the VNI already; otherwise chain and keys are the interface's own |
| `Sbridge.Switch.AddIf` | netmodel/sbridge.c:170-228 | refused exactly when the chains have run out or the physical interface serves the VNI already, and then neither lists nor actions change; otherwise the interface has its port, chain, group rule and fallback rule, all others keep theirs, and there is exactly one action per pair |
| `Sbridge.Switch.FlushOwner` | netmodel/sbridge.c:230-242 | exactly the actions of the interface leave both of their lists |
| `Sbridge.Switch.RemoveIf` | netmodel/sbridge.c:230-242 | exactly the interface, its rules and its actions are gone |
| `Sbridge.Switch.Push` | netmodel/sbridge.c:251-258 | a new route gets an action from every interface but its own |
| `Sbridge.Switch.AddRoute` | netmodel/sbridge.c:244-265 | the route belongs to the interface and has the given tunnel metadata, all other routes keep theirs, and there is exactly one action per pair |
| `Sbridge.Switch.FlushDest` | netmodel/sbridge.c:275-281 | exactly the actions towards the route leave both of their lists |
| `Sbridge.Switch.RemoveRoute` | netmodel/sbridge.c:275-281 | exactly the route and the actions towards it are gone |
| `Sbridge.Switch.AddMac` | netmodel/sbridge.c:283-296 | DUPLICATE exactly if the bridge has a rule for the address, out of memory exactly if it has no handle left; the entry is on the list in every case, with its address and route |
| `Sbridge.Switch.AddVirt` | netmodel/sbridge.c:368-407 | the exact new bridge: the virt has a port without VNI on the first chain of its own physical interface, and all other ports, group rules and fallback rules are unchanged; the cleanup runs into the assertion of `lsdn_sbridge_remove_route` if and only if the bridge has a rule for the address or no handle left |
| `Sbridge.Switch.Plug` | netmodel/sbridge.c:368-385 | an interface of its own for the virt, which is never refused, on a physical interface that does not match VNIs |
| `Sbridge.Switch.RemoveVirt` | netmodel/sbridge.c:408-419 | exactly the virt's address, route and interface are gone |
| `Sbridge.ValidateMacs` | netmodel/lsdn.c:1118-1140 | objects exactly to two virts with the same address that are both about to be committed |
| `Sbridge.CommittedClash` | netmodel/sbridge.c:395-397 | a committed virt and a new one with its address pass validation, and adding the new one runs into the assertion |
| `Mesh.VirtRoundTrip` | netmodel/sbridge.c:368-419 | removing a virt undoes adding it |
| `Sbridge.Switch.RemoveMac` | netmodel/sbridge.c:298-302 | exactly the rule of this entry goes |
| `Mesh.MakeMeshed` | netmodel/sbridge.c:33-55 | an action for a missing pair keeps one action per pair |
| `Mesh.FreeMeshed` | netmodel/sbridge.c:14-20 | freeing an action takes away exactly its pair |
| `Mesh.NewIfPairs` | netmodel/sbridge.c:207-214 | the pairs that a new interface needs are those it pulls |
| `Mesh.NewRoutePairs` | netmodel/sbridge.c:251-258 | the pairs that a new route needs are those that are pushed |
| `Mesh.GoneIfPairs` | netmodel/sbridge.c:230-242 | without the interface's own pairs the rest is what the smaller bridge needs |
| `Mesh.GoneRoutePairs` | netmodel/sbridge.c:275-281 | without the route's pairs the rest is what the smaller bridge needs |
| `Mesh.NewPort` | netmodel/sbridge.c:177-205 | a new interface keeps keys and chains of each physical interface unshared |
| `Dataplane.GroupRule` | netmodel/sbridge.c:189-196 | the masked broadcast address matches exactly the group addresses |
| `Dataplane.OwnChain` | netmodel/sbridge.c:158-162 | the chain that a group rule selects holds exactly the actions of its interface |
| `Dataplane.GroupFlood` | netmodel/sbridge.c:22-55 | a group-addressed frame on the chain of its interface reaches each route of every other interface of the bridge once, nothing else, and not the physical interface it came from |
| `Dataplane.UnicastRoute` | netmodel/sbridge.c:73-104 | a unicast frame goes to exactly the route of its address, or nowhere if the bridge does not know it |
| `Dataplane.VniIsolation` | netmodel/sbridge.c:422-430 | a frame with a VNI is delivered only on bridges of the network with that VNI |
| `Dataplane.OnePort` | netmodel/sbridge.c:304-356 | two interfaces of a bridge never share a physical interface |
| `Dataplane.CopiesAreOwn` | netmodel/sbridge.c:22-31 | each copy leaves through its own route's interface; it carries that route's metadata if the route has any and, if it has none, what the last route before it left on the frame |
| `Chains.OrderHolds` | netmodel/rules.c:545-633 | every action of a packer is on its chain exactly once |
| `Chains.RunningIs` | netmodel/rules.c:586-609 | what the kernel runs on a chain, filter after filter, is the actions of the packer one after the other |
| `Chains.MakeCarries` | netmodel/sbridge.c:33-55 | adding a broadcast action to its interface's packer keeps every packer's content equal to its interface's actions |
| `Chains.FreeCarries` | netmodel/sbridge.c:14-20 | so does removing it |
| `Chains.FloodRuns` | netmodel/sbridge.c:22-55 | running the packed kernel lists on a group-addressed frame gives one copy per route of every other interface of the bridge, with exact interface and metadata, and none back |
| `Chains.AloneServes` | netmodel/sbridge.c:368-385 | an interface alone on its physical interface serves every frame there, whatever VNI it carries |
| `Chains.AddVirtServes` | netmodel/sbridge.c:368-407 | a virt just added serves every frame on its interface: group-addressed frames reach each route of the other interfaces of its bridge once and none goes back, unicast frames go where their address is, and frames for its own address end at its route |
| `Classification.GroupLookup` | netmodel/sbridge.c:189-196 | a lookup among the compiled group rules, at priority 0xFF01, gives the chain of the interface that serves the frame exactly for group addresses |
| `Classification.FallbackLookup` | netmodel/sbridge.c:200-203 | a lookup among the compiled fallback rules, at priority 0xFF02, gives the bridge of the interface that serves the frame |
| `Classification.ForwardLookup` | netmodel/sbridge.c:85-104 | a lookup among the compiled forwarding rules of a bridge gives the route of the frame's address |
| `Classification.GroupFirst` | netmodel/private/rules.h:15-18 | the lowest priority that matches decides, so that the group rules are asked before the fallback rules |
| `Classification.FirstHit` | netmodel/sbridge.c:158-168 | a frame on a physical interface is sent to the chain of the interface that serves it if its address is a group address, to the bridge of that interface otherwise, and nowhere if there is none |
| `Classification.Be32Value` | netmodel/nl.c:1121-1124 | the kernel is given the VNI to match in network byte order |
| `Classification.LookupsDeliver` | netmodel/sbridge.c:158-205 | letting the lowest matching priority decide, and running the chain or asking the bridge that it names, delivers every frame to the same routes |
| `Prefix.IsPrefixValid` | netmodel/nettypes.c:310-320 | a prefix is valid exactly if it is no longer than an address of its version has bits |
| `Prefix.GenPrefix` | netmodel/nettypes.c:204-213 | writes the bytes of the prefix in place and no others |
| `Prefix.MaskFromPrefix` | netmodel/nettypes.c:221-238 | for every valid prefix of either version, that many ones followed by zeros, in 4 or 16 bytes |
| `Prefix.PartialByte` | netmodel/nettypes.c:259-270 | accepts exactly the bytes of fewer than eight ones followed by zeros |
| `Prefix.MaskIsPrefix` | netmodel/nettypes.c:244-278 | accepts exactly the bit strings of ones followed by zeros |
| `Prefix.PrefixFromMask` | netmodel/nettypes.c:284-303 | counts the leading ones of any accepted mask |
| `Prefix.OnesThenZerosBytes` | netmodel/nettypes.c:204-213 | a mask seen as bits and as bytes is the same mask |
| `Prefix.Bijection` | netmodel/nettypes.c:204-320 | prefixes and masks determine each other |

## Left out

- Netlink messages, sockets, link and qdisc creation, interface lookup, names, hooks, dumping, text parsing and the daemon: foreign input and output, or easy members.
- Kernel and allocation failures in commit runs, rulesets and bridges: several error paths do not restore state; only `LifeCycle` and `Failing` let kernel calls fail. Exhaustion of chains and of the handles of rulesets and bridges is modelled; the handles of the two classification priorities of a physical interface cannot run out before its chains, since an interface takes one chain and at most one handle of each.
- `lsdn_phys_unclaim_local` and `disable_decommit` are not part of the runs.
- Engine.Context.PhysAttach: excludes an attachment that waits for deletion, which the source would hand out again (netmodel/lsdn.c:441-444).
- Engine.Context.VirtConnect: excludes an attachment that waits for deletion, as above.
- Engine.Context.PhysFree: excludes a phys through which a deleted virt is still connected, where the assertion in `renew` fails (netmodel/lsdn.c:22).
- Engine.Context.Cleanup: excludes deleted virts that are still plugged in, for the same reason; no commit leaves one behind.
- Engine.Context.Validate: the checks that depend on attributes and on the network type are given as the sets of networks and physes they object to; the check of explicit attachment is modelled.
- Engine.Context.CommitVirts: rates are part of what the add_virt event carries instead of separate kernel steps.
- Firewall rules are not part of commit runs: `decommit_rules` looks at the state of a virt after RENEW has become NEW (netmodel/lsdn.c:1015), so a renewed virt keeps its old rules. Installation is proved at the level of one ruleset.
- Failing.DecommitPhase: objects are values in sequences, so update in place is not captured; views on attachments that are still NEW, which a failing installation can leave behind, are excluded, because the source frees such an attachment under its views; only the decommit phase has failures, convergence of the later phases is not claimed.
- Promises.DestroyAllowed: follows one attachment and its phys.
- Ruleset.Ruleset.Add: requires that the combined actions of a filter stay below 32 and that the targets do not mix IPv4 and IPv6, where the source aborts; hash tables and source lists are maps and sequences.
- Broadcast.Broadcast.Add: the slots are a sequence and the filters a map, so update of the slot array in place is not captured; the wrap-around of the 16-bit priority counter is not modelled.
- Clist.Flush: the callback is a possible failure and an arbitrary change of the entry's own links; what the callbacks of the bridge do is in Sbridge.Switch.FlushOwner.
- Sbridge.Switch.AddIf: the rules of other users of the shared priorities are not modelled; the source ignores the result of adding the fallback rule, which cannot fail where the first rule was added.
- Sbridge.Switch.AddRoute: failures of the packer are not modelled; the source then returns only the result of its cleanup.
- Sbridge.Switch.Init: failures of link creation are not modelled; the VNI is kept with the bridge instead of with its network.
- Dataplane.GroupFlood: takes the content of the chain as given; Chains.FloodRuns derives it from the packer.
- Chains.FloodRuns: that a packer carries its interface's actions is kept by the single steps (Chains.MakeCarries, Chains.FreeCarries); the packers are not fields of the bridge model.
- Classification.LookupsDeliver: that the rulesets hold the rules of the interfaces and addresses is a hypothesis about their live rules, and so is that no rule at another priority of the physical interface, such as one of a firewall, takes the frame.
- Sbridge.Switch.IfBrMake: the call of the packer is not made here; its effect on the packer's content is Chains.MakeCarries.
- Sbridge.Switch.AddVirt: the state at the failing assertion is the result; creation of the qdiscs is not modelled.
- Dataplane.UnicastRoute: for runs in which no forwarding rule was refused.
- Runs.CommitBoth: both contexts are given the same sets of objections by the checks that are not modelled.
- The lists of the bridge are sequences; that rings realise sequences is proved in `List` and `Clist`.
