# Verified models of the stateful cores of the connectivity stack

Eight services of the stack keep state that is awkward to keep right: a tree
edited in place, rows in two interleaved lists, caches written while a search
is under way, files renamed between two awaits. Each is modelled here in the
form its code has, with classes whose methods update their fields step by step,
proved against specifications, and the properties the services rely on are
proved about those specifications for every input and every run.

| Service | Modules |
|---|---|
| i3X object tree (`acs-i3x`) | `OriginMaps`, `OriginWalk`, `TreeShape`, `TreeSpec`, `TreeFacts`, `TreeConfig`, `TreeUns`, `TreeHeld`, `TreeDiff`, `ObjectTrees`, `TreeRefresh`, `TreeRoundTrip` |
| Directory sessions (`acs-directory`) | `Sessions`, `Directories`, `DirectoryAnswers`, `Notices` |
| Dataset resolvers (`acs-data-access`) | `Datasets`, `DatasetService` |
| Class graph (`acs-configdb`) | `Paths`, `ClassGraph`, `ClassMembers`, `ClassModel` |
| Permission expressions (`acs-auth`) | `Sexpr`, `SexprLaws` |
| File uploads (`acs-files`) | `Uploads`, `UploadRuns`, `FileService` |
| Push FIFO (`acs-git`) | `Fifo` |
| i3X subscriptions (`acs-i3x`), rebirth throttle (`acs-directory`) | `Subscriptions`, `Rebirths` |

`dafny verify dfyconfig.toml` checks everything.

## How to read it

**Object tree.** `TreeSnapshot` has the five maps of the snapshot; `View()` is
their value. `WellFormed` says that `children` lists exactly the nodes that name
the parent, that a rank falls along every parent pointer, and what each kind of
node may hang from. `ConfigEq(t, own, ns, m)` says that the configuration nodes
of `t` are those that the devices `m` ask for. That description depends on `m`
alone, so it also says what building `m` from nothing gives. `Refreshed` adds
which UNS nodes of the old tree survive. The incremental path
(`ApplyDiff`) always ends in one, from the tree of an emission; the rebuild
(`RefreshFromSnapshot`) does so exactly when the new configuration reuses no id
from below a carried UNS node (`NoReuse`); and two `Refreshed` trees are equal.
A run of the service (`Run`) starts from any well-formed tree, since the tree is
built, and takes messages, before the first emission. `ConfigHeld` is `ConfigEq`
for the nodes of devices, wherever the devices hang, and stays true whatever
moves; `InPlace` says that a device hangs where it is configured; and `Updated`
is what a diff makes of a tree in which devices have moved. `Astray` computes,
from the events alone, which devices are out of place, and `Follows` says that
these are exactly the devices that do not hang where they are configured.
`EverStrayed` tells whether any device ever was: ISA-95 levels may then be left
over, so that the tree need not be `ConfigEq` any more although all devices are
back. `trace` has the trees on the way, and a run stops where the tree breaks.

A `Way` is a way down through the fields of an originMap, by keys that are not
metadata. `Asked` says that it ends at an entry that is typed or has objects
nested in it, and `OriginWalk` shows that the walk builds exactly the nodes of
these entries.

`own` maps a configured UUID to the device it belongs to. Its existence is the
assumption that devices do not share node ids and that nested ids are not
device ids. Version 5 UUIDs (section 4.3 of RFC 4122) are free constructors of
`Id`, which makes them injective and disjoint from configured UUIDs.

**Sessions.** A SQL statement is one step on whole tables. `Chains` is the
invariant of both linked lists. Pruning is the delete statement of the service,
for one device; a row is `Reachable` if next pointers lead to it from a row
that is current, or directly before the current one, in either chain.
`Ages(t, n, u, m)` says what transactions keep of older sessions. A change
notification of a session reads the tables three times; `OnSessionNotify` has
other transactions run between the reads, and `UsageNotified` is what a single
read would give. `Bore` and `Died` say what a birth and a death do to the tables,
and `DirectoryAnswers` what the queries answer then.

**Datasets.** `Ideal` is the recursion without a cache, and `Doomed` a
condition on paths of the graph. `Resolver.Resolve` is the memoised search with
its cycle detection; `Export` is what the service does when data is read.

**Class graph.** `Db` has the tables, `AllSubclass` and `AllMembership` are the
views. Identifiers stand for rows; the integer key and the UUID of an object
are not told apart.

**Expressions.** A failed lookup returns a bare null, which is an outcome of
its own (`NoSuchKey`). Evaluation is a total function, so it always ends.
Builtins and JavaScript's property lookup are parameters of the evaluator, so
the laws hold for all of them.

**Uploads.** `Apply` is one step of one upload, or a crash, or one step of
start-up; `After(steps)` is the state after any interleaving of them. `sent` has
everything that was ever uploaded. `lost` has the UUIDs whose entry was stored
although its request seemed to fail, and `damaged` those at risk in a crash.

**FIFO, subscriptions, throttle.** The classes keep, as ghost fields, everything
read so far, everything that has happened to a subscription, and all rebirths
granted; their invariants compare the real fields with these.

## What the code turns out not to do

* A full rebuild lets a UNS node win over the configuration if and only if the
  new configuration reuses an id from below a carried UNS node, and the tree is
  then malformed (`RebuildExact`; `ReuseExample` and `ReuseOutcome` for a run).
  The comment at acs-i3x/lib/object-tree.ts:199-202 says that the configuration
  wins. Every start of the service does such a rebuild (`Run`). It is right over
  a tree without UNS nodes, and for the emission that the tree shows already
  (`NoUnsNoReuse`, `SameEmissionNoReuse`).
* The one-letter type of a metric is right for every Sparkplug type but a plain
  `Double`, whose last two letters are taken for a byte order (`TypeSuffixExact`).
* A UNS message about a device that is not in the tree puts in nodes that hang
  from nothing; the tree is malformed if and only if the message has segments
  (`AddCompositionFromUns`).
* Adding a subclass keeps the closure if and only if each superclass that is removed
  still gets to the class by a way around the object; making a class a subclass of
  itself loses its superclasses (`AddSubclassClosure`, `SelfSubclassLoses`).
* Turning a class into an individual accepts that class itself as the new
  class; the object is then a member of itself (`ToFromKeeps`, `OwnClassBreaks`).
* An upload whose metadata request is stored but answered with an error leaves
  an entry without a file (`LostReplyLeavesEntry`). If another upload to the
  UUID is then cut short by a crash, start-up stores the bytes that had arrived
  as the file, under the size of the first (`TruncatedUpload`); later PUTs are
  refused with 409. `CrashRecovery` and `InterruptedUpload` say exactly when an
  entry has no file and when its file is not the whole upload. The comment at
  acs-files/lib/startup.js:37 takes an entry to mean that the upload succeeded.
* After a crash during a PUT to a stored UUID, start-up replaces the file by an
  empty one (`CrashRecovery`; `EmptiedFile` for a run, for any contents).
* A session's notification reads the schemas of the session and of the one that
  it replaced after the row itself, and both may have been pruned by then. What is
  announced is then the schema difference if and only if `ReadsHold`: no schemas
  went with the rows that had gone before they were read, or both rows had gone
  and their schemas were the same (`AnnouncedExact`). While the session is current
  this holds (`CurrentReadsHold`). If its device is born again in between, the
  prune that follows can take the predecessor, and every schema of the session is
  announced although nothing changed (`Republished`, `RepublishExample`); the
  comment at acs-directory/lib/queries.js:198-201 has the predecessor kept so that
  this does not happen.
* Nested `let`s can exceed the depth limit where one `let` with the same
  bindings does not (`NestingCostsDepth`).
* A union's published window leaves out instants of a component, if that has any,
  exactly when the component is open at an end at which another is bounded
  (`HullEncloses`, `HullNeedNotEnclose`).

## Model

| member | source | states |
|---|---|---|
| ObjectTrees.TreeSnapshot.AddNode | acs-i3x/lib/object-tree.ts:777-792 | a node is added to objects, sources and its parent's children, and the tree stays well formed with ranks that fall to the parent |
| ObjectTrees.TreeSnapshot.BuildTreeFromOriginMap | acs-i3x/lib/object-tree.ts:742-816 | the walk places exactly the nodes of the origin map in pre-order, never overwrites a node that is there, writes metric metadata at every leaf, and only adds configuration nodes |
| ObjectTrees.TreeSnapshot.Reparent | acs-i3x/lib/object-tree.ts:574-591 | the device leaves its old parent's children and joins the new parent's; nothing else moves and no cycle arises |
| ObjectTrees.TreeSnapshot.EnsureIsa95Hierarchy | acs-i3x/lib/object-tree.ts:548-592 | the missing levels of the path exist afterwards, existing ones are untouched, and the device hangs from the deepest level |
| ObjectTrees.TreeSnapshot.StoreDevice | acs-i3x/lib/object-tree.ts:941-943 | the device's node is stored but listed nowhere until its hierarchy is built |
| ObjectTrees.TreeSnapshot.BuildDevice | acs-i3x/lib/object-tree.ts:908-955 | a device with config and schema gets its node, its ISA-95 path (or namespace/Unknown) and its metric tree; any other device changes nothing |
| ObjectTrees.TreeSnapshot.RemoveSubtree | acs-i3x/lib/object-tree.ts:385-396 | the recursion removes the node and everything below it from all four maps and nothing else |
| ObjectTrees.TreeSnapshot.CollectIsa95Ancestors | acs-i3x/lib/object-tree.ts:352-361 | the ancestors of the device's parent, bottom-up, to the top |
| ObjectTrees.TreeSnapshot.CleanupOrphanAncestors | acs-i3x/lib/object-tree.ts:369-382 | ISA-95 nodes are dropped bottom-up until one still has children, and the tree stays well formed |
| ObjectTrees.TreeSnapshot.AddDevice | acs-i3x/lib/object-tree.ts:266-268 | adding on the live snapshot has the effect of building the device, from a tree that has none of its nodes |
| ObjectTrees.TreeSnapshot.RemoveDevice | acs-i3x/lib/object-tree.ts:275-288 | all nodes of the device go, configuration and UNS alike, with the ISA-95 nodes left childless on its path |
| ObjectTrees.TreeSnapshot.UpdateDeviceName | acs-i3x/lib/object-tree.ts:329-332 | only the display name of the device's own node changes |
| ObjectTrees.TreeSnapshot.CaptureUnsDescendants | acs-i3x/lib/object-tree.ts:404-426 | the UNS nodes below the device are captured, each exactly once, with their parents and metadata, parents before children |
| ObjectTrees.TreeSnapshot.Restore | acs-i3x/lib/object-tree.ts:318-324 | a captured node is put back as a UNS node under its old parent with its old metadata |
| ObjectTrees.TreeSnapshot.Regraft | acs-i3x/lib/object-tree.ts:314-325 | one pass over the captures puts back exactly the kept set of the device's UNS nodes |
| ObjectTrees.TreeSnapshot.ReplaceDeviceSubtree | acs-i3x/lib/object-tree.ts:295-326 | the result is the old tree without the device, with the new config built in, and with the kept UNS nodes of the device as they were |
| ObjectTrees.TreeSnapshot.CopyUnsSubtree | acs-i3x/lib/object-tree.ts:223-246 | the node and everything that was below it in the old snapshot is copied in as UNS nodes |
| ObjectTrees.TreeSnapshot.PreserveUnsNodes | acs-i3x/lib/object-tree.ts:204-220 | the work-queue loop copies exactly the subtrees of UNS nodes that the new tree lacks and whose parents it has |
| ObjectTrees.TreeSnapshot.FindChildByName | acs-i3x/lib/object-tree.ts:680-688 | a child with that display name, and none only if there is none |
| ObjectTrees.TreeSnapshot.AddUnsNode | acs-i3x/lib/object-tree.ts:639-668 | under any parent, in any tree: an existing child of that name is reused; otherwise the node has the instance id or the derived id and is created as a UNS node only if that id is free |
| ObjectTrees.TreeSnapshot.AddCompositionFromUns | acs-i3x/lib/object-tree.ts:596-675 | the segments lead along a path from the device to the returned leaf, and every new node is on that path and looks as the message says; if the device is in the tree nothing else changes apart from the optional move along the ISA-95 path; the tree stays well formed if and only if the device is in it or the message has no segments |
| OriginMaps.DevicePathIs | acs-i3x/lib/object-tree.ts:927-937 | a device with a hierarchy in its config hangs from the longest unbroken run of ISA-95 levels, and any other from namespace/Unknown |
| OriginMaps.SegmentsAreLongestRun | acs-i3x/lib/object-tree.ts:711-721 | the ISA-95 segments are the values of the levels from the top to the first level without one |
| OriginMaps.SearchFinds | acs-i3x/lib/object-tree.ts:694-704 | the search through the origin map finds a nested object with the hierarchy schema if and only if there is one |
| OriginMaps.AfterLastSlash | acs-i3x/lib/object-tree.ts:796-800 | the metric name of a path begins after its last slash: the character before it is a slash, and none follows |
| OriginWalk.WalkFinds | acs-i3x/lib/object-tree.ts:742-816 | every entry of an originMap that is reached from object to object by keys that are not metadata, and has a string type or an object nested in it, has a node; it is named by its last key and identified by its instance UUID or by the key below the node above; with nothing nested in it, it is a leaf with metadata |
| OriginWalk.WalkOnly | acs-i3x/lib/object-tree.ts:742-816 | and every node of the walk is one of these |
| OriginWalk.MetaForIs | acs-i3x/lib/object-tree.ts:794-808 | the metadata of a leaf name its device, and its full path split at the last slash |
| OriginWalk.TypeSuffixExact | acs-i3x/lib/object-tree.ts:114-124 | the type letter is that of the Sparkplug type without its byte order, if and only if the type is not a plain `Double` |
| OriginWalk.BuiltDevice | acs-i3x/lib/object-tree.ts:908-943 | a device without config or schema changes nothing; any other has a node with the schema of its config or else of its originMap, named by Info, else by Sparkplug, else by UUID |
| OriginWalk.BuiltLevels | acs-i3x/lib/object-tree.ts:548-573 | every level of a device's path is in the tree, and a new one is named by its segment and hangs from the level above |
| OriginWalk.BuiltWays | acs-i3x/lib/object-tree.ts:945-953 | a device that is built has a node for every such entry of its originMap, and metadata for every such entry with nothing nested in it |
| OriginWalk.BuiltOnlyWays | acs-i3x/lib/object-tree.ts:742-792 | no node that was there changes, and what is new is the device, its levels and the nodes of such entries |
| OriginWalk.MetaOnlyWays | acs-i3x/lib/object-tree.ts:794-808 | metadata that changes are those of such an entry with nothing nested in it |
| TreeShape.InsertKeepsWf | acs-i3x/lib/object-tree.ts:777-792 | inserting a node under a suitable parent keeps the tree well formed |
| TreeShape.DetachKeepsWf | acs-i3x/lib/object-tree.ts:282-285 | removing a device's subtree and unlisting it keeps the tree well formed |
| TreeShape.DeviceDesc | acs-i3x/lib/object-tree.ts:385-396 | what is below a device is what belongs to it, so removing the subtree takes no other device's node |
| TreeShape.CleanUpKeepsWf | acs-i3x/lib/object-tree.ts:369-382 | dropping childless ISA-95 nodes keeps the tree well formed |
| TreeShape.MoveKeepsWf | acs-i3x/lib/object-tree.ts:574-591 | re-parenting a device keeps the tree well formed |
| TreeRoundTrip.ChainEnds | acs-i3x/lib/object-tree.ts:352-361 | from every node the parent pointers lead in finitely many steps, without repetition, to "/" |
| TreeRoundTrip.ConfigAboveConfig | acs-i3x/lib/object-tree.ts:191-203 | no configuration node hangs from a UNS node |
| TreeConfig.BuiltParts | acs-i3x/lib/object-tree.ts:908-955 | building a device puts in the nodes it asks for, adds its ISA-95 levels and touches no other device |
| TreeConfig.AddCfg | acs-i3x/lib/object-tree.ts:266-268 | adding a device to the tree of a configuration gives the tree of the configuration with it |
| TreeConfig.ChildlessIffUnused | acs-i3x/lib/object-tree.ts:369-382 | an ISA-95 node has a child if and only if some remaining device needs it |
| TreeConfig.CleanUpCfg | acs-i3x/lib/object-tree.ts:363-382 | the clean-up leaves exactly the ISA-95 nodes that some device still needs |
| TreeConfig.RemoveCfg | acs-i3x/lib/object-tree.ts:275-288 | removing a device from the tree of a configuration gives the tree of the configuration without it |
| TreeUns.KeptIsLeast | acs-i3x/lib/object-tree.ts:314-325 | the kept UNS nodes are the least set of nodes not in the new config whose parent is in the new config or kept itself |
| TreeUns.CarriedIsKept | acs-i3x/lib/object-tree.ts:204-246 | a rebuild carries all that a re-graft keeps, and the two agree if and only if no id below a carried node is reused |
| TreeUns.OverlayWf | acs-i3x/lib/object-tree.ts:204-246 | without reuse the rebuilt tree with its carried nodes is well formed |
| TreeUns.ReuseBreaksLinks | acs-i3x/lib/object-tree.ts:223-246 | with reuse some node is listed under a parent that it does not name |
| TreeUns.RebuildExact | acs-i3x/lib/object-tree.ts:178-189 | a rebuild is well formed, and true to its configuration, if and only if no id below a carried UNS node is reused |
| TreeRefresh.NoUnsNoReuse | acs-i3x/lib/object-tree.ts:178-189 | a rebuild over a tree without UNS nodes reuses no id |
| TreeRefresh.SameEmissionNoReuse | acs-i3x/lib/refresh.ts:116-130 | nor does a rebuild from the emission that the tree shows already, whatever messages have come in since |
| TreeRoundTrip.ReuseExample | acs-i3x/lib/object-tree.ts:199-203 | the tree of an emission, a message, and a second emission that reuses an id from below the UNS node of the message |
| TreeRoundTrip.ReuseOutcome | acs-i3x/lib/object-tree.ts:204-246 | from there every rebuild ends with the UNS node in the place of the configured metric, in a tree that is not linked and not that of the emission |
| TreeUns.UnsMessageExact | acs-i3x/lib/object-tree.ts:596-675 | a message leaves the tree true to its configuration if and only if it names no ISA-95 path or the configured one |
| TreeUns.IsaIdInjective | acs-i3x/lib/object-tree.ts:548-552 | different ISA-95 paths have different ids |
| TreeDiff.TypeIs | acs-i3x/lib/object-tree.ts:957-978 | a type is named by Info, else by the title of its schema, else by its UUID, and has its schema or an empty one |
| TreeDiff.RefreshedUnique | acs-i3x/lib/diff.ts:22-66 | the configuration and the old tree leave only one possible result: same objects, sources, metadata and child sets |
| TreeDiff.ConfigDetermined | acs-i3x/lib/refresh.ts:116-130 | two trees of the same emission have the same configuration nodes and metadata, whatever their history |
| TreeDiff.DiffIsRebuild | acs-i3x/lib/diff.ts:22-66 | the tree that a diff leaves is the tree that a full rebuild over the same old tree leaves, types included |
| TreeDiff.ReplaceStep | acs-i3x/lib/diff.ts:45-46 | wherever messages have moved devices, replacing one changed device brings that device to its final form and into its place, and leaves all others as they were |
| TreeDiff.KeepStep | acs-i3x/lib/diff.ts:47-52 | a device whose config body is unchanged needs at most its new name, and hangs where it hung |
| TreeDiff.RemoveStep | acs-i3x/lib/diff.ts:54-58 | removing a device that left the emission brings it to its final form and leaves all others as they were |
| TreeDiff.DiffEnds | acs-i3x/lib/diff.ts:39-58 | when all devices of both emissions are done the tree holds the new emission, each device where it was or, with a new config body, in its place; from the tree of the old emission it is the refreshed tree |
| TreeDiff.UpdatedUnique | acs-i3x/lib/diff.ts:22-66 | that description leaves only one possible result for every node of every device |
| TreeHeld.MessageHeld | acs-i3x/lib/object-tree.ts:596-675 | a message leaves every configuration node as it is but for its device, which hangs where the message says; that device is then in its place if and only if the message names the configured path, or names none and it was |
| TreeHeld.TreeOfConfig | acs-i3x/lib/object-tree.ts:908-955 | the tree of an emission holds all its nodes, with every device in its place |
| TreeRefresh.ObjectTree.AddObjectType | acs-i3x/lib/object-tree.ts:335-337 | the type is created or replaced, named by Info, schema title or UUID in this order |
| TreeRefresh.ObjectTree.BuildFresh | acs-i3x/lib/object-tree.ts:180-186 | building one emission from nothing gives a well-formed tree with exactly its configuration nodes and types |
| TreeRefresh.ObjectTree.RefreshFromSnapshot | acs-i3x/lib/object-tree.ts:178-189 | the swapped-in tree is linked and true to the emission if and only if no id is reused, and is then the refreshed tree |
| TreeRefresh.ObjectTreeRefresh.AddSchemas | acs-i3x/lib/diff.ts:27-36 | after the first pass every type of the new emission is current and the old ones are still there |
| TreeRefresh.ObjectTreeRefresh.RemoveSchemas | acs-i3x/lib/diff.ts:60-65 | after the last pass the types are exactly those of the new emission |
| TreeRefresh.ObjectTreeRefresh.ApplyDevice | acs-i3x/lib/diff.ts:39-53 | one device of the new emission is added, replaced, renamed or left, and reaches its final form, whether or not messages have moved devices |
| TreeRefresh.ObjectTreeRefresh.ApplyDevices | acs-i3x/lib/diff.ts:39-53 | the loop over the new emission brings every one of its devices to its final form |
| TreeRefresh.ObjectTreeRefresh.RemoveLeavers | acs-i3x/lib/diff.ts:54-58 | the devices that the new emission lacks go, which completes the diff |
| TreeRefresh.ObjectTreeRefresh.ApplyDiff | acs-i3x/lib/diff.ts:22-66 | wherever messages have moved devices, every node of every device ends as the new emission and the surviving UNS nodes have it, devices with a new config body in their place and the others where they were; from the tree of the old emission it gives the refreshed tree of the new one, with no condition on reused ids |
| TreeRefresh.ObjectTreeRefresh.OnEmission | acs-i3x/lib/refresh.ts:116-130 | the first emission rebuilds whatever tree is there, and ends linked and true to the emission if and only if it reuses no id from below a carried UNS node; every later one is a diff: the devices out of place are then exactly those that were so and have no new config body, and if no device had ever strayed the tree is the refreshed one |
| TreeRefresh.ObjectTreeRefresh.OnUnsMessage | acs-i3x/lib/object-tree.ts:596-675 | any message: the tree stays well formed if and only if the device is in it or the message has no segments; exactly that device is then in its place anew if the message names the configured path, and out of it if it names another; and the tree of the last emission stays that tree if and only if the message names no path or the configured one |
| TreeRefresh.ObjectTreeRefresh.OnEvent | acs-i3x/lib/refresh.ts:116-130 | an emission or message leaves the tree intact if and only if it does not disrupt the tree that it meets |
| TreeRefresh.ObjectTreeRefresh.Run | acs-i3x/bin/api.ts:33-90 | over any run of emissions and messages from any well-formed tree, messages before the first emission included: each event takes the tree one step, and the tree breaks exactly at the first message with segments about an absent device or first emission that reuses an id from below a carried UNS node; unbroken to the end, the tree holds every node of the last emission, the devices out of place are exactly those in `Astray` of the events, and it is the tree of that emission if no device has ever strayed |
| TreeRefresh.AstrayIs | acs-i3x/lib/diff.ts:45-52 | a device is out of place if and only if some message moved it off its configured path, and since then no message has named a path for it and no emission has dropped it or changed its config body |
| TreeRefresh.UpdatedInPlace | acs-i3x/lib/diff.ts:39-58 | after a diff a device is out of place if and only if it was so before and its config body is the same |
| TreeRefresh.MessageFollows | acs-i3x/lib/object-tree.ts:596-675 | a message takes its device into the devices out of place or out of them by the path it names, and leaves all others where they were |
| TreeRefresh.DoEdit | acs-i3x/lib/object-tree.ts:178-332 | a replacement, removal, renaming, message or full rebuild has its effect on the tree, and leaves it well formed if and only if it is not a message with segments about an absent device nor a rebuild that reuses an id |
| TreeRefresh.RunEdits | acs-i3x/lib/object-tree.ts:178-332 | any sequence of these, step by step: the tree is well formed up to the first edit that breaks the tree it meets, and if there is none to the end |
| TreeRoundTrip.AddThenRemove | acs-i3x/lib/object-tree.ts:266-288 | removing a device straight after adding it restores the tree if and only if no ISA-95 node already on its path was childless |
| TreeRoundTrip.ConfigHasNoneChildless | acs-i3x/lib/object-tree.ts:363-382 | in the tree of a configuration no ISA-95 node is childless, so the configuration operations keep that condition |
| Sessions.CurrentRow | acs-directory/lib/queries.js:322-336 | following a chain from any row ends at the one current row of its device or address |
| Sessions.OneOnline | acs-directory/lib/queries.js:459-475 | at most one session of a device, and at most one of an address, is online |
| Sessions.BirthKeepsChains | acs-directory/lib/queries.js:450-475 | the insert and the two updates keep both chains: no dangling pointer, later rows of the same key, no shared successor, superseded rows closed |
| Sessions.BirthIsCurrent | acs-directory/lib/queries.js:459-475 | the new session is the only one online in both chains, succeeds exactly the rows that were current, and no finish time is overwritten |
| Sessions.ClosingKeepsChains | acs-directory/lib/queries.js:149-155 | filling in finish times keeps the chains |
| Sessions.PruneKeepsChains | acs-directory/lib/queries.js:203-227 | deleting any eligible rows, in any order, keeps both chains and keeps the rest eligible |
| Sessions.ReachableStays | acs-directory/lib/queries.js:197-208 | deleting eligible rows changes no row's reachability |
| Sessions.PruneTowardsEnd | acs-directory/lib/queries.js:203-208 | every prune, of whichever rows, keeps the same end table |
| Sessions.EndIsReachable | acs-directory/lib/queries.js:197-208 | when nothing is deletable the rows are exactly those reachable from a current row or the row directly before one |
| Directories.Directory.FindOrCreateDevice | acs-directory/lib/queries.js:37-54 | a valid UUID has one key, made if need be; an invalid one has none and changes nothing |
| Directories.Directory.FindOrCreateAddress | acs-directory/lib/queries.js:270-288 | an address has one key, made if need be |
| Directories.Directory.FindOrCreateSchema | acs-directory/lib/queries.js:37-54 | a valid schema UUID has one key, made if need be; an invalid one has none and changes nothing |
| Directories.Directory.FindOrCreateMissingUuid | acs-directory/lib/queries.js:430-443 | an address keeps the UUID that was once made up for it |
| Directories.Directory.LinkIn | acs-directory/lib/queries.js:460-475 | the update of one chain: rows of that key without a successor get the new one and a finish time if they have none |
| Directories.Directory.RecordBirth | acs-directory/lib/queries.js:445-478 | a new row that succeeds the current row of its device and of its address; integrity kept |
| Directories.Directory.RecordDeath | acs-directory/lib/queries.js:482-500 | the online sessions at the address, or with no device named at any address of the node, get the finish time; all other rows stay; a DEATH without a time is refused |
| Directories.Directory.CloseAllSessions | acs-directory/lib/queries.js:149-155 | exactly the open sessions get the finish time |
| Directories.Directory.PruneDeviceSessions | acs-directory/lib/queries.js:209-230 | exactly the eligible rows of the device go, with their schema uses, and their number is returned |
| Directories.Directory.RecordSchema | acs-directory/lib/queries.js:232-240 | a valid schema UUID is recorded for the session; an invalid one is ignored |
| Directories.Directory.RecordSchemas | acs-directory/lib/model.js:80-81 | the session uses exactly the valid schemas of the birth |
| Directories.Directory.Identify | acs-directory/lib/model.js:60-71 | a birth is for the device that it names, or for the UUID that was once made up for its address |
| Directories.Directory.Birth | acs-directory/lib/model.js:60-81 | the transaction ends with the new session current and online for the device named, or made up for the address, with its schemas; an invalid device UUID records no session |
| Directories.Directory.Run | acs-directory/lib/model.js:60-104 | after any run of births, deaths, restarts and prunes the tables are intact and each device and each address has at most one session online; every older session is gone, or has the schemas and the successor that it had, and one that is current still has its predecessor |
| Directories.Directory.PruneUntilDone | acs-directory/lib/queries.js:203-230 | pruning devices in any order until nothing goes terminates in one table: the reachable rows |
| Directories.BirthAges | acs-directory/lib/queries.js:445-478 | across a birth every older session keeps its schemas and the successor it had, and the predecessor of a session that is still current stays |
| Directories.PruneAges | acs-directory/lib/queries.js:209-230 | across a prune the sessions that stay do the same |
| Directories.PruneTakes | acs-directory/lib/queries.js:209-227 | a prune takes rows of its device only, and all of them that may go |
| DirectoryAnswers.ValidUuidIs | acs-directory/lib/queries.js:7-14 | a UUID is valid if and only if it is five groups of lower-case hexadecimal digits with dashes between them |
| DirectoryAnswers.BirthAnswers | acs-directory/lib/queries.js:323-336 | after a birth the address answers with that device alone, online, and the device uses exactly the schemas of the new session |
| DirectoryAnswers.BirthKeepsUuid | acs-directory/lib/queries.js:445-478 | every other address answers with the device that it answered with |
| DirectoryAnswers.BirthElsewhere | acs-directory/lib/queries.js:114-126 | every other address is online if and only if it was and the device has not come from there |
| DirectoryAnswers.BirthOfOther | acs-directory/lib/queries.js:251-266 | no other device changes the schemas that it uses now |
| DirectoryAnswers.SchemasOfBirth | acs-directory/lib/queries.js:176-185 | the schemas of the new session are the valid ones that the birth lists |
| DirectoryAnswers.BirthStatus | acs-directory/lib/queries.js:79-90 | what is shown of the device is the new session with its schemas |
| DirectoryAnswers.BirthNotified | acs-directory/lib/queries.js:94-112 | the notification of the new session has the session that was current for the device as its predecessor |
| DirectoryAnswers.BirthUsage | acs-directory/lib/mqttcli.js:301-327 | read at one instant, a schema is announced after a birth if and only if the device used it just before or uses it now, and not both |
| DirectoryAnswers.DeathAnswers | acs-directory/lib/queries.js:480-500 | after a node's DEATH no address of the node is online, after a device's its own is not; every other address is as it was, and no address changes its device |
| Directories.AddrAnswersUnique | acs-directory/lib/queries.js:114-126 | the address queries have at most one answer, and one for every address that was ever used |
| Directories.PredecessorUnique | acs-directory/lib/queries.js:94-112 | the left join gives a session at most one predecessor |
| Directories.PrunedIntegrity | acs-directory/lib/queries.js:187-208 | pruning leaves no dangling foreign key |
| Directories.PruneInvisibleAddr | acs-directory/lib/queries.js:322-336 | deleting any eligible rows changes no answer about an address |
| Directories.PruneInvisibleSchema | acs-directory/lib/queries.js:251-266 | deleting any eligible rows does not change which devices use a schema |
| Directories.PruneInvisibleStatus | acs-directory/lib/queries.js:79-90 | deleting any eligible rows does not change the status of a device |
| Directories.PruneInvisibleInfo | acs-directory/lib/queries.js:94-112 | deleting any eligible rows does not change the notification row, predecessor included, of a session current in its device chain |
| Directories.PruneInvisibleChanges | acs-directory/lib/queries.js:158-174 | of any session that stays, the schemas in which it differs from its successor are unchanged by deleting eligible rows |
| Directories.PruneInvisibleUsage | acs-directory/lib/mqttcli.js:322-327 | read at one instant, the schemas announced for a session that stays are unchanged by a prune if and only if no predecessor with schemas was deleted, and for a current session always |
| Directories.UsageIsChanges | acs-directory/lib/mqttcli.js:322-327 | read at one instant, what is announced for a session with a predecessor is in what the schemas of that one differ from its own |
| Notices.OnSessionNotify | acs-directory/lib/mqttcli.js:300-343 | any transactions may run between the three reads: a session that is gone announces nothing; device and address are announced by the row read first; the schemas announced are the difference that a single read would give if and only if `ReadsHold`, so always while the session is current; and a session read as current has its device pruned |
| Notices.AnnouncedExact | acs-directory/lib/mqttcli.js:301-327 | that condition over the tables at the three reads: no schemas went with a row that had gone before its schemas were read, or both rows had gone and had the same schemas |
| Notices.CurrentReadsHold | acs-directory/lib/queries.js:197-201 | a session still current at the last read has its own and its predecessor's schemas read as they were |
| Notices.Republished | acs-directory/lib/queries.js:197-201 | when the device is born again between the reads, the prune can take the predecessor, and every schema of the session is announced |
| Notices.RepublishExample | acs-directory/lib/queries.js:197-201 | tables of a device born twice, then three times, with one schema: a single read announces nothing, the three reads announce the schema |
| Datasets.IntersectIsIntersection | acs-data-access/lib/api-v1.js:211-220 | the window arithmetic is intersection of sets of instants, and a window is refused exactly when it has no instant |
| Datasets.ResolveExact | acs-data-access/lib/dataflow.js:420-626 | the recursion without a cache succeeds if and only if the dataset reaches no undefined id, duplicate or unknown definition, cycle or given ancestor |
| Datasets.VisitedIrrelevant | acs-data-access/lib/dataflow.js:420-440 | a success does not depend on the set of ancestors |
| Datasets.IdealExact | acs-data-access/lib/dataflow.js:420-626 | started without ancestors the recursion fails if and only if the dataset reaches an undefined id, a duplicate or unknown definition, or a cycle |
| Datasets.ChildUnderParent | acs-data-access/lib/dataflow.js:435-440 | resolving a component with or without its parent on the stack differs only if the parent reaches a cycle or something broken |
| Datasets.IdealEquation | acs-data-access/lib/dataflow.js:475-626 | the right answers satisfy the node rule with the components' own right answers, which is why they may be cached |
| Datasets.HullIsExtreme | acs-data-access/lib/dataflow.js:574-610 | a union has the least start and the greatest end among the components that have one |
| Datasets.HullEncloses | acs-data-access/lib/dataflow.js:574-610 | the published window of a union contains that of a component with any instants if and only if the component is bounded at each end at which some component is |
| Datasets.HullNeedNotEnclose | acs-data-access/lib/dataflow.js:574-610 | so the published window can leave out instants of a component |
| Datasets.RoutesExact | acs-data-access/lib/unions-components-handler.js:51-65 | the routes of an export are exactly the paths from the dataset to a source |
| Datasets.RoutesDistinct | acs-data-access/lib/unions-components-handler.js:51-65 | an export lists each path to a source once, if no union repeats a component |
| Datasets.AlongIsIntersection | acs-data-access/lib/session-limits-handler.js:54-70 | the window handed down a path is the intersection of the inherited one with the limits of all sessions on it |
| DatasetService.Resolver.Resolve | acs-data-access/lib/dataflow.js:420-626 | the memoised search returns the cache-free answer and every cached entry is right, also the nulls written for nodes still on the stack |
| DatasetService.NormaliseAll | acs-data-access/lib/dataflow.js:365-398 | a dataset with other than exactly one definition becomes the invalid dataset |
| DatasetService.BuildDatasets | acs-data-access/lib/dataflow.js:335-675 | resolving in any order with one cache publishes the cache-free answer for every dataset |
| DatasetService.SourceWindow | acs-data-access/lib/dataflow.js:524-545 | a source is published without bounds |
| DatasetService.SessionWindow | acs-data-access/lib/dataflow.js:475-522 | a session that is published as usable limits a usable dataset, from the later start to the earlier end, and has the instants of that dataset within its own limits |
| DatasetService.UnionWindow | acs-data-access/lib/dataflow.js:550-620 | a union is usable if and only if all its parts are, from their least start to their greatest end that are bounded |
| DatasetService.BrokenIffDoomed | acs-data-access/lib/dataflow.js:634-675 | a dataset is published as invalid if and only if something it reaches is wrong |
| DatasetService.ResolveDataset | acs-data-access/lib/api-v1.js:181-208 | the export with its shared and copied `visited` sets computes the recursion on values, and terminates |
| DatasetService.ResolveParts | acs-data-access/lib/unions-components-handler.js:51-65 | a union exports its parts in order, each with its own copy of `visited`, up to the first that fails |
| DatasetService.ExportExact | acs-data-access/lib/api-v1.js:181-220 | an export of a valid dataset never reports a cycle, a missing or an invalid dataset; it gives one entry per route with the window of that route, if and only if every session that is reached has both bounds and no window is empty at a session; otherwise it fails for one of these reasons that holds |
| DatasetService.PublishedExports | acs-data-access/lib/api-v1.js:181-220 | what is published decides the export: missing and invalid datasets are refused, the others export exactly their paths to sources |
| ClassGraph.AddSubclassClosure | acs-configdb/lib/model.js:591-606 | deleting the redundant rows and adding the new one gives the closure of the old rows plus the new one, if and only if each deleted superclass has a way around the object |
| ClassGraph.NoCycleWayAround | acs-configdb/lib/model.js:591-606 | whenever the class is neither the object nor below it, every deleted superclass has a way around the object |
| ClassGraph.AddSubclassMembers | acs-configdb/lib/model.js:597-605 | when there is a way around, every class has the members it would have with the redundant rows left in |
| ClassGraph.MembershipIs | acs-configdb/sql/v8.sql:84-100 | membership through the views is a path of subclass rows followed by a membership row |
| ClassGraph.SelfSubclassLoses | acs-configdb/lib/model.js:591-606 | a class made a subclass of itself loses its rank class |
| ClassGraph.AddSubclassKeeps | acs-configdb/lib/model.js:591-606 | the rank structure is kept if and only if the request closes no cycle |
| ClassGraph.RemoveSubclassKeeps | acs-configdb/lib/model.js:607-619 | removing a subclass keeps every class below its rank class |
| ClassGraph.ToFromKeeps | acs-configdb/lib/model.js:345-366 | turning an object into or from an individual keeps the rank structure if and only if it is not its own new class and not a rank class |
| ClassGraph.UpdateClassKeeps | acs-configdb/lib/model.js:327-335 | changing the primary class keeps the rank structure |
| ClassGraph.CreateNewKeeps | acs-configdb/lib/model.js:444-474 | a new object goes one rank below its class and, unless an individual, below its rank class |
| ClassGraph.DeleteKeeps | acs-configdb/lib/model.js:480-519 | deleting an object that nothing hangs from keeps the rank structure |
| ClassGraph.HandleKeeps | acs-configdb/lib/model.js:327-619 | every request keeps the rank structure if and only if it is admissible |
| ClassGraph.RunKeeps | acs-configdb/lib/model.js:327-619 | the rank structure holds after every run of admissible requests |
| ClassGraph.OwnClassBreaks | acs-configdb/lib/model.js:345-366 | a class without children can be made its own class and is then a member of itself |
| ClassMembers.AddMemberMembers | acs-configdb/lib/model.js:577-583 | an object that is added is a member of the class and of every class above it; no other membership changes |
| ClassMembers.RemoveMemberMembers | acs-configdb/lib/model.js:584-590 | after a removal the members of each class are those that some other row makes members, and the object is still in its primary class |
| ClassMembers.AddSubclassRows | acs-configdb/lib/model.js:591-606 | the row is added, and the rows to the object from the class and from what is above it go |
| ClassMembers.AddSubclassTransfers | acs-configdb/lib/model.js:591-606 | if there is a way around, the members of the object, and no others, become members of the class and of all classes above it |
| ClassMembers.RemoveSubclassMembers | acs-configdb/lib/model.js:607-619 | memberships that need the row go; if nothing is left above the object its members, and no others, are put in its rank class |
| ClassMembers.UpdateClassMembers | acs-configdb/lib/model.js:327-335 | the object becomes a member of its new primary class and of what is above that, with a row of its own if and only if it was none |
| ClassMembers.ToFromMembers | acs-configdb/lib/model.js:345-366 | an object turned into or from an individual is in its new class and what is above that and in nothing else, below its new rank class if it has one; all others stay |
| ClassMembers.RegisterMembers | acs-configdb/lib/model.js:259-292 | a registration gives the object the class and the rank that it names, with the memberships of a class change or of a change to or from an individual |
| ClassMembers.CreateExisting | acs-configdb/lib/model.js:444-453 | creating an object that exists changes its class if one is named, and nothing else |
| ClassMembers.CreateMembers | acs-configdb/lib/model.js:444-474 | a new object is in its class and what is above that and in nothing else, one rank below its class, and below its rank class if it has one |
| ClassMembers.DeleteMembers | acs-configdb/lib/model.js:480-519 | a deleted object is in nothing; all others stay |
| ClassMembers.SubclassView | acs-configdb/sql/v8.sql:84-95 | the view has the pairs joined by rows, and each class in any row with itself |
| ClassMembers.Answers | acs-configdb/lib/model.js:327-619 | each request is carried out if and only if it finds what it demands, and otherwise changes nothing and is answered with the status for what it did not find |
| ClassModel.Model.AllSubclassRows | acs-configdb/sql/v8.sql:84-95 | the recursive query computes the reflexive transitive closure over all classes |
| ClassModel.Model.HasMember | acs-configdb/lib/model.js:230-236 | the lookup in the membership view |
| ClassModel.Model.AddRankSuperclass | acs-configdb/lib/model.js:210-220 | an object that is not an individual gets the class of its rank as superclass |
| ClassModel.Model.ClassAddMember | acs-configdb/lib/model.js:577-583 | a member one rank below its class is added; anything else is refused and changes nothing |
| ClassModel.Model.ClassRemoveMember | acs-configdb/lib/model.js:584-590 | the row goes unless the object would then not be a member of its primary class |
| ClassModel.Model.ClassAddSubclass | acs-configdb/lib/model.js:591-606 | rows from superclasses of the class to the object are replaced by one from the class |
| ClassModel.Model.ClassRemoveSubclass | acs-configdb/lib/model.js:607-619 | the row goes, and an object left without a superclass goes below its rank class |
| ClassModel.Model.ChangeClass | acs-configdb/lib/model.js:327-335 | the primary class changes to one of the next rank, with a membership row only if there is none already |
| ClassModel.Model.ChangeRank | acs-configdb/lib/model.js:345-366 | all rows of the object are replaced by one membership and the rank superclass; refused while it has children |
| ClassModel.Model.UpdateRegistration | acs-configdb/lib/model.js:259-292 | rank changes only to or from individual, class changes within the rank |
| ClassModel.Model.ObjectCreate | acs-configdb/lib/model.js:444-474 | an object is created one rank below its class, or its class updated if it exists |
| ClassModel.Model.ObjectDelete | acs-configdb/lib/model.js:480-519 | only an object without members, subclasses, uses or references goes, with its own rows |
| ClassModel.Model.Run | acs-configdb/lib/model.js:556-619 | any run of requests is the run of their specifications, and keeps the rank structure while they are admissible |
| Sexpr.Shallower | acs-auth/bin/sexpr.js:15-122 | a result obtained at some depth is obtained unchanged at every smaller depth |
| Sexpr.BuiltinsHold | acs-auth/bin/sexpr.js:93-95 | bindings of builtins and special forms are never seen: no evaluation depends on them |
| Sexpr.OverridingIsVain | acs-auth/bin/sexpr.js:93-95 | a `let` that binds such a name evaluates to its body without the binding |
| Sexpr.CallDependsOnValues | acs-auth/bin/sexpr.js:112-116 | at any depth, two calls of a function that no binding hides agree if their argument values do, whatever the environments |
| Sexpr.CallByValue | acs-auth/bin/sexpr.js:112-116 | below the depth limit such a call is the call with its argument values quoted, made where nothing is bound |
| Sexpr.BindingHidesFunction | acs-auth/bin/sexpr.js:97-110 | a binding of a function's name wins over the function: with any arguments the outcome is the look-up in what is bound |
| Sexpr.HiddenCallVaries | acs-auth/bin/sexpr.js:97-110 | there two bindings give the same outcome if and only if they are the same |
| Sexpr.BindingsSplit | acs-auth/bin/sexpr.js:63-70 | bindings are made one after the other, so a list of them splits at any even place |
| Sexpr.LetNested | acs-auth/bin/sexpr.js:63-70 | one `let` equals the nested ones whenever these succeed, and these succeed whenever the one does a level deeper |
| Sexpr.NestingCostsDepth | acs-auth/bin/sexpr.js:22-24 | at the depth limit nested `let`s fail whatever they bind, while the flat one succeeds if and only if it binds and returns scalars only |
| SexprLaws.ScalarIs | acs-auth/bin/sexpr.js:18-20 | a constant is its own value at any depth |
| SexprLaws.TooDeep | acs-auth/bin/sexpr.js:22-24 | nothing else can be evaluated below depth 20 |
| SexprLaws.AllOfOne | acs-auth/bin/sexpr.js:90-91 | one expression adds its values to a sequence, and a failed look-up a null |
| SexprLaws.IfChooses | acs-auth/bin/sexpr.js:72-77 | a condition with one value takes the first branch if that counts as true and the second if not, one level deeper; missing branches give undefined or nothing |
| SexprLaws.IfNeedsOne | acs-auth/bin/sexpr.js:42-46 | a condition with any other number of values is an error |
| SexprLaws.QuoteIs | acs-auth/bin/sexpr.js:60-61 | quoting gives the expressions themselves |
| SexprLaws.LetOne | acs-auth/bin/sexpr.js:63-70 | a `let` with one binding evaluates its body with the name bound to what the expression gives |
| SexprLaws.NameIs | acs-auth/bin/sexpr.js:97-110 | a bound name gives what it is bound to, or what is found in it under the keys |
| SexprLaws.IndexIs | acs-auth/bin/sexpr.js:102-109 | a key is looked up in an object, fails on null and is an error on a scalar |
| SexprLaws.EachIsLets | acs-auth/bin/sexpr.js:79-86 | the body of a `map` is evaluated once for each value, in order, as that many `let`s of the name to the quoted value |
| SexprLaws.MapIsLets | acs-auth/bin/sexpr.js:79-86 | so a `map` is these `let`s, one after the other, over the values of its list |
| SexprLaws.BindsAreArguments | acs-auth/bin/sexpr.js:112-116 | the arguments of a function are the bindings of its parameters to the quoted values |
| SexprLaws.CallIsLet | acs-auth/bin/sexpr.js:112-116 | a call is a `let` of the parameters to the quoted argument values, made where nothing else is bound |
| SexprLaws.AppliedIs | acs-auth/bin/sexpr.js:90-121 | builtins come first, a permission is put in front of its arguments, and any other name is an error |
| SexprLaws.AllSplit | acs-auth/bin/sexpr.js:90-91 | sequences evaluate from left to right, and fail if any part does |
| SexprLaws.TupleIs | acs-auth/bin/sexpr.js:49-53 | a tuple keeps its keys, each with the one value of its expression, and fails if there is not one |
| SexprLaws.LetOfOther | acs-auth/bin/sexpr.js:63-70 | a string in the place of the bindings is taken for its characters, and other values bind nothing |
| SexprLaws.MapOfOther | acs-auth/bin/sexpr.js:79-80 | a string in the place of name and body is taken for its characters, and other values are an error |
| Uploads.After | acs-files/lib/api-v1.js:120-189 | over every interleaving each UUID has at most one writer, who holds the temporary file; every entry whose request did not seem to fail is backed by its file; and every stored file is the whole of something uploaded under its UUID, unless a crash hit an upload on top of it or an upload cut short |
| Uploads.StepKeeps | acs-files/lib/api-v1.js:120-189 | each atomic step of an upload, a crash or start-up keeps the invariant of writers, temporary files and entries |
| Uploads.StepKeepsWhole | acs-files/lib/api-v1.js:120-189 | each atomic step keeps stored files whole uploads, apart from those that a crash has put at risk |
| Uploads.StoredIsKept | acs-files/lib/api-v1.js:143-149 | no step of the service replaces or removes a stored file |
| Uploads.CreatedIsStored | acs-files/lib/api-v1.js:160-188 | an upload answered with 201 has stored all its data, of at most the maximum size, under an entry of that size |
| Uploads.SweepThenClean | acs-files/lib/startup.js:27-46 | clean-up may be cut short, begun again, and take the files in any order |
| Uploads.CleanedIsUnique | acs-files/lib/startup.js:27-46 | whatever the order, clean-up has one outcome |
| Uploads.CrashRecovery | acs-files/lib/startup.js:27-46 | after a crash of the running service at any step, and clean-up: no temporary file is left; an entry has no file if and only if the reply to its request was lost and no upload to it is stored or under way; a stored file is intact if and only if no PUT to it was in flight or it was empty |
| Uploads.InterruptedUpload | acs-files/lib/startup.js:34-45 | clean-up stores what had arrived of an upload whose UUID has an entry and no file: the whole upload if and only if all had arrived, which can only fail for an entry whose reply was lost |
| Uploads.TruncatedUpload | acs-files/lib/startup.js:34-45 | for any two contents, a run that ends with a proper prefix of the second stored under the entry of the first, with no PUT to a stored file in it |
| Uploads.EmptiedFile | acs-files/lib/startup.js:34-45 | for any two contents, a run that stores the first, meets a crash when a second PUT has opened its temporary file, and ends with an empty file under the entry and size of the first |
| Uploads.LostReplyLeavesEntry | acs-files/lib/api-v1.js:173-182 | an entry that is stored although its request fails stays without a file, with the size of the failed upload |
| UploadRuns.Stored | acs-files/lib/api-v1.js:132-188 | from any reachable state, an upload within the limit to a free UUID that nothing interrupts is stored whole with an entry of its size and answered with 201; nothing else changes |
| UploadRuns.Locked | acs-files/lib/api-v1.js:126-132 | an upload that finds the temporary file is answered with 503 and changes nothing |
| UploadRuns.Exists | acs-files/lib/api-v1.js:142-149 | an upload that finds the file is answered with 409 and leaves nothing behind |
| UploadRuns.CutShort | acs-files/lib/api-v1.js:150-158 | an upload that breaks off is answered with 500, one that exceeds the limit with 413, wherever that happens, and neither leaves anything behind |
| UploadRuns.Refused | acs-files/lib/api-v1.js:173-182 | an upload whose entry is refused is answered with 503 and leaves nothing behind |
| UploadRuns.CrashDamages | acs-files/lib/startup.js:27-46 | a crash puts at risk exactly the UUIDs with an entry and an upload in flight that is on top of a stored file or is not whole after clean-up |
| UploadRuns.StartsUp | acs-files/lib/startup.js:27-46 | going once through all temporary files, in any order, is clean-up, and the service can begin |
| UploadRuns.EntrySize | acs-files/lib/startup.js:34-45 | a stored file has the size of its entry, unless the reply to the entry was lost or a crash put the file at risk |
| FileService.Service.Proceed | acs-files/lib/api-v1.js:132-188 | what an upload does from one await to the next, on the real files, is the step of the model |
| FileService.Service.Receive | acs-files/lib/api-v1.js:150-158 | bytes are appended until the size limit or the end of the stream |
| FileService.Service.WriteEntry | acs-files/lib/api-v1.js:173-182 | the entry is written, refused, or written with its reply lost |
| FileService.Service.StartUp | acs-files/lib/startup.js:14-46 | the loop over the directory renames each file that has an entry, deletes the others, and ends with none |
| Fifo.RecordsAndRest | acs-git/lib/status.js:75-98 | the records with their newlines followed by the rest are the bytes read |
| Fifo.StuckIffMisplaced | acs-git/lib/status.js:89-92 | taking off records gets stuck exactly at a misplaced boundary |
| Fifo.ChunksDoNotMatter | acs-git/lib/status.js:77-98 | taking off what has arrived and then what arrives is taking off both at once |
| Fifo.StuckStays | acs-git/lib/status.js:89-92 | once a boundary is bad no later bytes yield another record |
| Fifo.Reader.ShiftRecord | acs-git/lib/status.js:95-96 | the overlapping copy within the buffer moves the remaining bytes to the front |
| Fifo.Reader.Drain | acs-git/lib/status.js:88-97 | all whole records are passed on in order; it fails exactly if 37 or more bytes stay |
| Fifo.Reader.Read | acs-git/lib/status.js:82-97 | after every read the records passed on and the bytes in the buffer are all bytes read, at most 36 stay, and it throws exactly at a misplaced boundary |
| Fifo.Reader.ReadAll | acs-git/lib/status.js:77-98 | reading in pieces of any sizes gives the records of the whole stream and always has room in the buffer |
| Subscriptions.QueueThenRest | acs-i3x/lib/subscriptions.ts:154-186 | a stream receives the queue as it was at opening, then each later change in order, until it closes |
| Subscriptions.ChangesGrow | acs-i3x/lib/subscriptions.ts:202-222 | what has been seen and acknowledged stays so |
| Subscriptions.Subscription.QueueIsTheRest | acs-i3x/lib/subscriptions.ts:143-152 | the items ever generated are the acknowledged ones followed by the queue, numbered consecutively up to next minus one |
| Subscriptions.Subscription.RegisterOne | acs-i3x/lib/subscriptions.ts:120-125 | the element counts as registered from then on |
| Subscriptions.Subscription.UnregisterOne | acs-i3x/lib/subscriptions.ts:137-141 | the element no longer counts as registered from then on |
| Subscriptions.Subscription.ValueChanged | acs-i3x/lib/subscriptions.ts:205-215 | a change to a registered element makes exactly one item, queued and written to the open stream; other changes make none |
| Subscriptions.Subscription.SyncFrom | acs-i3x/lib/subscriptions.ts:143-152 | returns exactly what is not acknowledged |
| Subscriptions.Subscription.Stream | acs-i3x/lib/subscriptions.ts:154-186 | opens with the queue flushed; refused while another stream is open |
| Subscriptions.Subscription.StreamClosed | acs-i3x/lib/subscriptions.ts:180-183 | no stream is open afterwards and what was written stays |
| Subscriptions.Manager.Create | acs-i3x/lib/subscriptions.ts:44-67 | a fresh subscription without history joins the others |
| Subscriptions.Manager.GetAndVerify | acs-i3x/lib/subscriptions.ts:237-250 | not found, or another client's, or fine |
| Subscriptions.Manager.OnValueChange | acs-i3x/lib/subscriptions.ts:202-222 | a change reaches every subscription exactly once |
| Subscriptions.Manager.Poll | acs-i3x/lib/subscriptions.ts:143-152 | only the client's own subscription is read and changed |
| Subscriptions.Manager.Expire | acs-i3x/lib/subscriptions.ts:261-271 | the subscription goes with its stream closed; the others are as they were |
| Rebirths.SentIsHistory | acs-directory/lib/mqttcli.js:552-559 | what `sent` remembers decides whether all earlier grants are longer ago than five minutes |
| Rebirths.GrantKeeps | acs-directory/lib/mqttcli.js:571-580 | a grant at the end of a wait is far from all earlier ones and disturbs no other wait |
| Rebirths.Throttle.OnBirth | acs-directory/lib/mqttcli.js:466-468 | a birth makes the address online |
| Rebirths.Throttle.OnDeath | acs-directory/lib/mqttcli.js:495-502 | a death makes the address offline |
| Rebirths.Throttle.OnData | acs-directory/lib/mqttcli.js:547-574 | a call waits if and only if nobody waits for the address, it is not online, and every rebirth granted to it is more than 300 seconds ago |
| Rebirths.Throttle.OnWake | acs-directory/lib/mqttcli.js:574-580 | a rebirth is granted if and only if the address is not online when the wait ends |
| Rebirths.Throttle.Run | acs-directory/lib/mqttcli.js:547-581 | over all interleavings at most one call per address waits and two grants for one address are more than 305 seconds apart |

## Left out

* Object tree: the HTTP bootstrap (`loadDevices`), the fallback to a full rebuild when a diff throws, the RAG index, and which schemas an emission contains.
* Object tree: what happens after the tree has become malformed is not followed; edits, messages and emissions are those over a well-formed tree.
* Object tree: which ISA-95 levels without a device are left over once a message has moved a device off its path.
* Object tree: objects of a rebuild are shared between the old and the new snapshot; here they are values. A missing and a null name are the same, ISA-95 values are text, and config bodies are compared structurally.
* Object tree: the owner of a configured UUID is given as `own`; configurations in which two devices share a node id are not covered.
* Directory: alerts, links, services, the change notifications (other than those of a session) and their order, and the bulk script for pruning; a valid UUID has lower-case hexadecimal digits.
* Directory: a birth, a death, a restart and a prune each run as a whole, one after another; statements of two transactions interleaved under read committed are not followed.
* Datasets: how configs are grouped and watched, permissions, the checks of UUID and date formats (a session config is complete when it has both bounds), and dates other than as integers.
* Class graph: owners and permissions, dumps, configuration entries (whether one refers to the object is a parameter of `Delete`), and changing the rank table, which no request does.
* Class graph: that every object is a member of its primary class is not followed, because removing a subclass does not check it.
* Expressions: results of builtins that are neither a list nor null, binding lists that are objects with a `length`, fractional and not-a-number values, and which exception is thrown.
* Uploads: permissions, failures of the file system other than at opening and writing the temporary file, dates and names in the metadata.
* FIFO: the decoding of the 36 bytes as text, the pause at end of file, and closing.
* Subscriptions: the time to live itself (expiry is a step), back-pressure, listing, and the HTTP headers.
* Throttle: the escalation to the whole edge node, and the time it takes to send; wake-ups happen no earlier than they are due.
